/**
 The promises of the candle store in terms of its callers: what a call was given, the moves it has made
 since, and what it returned.
 */
module StoreOrigins {
  import opened Candles
  import opened RingBuffers
  import opened ColdNames
  import opened ColdStore
  import opened HotColdMerge
  import opened StoreProtocol
  import opened StoreInvariant
  import opened StoreHistory
  import opened StoreRange
  import opened StoreTheorems

  // ----- what a step does to its own call -----

  /** The append's spill has failed and it is about to return the error. */
  predicate Failed(th: Thread) { th.SpillFailed? || th.Rejecting? }

  function QueryOf(th: Thread): Option<Query> {
    if th.RangeLookup? || th.RangeHot? || th.RangeCold? || th.RangeFiles? || th.RangeDone? then Some(th.q) else None
  }

  /** The tick its append has taken. */
  function TickTaken(th: Thread): Option<nat> {
    if CallOf(th).Some? && !th.NeedTick? then Some(CallOf(th).value.tick) else None
  }

  /** An append begins exactly when its candle is valid, goes on as it began, and ends by `Bump` or `Reject`. */
  ghost predicate CarriesCall(s: State, t: nat, m: Move, s2: State)
    requires t < |s.threads| == |s2.threads|
  {
    var before, after := CallOf(s.threads[t]), CallOf(s2.threads[t]);
    && (m.BeginAppend? ==>
          before.None? && after == if m.c.IsValid() then Some(Call(m.sym, m.c, 0, s.attempts, 0, 0)) else None)
    && (!m.BeginAppend? && after.Some? ==>
          && before.Some? && after.value.sym == before.value.sym && after.value.c == before.value.c
          && after.value.born == before.value.born && after.value.steps == before.value.steps + 1
          && after.value.retries == before.value.retries + (if m.Retry? then 1 else 0))
    && (before.Some? ==> (after.None? <==> m.Bump? || m.Reject?))
    && (Failed(s2.threads[t]) <==> m.SpillErr? || (Failed(s.threads[t]) && m.ClearFlag?))
    && (Failed(s.threads[t]) ==> m.ClearFlag? || m.Reject?) && (m.Reject? ==> Failed(s.threads[t]))
    && (m.TakeTick? ==> before.Some? && TickTaken(s2.threads[t]) == Some(s.tick))
    && (!m.TakeTick? && TickTaken(s2.threads[t]).Some? ==> TickTaken(s.threads[t]) == TickTaken(s2.threads[t]))
    && s2.tick == s.tick + (if m.TakeTick? then 1 else 0)
    && s2.attempts == s.attempts + if m.Flag? then 1 else 0
  }

  /** A query begins as asked and stays the same until it ends; so do the two loads of a snapshot. */
  ghost predicate CarriesQuery(s: State, t: nat, m: Move, s2: State)
    requires t < |s.threads| == |s2.threads|
  {
    var th, th2 := s.threads[t], s2.threads[t];
    && (m.BeginRange? ==> QueryOf(th2) == Some(Query(m.sym, m.from, m.to, |s.acked|)))
    && (!m.BeginRange? && QueryOf(th2).Some? ==> QueryOf(th) == QueryOf(th2))
    && (th2.VersionRead? ==> m.ReadVersion? && th2 == VersionRead(s.version, |s.acked|))
    && (th2.SnapshotDone? ==>
          m.ReadSignals? && th.VersionRead? &&
          th2 == SnapshotDone(if th.v >= s.signals then th.v - s.signals else 0, th.acks))
  }

  ghost predicate Carries(s: State, t: nat, m: Move, s2: State) {
    Moved(s, t, s2) && CarriesCall(s, t, m, s2) && CarriesQuery(s, t, m, s2)
  }

  lemma AppendStepCarriesCall(cfg: Config, s: State, t: nat, m: Move, s2: State)
    requires AppendStep(cfg, s, t, m, s2) && (m.Lookup? || m.Touch? || m.TakeBuf? || m.CheckFlag?)
    ensures t < |s.threads| == |s2.threads| && CarriesCall(s, t, m, s2)
  {
  }

  lemma ReturnStepCarriesCall(cfg: Config, s: State, t: nat, m: Move, s2: State)
    requires AppendStep(cfg, s, t, m, s2) && (m.DropBuf? || m.Bump? || m.Retry?)
    ensures t < |s.threads| == |s2.threads| && CarriesCall(s, t, m, s2)
  {
  }

  lemma MapStepCarriesCall(cfg: Config, s: State, t: nat, m: Move, s2: State)
    requires MapStep(cfg, s, t, m, s2)
    ensures t < |s.threads| == |s2.threads| && CarriesCall(s, t, m, s2)
  {
  }

  lemma VictimStepCarriesCall(cfg: Config, s: State, t: nat, m: Move, s2: State)
    requires VictimStep(cfg, s, t, m, s2)
    ensures t < |s.threads| == |s2.threads| && CarriesCall(s, t, m, s2)
  {
  }

  lemma DataStepCarriesCall(cfg: Config, s: State, t: nat, m: Move, s2: State)
    requires DataStep(cfg, s, t, m, s2) && (m.Push? || m.Flag? || m.ClearFlag? || m.Insert?)
    ensures t < |s.threads| == |s2.threads| && CarriesCall(s, t, m, s2)
  {
  }

  lemma SpillStepCarriesCall(cfg: Config, s: State, t: nat, m: Move, s2: State)
    requires DataStep(cfg, s, t, m, s2) && (m.SpillOk? || m.SpillErr? || m.Remove?)
    ensures t < |s.threads| == |s2.threads| && CarriesCall(s, t, m, s2)
  {
    if m.SpillOk? || m.SpillErr? { SpillCarriesCall(s, t, m, s2); }
  }

  lemma SpillCarriesCall(s: State, t: nat, m: Move, s2: State)
    requires t < |s.threads| && s.threads[t].NeedSpill? && (m.SpillOk? || m.SpillErr?)
    requires var a, k, v := Did(s.threads[t].a), s.threads[t].k, s.threads[t].v;
             s2 == Go(s, t, if m.SpillOk? then NeedRemove(a, k, v) else SpillFailed(a, k, v)).(cold := s2.cold)
    ensures CarriesCall(s, t, m, s2)
  {
  }

  lemma BeginStepCarriesCall(cfg: Config, s: State, t: nat, m: Move, s2: State)
    requires CountStep(cfg, s, t, m, s2) && (m.BeginAppend? || m.TakeTick?)
    ensures t < |s.threads| == |s2.threads| && CarriesCall(s, t, m, s2)
  {
  }

  lemma CountStepCarriesCall(cfg: Config, s: State, t: nat, m: Move, s2: State)
    requires CountStep(cfg, s, t, m, s2) && !m.BeginAppend? && !m.TakeTick?
    ensures t < |s.threads| == |s2.threads| && CarriesCall(s, t, m, s2)
  {
  }

  /** The step is part of a query, and of no append. */
  ghost predicate OnlyQueries(s: State, t: nat, m: Move, s2: State) {
    && t < |s.threads| == |s2.threads| && IsRangeMove(m) && s2.tick == s.tick && s2.attempts == s.attempts
    && (s.threads[t].Idle? || QueryOf(s.threads[t]).Some?) && QueryOf(s2.threads[t]).Some?
  }

  lemma QueryIsNoCall(th: Thread)
    requires th.Idle? || QueryOf(th).Some?
    ensures CallOf(th).None? && !Failed(th)
  {
  }

  lemma RangeStepOnlyQueries(cfg: Config, s: State, t: nat, m: Move, s2: State)
    requires RangeStep(cfg, s, t, m, s2)
    ensures OnlyQueries(s, t, m, s2)
  {
  }

  lemma RangeStepCarriesCall(cfg: Config, s: State, t: nat, m: Move, s2: State)
    requires OnlyQueries(s, t, m, s2)
    ensures CarriesCall(s, t, m, s2)
  {
    QueryIsNoCall(s.threads[t]);
    QueryIsNoCall(s2.threads[t]);
  }

  lemma StepCarriesCall(cfg: Config, s: State, t: nat, m: Move, s2: State)
    requires Step(cfg, s, t, m, s2)
    ensures t < |s.threads| == |s2.threads| && CarriesCall(s, t, m, s2)
  {
    if m.DropBuf? || m.Bump? || m.Retry? {
      ReturnStepCarriesCall(cfg, s, t, m, s2);
    } else if IsAppendMove(m) {
      AppendStepCarriesCall(cfg, s, t, m, s2);
    } else if IsMapMove(m) {
      MapStepCarriesCall(cfg, s, t, m, s2);
    } else if IsVictimMove(m) {
      VictimStepCarriesCall(cfg, s, t, m, s2);
    } else if m.SpillOk? || m.SpillErr? || m.Remove? {
      SpillStepCarriesCall(cfg, s, t, m, s2);
    } else if IsDataMove(m) {
      DataStepCarriesCall(cfg, s, t, m, s2);
    } else if m.BeginAppend? || m.TakeTick? {
      BeginStepCarriesCall(cfg, s, t, m, s2);
    } else if IsCountMove(m) {
      CountStepCarriesCall(cfg, s, t, m, s2);
    } else {
      RangeStepOnlyQueries(cfg, s, t, m, s2);
      RangeStepCarriesCall(cfg, s, t, m, s2);
    }
  }

  lemma AppendStepCarriesQuery(cfg: Config, s: State, t: nat, m: Move, s2: State)
    requires AppendStep(cfg, s, t, m, s2)
    ensures t < |s.threads| == |s2.threads| && CarriesQuery(s, t, m, s2)
  {
  }

  lemma LockStepCarriesQuery(cfg: Config, s: State, t: nat, m: Move, s2: State)
    requires MapStep(cfg, s, t, m, s2) || VictimStep(cfg, s, t, m, s2)
    ensures t < |s.threads| == |s2.threads| && CarriesQuery(s, t, m, s2)
  {
  }

  lemma DataStepCarriesQuery(cfg: Config, s: State, t: nat, m: Move, s2: State)
    requires DataStep(cfg, s, t, m, s2)
    ensures t < |s.threads| == |s2.threads| && CarriesQuery(s, t, m, s2)
  {
  }

  lemma CountStepCarriesQuery(cfg: Config, s: State, t: nat, m: Move, s2: State)
    requires CountStep(cfg, s, t, m, s2)
    ensures t < |s.threads| == |s2.threads| && CarriesQuery(s, t, m, s2)
  {
  }

  lemma RangeStepCarriesQuery(cfg: Config, s: State, t: nat, m: Move, s2: State)
    requires RangeStep(cfg, s, t, m, s2)
    ensures t < |s.threads| == |s2.threads| && CarriesQuery(s, t, m, s2)
  {
  }

  lemma StepCarriesQuery(cfg: Config, s: State, t: nat, m: Move, s2: State)
    requires Step(cfg, s, t, m, s2)
    ensures t < |s.threads| == |s2.threads| && CarriesQuery(s, t, m, s2)
  {
    if IsAppendMove(m) {
      AppendStepCarriesQuery(cfg, s, t, m, s2);
    } else if IsMapMove(m) || IsVictimMove(m) {
      LockStepCarriesQuery(cfg, s, t, m, s2);
    } else if IsDataMove(m) {
      DataStepCarriesQuery(cfg, s, t, m, s2);
    } else if IsCountMove(m) {
      CountStepCarriesQuery(cfg, s, t, m, s2);
    } else {
      RangeStepCarriesQuery(cfg, s, t, m, s2);
    }
  }

  lemma RunCarries(cfg: Config, run: seq<State>, who: seq<nat>, moves: seq<Move>, i: nat)
    requires IsRun(cfg, run, who, moves) && i < |moves|
    ensures Carries(run[i], who[i], moves[i], run[i + 1]) && Tracked(run[i], who[i], moves[i], run[i + 1])
  {
    assert StepAt(cfg, run, who, moves, i);
    StepCarriesCall(cfg, run[i], who[i], moves[i], run[i + 1]);
    StepCarriesQuery(cfg, run[i], who[i], moves[i], run[i + 1]);
    StepTracked(cfg, run[i], who[i], moves[i], run[i + 1]);
  }

  // ----- counting moves -----

  datatype Kind = Any | Retries | SpillErrs | Flags | Bumps | Publications | SignalCalls | Ticks

  predicate Matches(kind: Kind, m: Move) {
    match kind
    case Any => true
    case Retries => m.Retry?
    case SpillErrs => m.SpillErr?
    case Flags => m.Flag?
    case Bumps => m.Bump?
    case Publications => m.PublishSignal?
    case SignalCalls => m.Signal?
    case Ticks => m.TakeTick?
  }

  /** How many moves of a kind, from `lo` up to `hi`, were made by thread `t`, or by anyone. */
  function Count(who: seq<nat>, moves: seq<Move>, t: Option<nat>, kind: Kind, lo: nat, hi: nat): nat
    requires |who| == |moves| && lo <= hi <= |moves|
    decreases hi
  {
    if lo == hi then 0
    else
      var one := if (t.None? || who[hi - 1] == t.value) && Matches(kind, moves[hi - 1]) then 1 else 0;
      Count(who, moves, t, kind, lo, hi - 1) + one
  }

  lemma {:induction false} CountSplits(who: seq<nat>, moves: seq<Move>, t: Option<nat>, kind: Kind,
                                       lo: nat, mid: nat, hi: nat)
    requires |who| == |moves| && lo <= mid <= hi <= |moves|
    ensures Count(who, moves, t, kind, lo, hi) ==
              Count(who, moves, t, kind, lo, mid) + Count(who, moves, t, kind, mid, hi)
    decreases hi
  {
    if mid < hi { CountSplits(who, moves, t, kind, lo, mid, hi - 1); }
  }

  lemma RunCounts(cfg: Config, run: seq<State>, who: seq<nat>, moves: seq<Move>, i: nat)
    requires IsRun(cfg, run, who, moves) && i < |moves|
    ensures |run[i + 1].acked| == |run[i].acked| + (if moves[i].Bump? then 1 else 0)
    ensures run[i + 1].published == run[i].published + (if moves[i].PublishSignal? then 1 else 0)
    ensures run[i + 1].version == run[i].version + (if moves[i].Bump? || moves[i].PublishSignal? then 1 else 0)
    ensures run[i + 1].signals == run[i].signals + (if moves[i].Signal? then 1 else 0)
    ensures run[i + 1].attempts == run[i].attempts + (if moves[i].Flag? then 1 else 0)
    ensures run[i + 1].tick == run[i].tick + (if moves[i].TakeTick? then 1 else 0)
  {
    RunCarries(cfg, run, who, moves, i);
  }

  /** The acknowledgements, the counters and the eviction attempts count the moves that made them. */
  lemma {:induction false} CountersCountMoves(cfg: Config, run: seq<State>, who: seq<nat>, moves: seq<Move>, i: nat)
    requires IsRun(cfg, run, who, moves) && i < |run|
    ensures |run[i].acked| == Count(who, moves, None, Bumps, 0, i)
    ensures run[i].published == Count(who, moves, None, Publications, 0, i)
    ensures run[i].signals == Count(who, moves, None, SignalCalls, 0, i)
    ensures run[i].attempts == Count(who, moves, None, Flags, 0, i)
    ensures run[i].tick == Count(who, moves, None, Ticks, 0, i)
    ensures run[i].version ==
              Count(who, moves, None, Bumps, 0, i) + Count(who, moves, None, Publications, 0, i)
  {
    if i > 0 {
      CountersCountMoves(cfg, run, who, moves, i - 1);
      RunCounts(cfg, run, who, moves, i - 1);
    }
  }

  // ----- where a running append comes from -----

  /** `j` is the last call of thread `t` before state `i` to begin an append. */
  ghost predicate LastAppend(who: seq<nat>, moves: seq<Move>, t: nat, j: nat, i: nat) {
    && j < i <= |moves| == |who| && who[j] == t && moves[j].BeginAppend?
    && forall k :: j < k < i && who[k] == t ==> !moves[k].BeginAppend?
  }

  /** The call is the one begun at `j`, and its counts are those of the moves of its thread since. */
  ghost predicate CallBegan(run: seq<State>, who: seq<nat>, moves: seq<Move>, t: nat, i: nat, a: Call, j: nat) {
    && |run| == |moves| + 1 && LastAppend(who, moves, t, j, i)
    && moves[j] == BeginAppend(a.sym, a.c) && a.c.IsValid() && a.born == run[j].attempts
    && a.steps == Count(who, moves, Some(t), Any, j + 1, i)
    && a.retries == Count(who, moves, Some(t), Retries, j + 1, i)
  }

  lemma CallBegins(run: seq<State>, who: seq<nat>, moves: seq<Move>, t: nat, i: nat)
    requires |run| == |moves| + 1 && |who| == |moves| && i < |moves| && who[i] == t && moves[i].BeginAppend?
    requires Carries(run[i], t, moves[i], run[i + 1]) && CallOf(run[i + 1].threads[t]).Some?
    ensures CallBegan(run, who, moves, t, i + 1, CallOf(run[i + 1].threads[t]).value, i)
  {
  }

  lemma CallGoesOn(run: seq<State>, who: seq<nat>, moves: seq<Move>, t: nat, i: nat, j: nat)
    requires |run| == |moves| + 1 && |who| == |moves| && i < |moves| && t < |run[i].threads|
    requires Carries(run[i], who[i], moves[i], run[i + 1]) && (who[i] == t ==> !moves[i].BeginAppend?)
    requires CallOf(run[i].threads[t]).Some? && CallOf(run[i + 1].threads[t]).Some?
    requires CallBegan(run, who, moves, t, i, CallOf(run[i].threads[t]).value, j)
    ensures CallBegan(run, who, moves, t, i + 1, CallOf(run[i + 1].threads[t]).value, j)
  {
  }

  lemma {:induction false} CallHasOrigin(cfg: Config, run: seq<State>, who: seq<nat>, moves: seq<Move>,
                                         i: nat, t: nat) returns (j: nat)
    requires IsRun(cfg, run, who, moves) && i < |run| && t < |run[i].threads|
    requires CallOf(run[i].threads[t]).Some?
    ensures CallBegan(run, who, moves, t, i, CallOf(run[i].threads[t]).value, j)
  {
    assert i > 0;
    RunCarries(cfg, run, who, moves, i - 1);
    if who[i - 1] == t && moves[i - 1].BeginAppend? {
      j := i - 1;
      CallBegins(run, who, moves, t, i - 1);
    } else {
      j := CallHasOrigin(cfg, run, who, moves, i - 1, t);
      CallGoesOn(run, who, moves, t, i - 1, j);
    }
  }

  // ----- what an append returns -----

  /** A move to begin an append begins one exactly when the candle is valid, and otherwise changes nothing. */
  lemma BeginsIffValid(cfg: Config, run: seq<State>, who: seq<nat>, moves: seq<Move>, i: nat)
    requires IsRun(cfg, run, who, moves) && i < |moves| && moves[i].BeginAppend?
    ensures who[i] < |run[i + 1].threads|
    ensures CallOf(run[i + 1].threads[who[i]]).Some? <==> moves[i].c.IsValid()
    ensures !moves[i].c.IsValid() ==> run[i + 1] == run[i]
  {
    RunCarries(cfg, run, who, moves, i);
    assert StepAt(cfg, run, who, moves, i);
  }

  /** Move `i` acknowledges the append that its thread began at `j`: its symbol and its candle. */
  ghost predicate Acknowledges(run: seq<State>, who: seq<nat>, moves: seq<Move>, j: nat, i: nat) {
    && |run| == |moves| + 1 && i < |moves| == |who| && LastAppend(who, moves, who[i], j, i) && moves[j].c.IsValid()
    && |run[i + 1].acked| == |run[i].acked| + 1 && run[i].acked <= run[i + 1].acked
    && var k := run[i + 1].acked[|run[i].acked|]; k.sym == moves[j].sym && k.c == moves[j].c
  }

  lemma BumpAcks(s: State, t: nat, s2: State)
    requires DoBump(s, t, s2)
    ensures t < |s.threads| && CallOf(s.threads[t]).Some?
    ensures var a := CallOf(s.threads[t]).value;
            && |s2.acked| == |s.acked| + 1 && s.acked <= s2.acked
            && s2.acked[|s.acked|].sym == a.sym && s2.acked[|s.acked|].c == a.c
  {
  }

  /** What an append that returns `Ok` has stored is what its caller gave. */
  lemma AckIsCallers(cfg: Config, run: seq<State>, who: seq<nat>, moves: seq<Move>, i: nat) returns (j: nat)
    requires IsRun(cfg, run, who, moves) && i < |moves| && moves[i].Bump?
    ensures Acknowledges(run, who, moves, j, i)
  {
    assert StepAt(cfg, run, who, moves, i);
    BumpAcks(run[i], who[i], run[i + 1]);
    j := CallHasOrigin(cfg, run, who, moves, i, who[i]);
  }

  /** And every acknowledgement is one of these. */
  lemma {:induction false} AckHasOrigin(cfg: Config, run: seq<State>, who: seq<nat>, moves: seq<Move>,
                                        i: nat, n: nat) returns (j: nat, k: nat)
    requires IsRun(cfg, run, who, moves) && i < |run| && n < |run[i].acked|
    ensures k < i && moves[k].Bump? && |run[k].acked| == n && Acknowledges(run, who, moves, j, k)
    ensures run[i].acked[n].sym == moves[j].sym && run[i].acked[n].c == moves[j].c
  {
    assert i > 0;
    RunCarries(cfg, run, who, moves, i - 1);
    if n < |run[i - 1].acked| {
      j, k := AckHasOrigin(cfg, run, who, moves, i - 1, n);
    } else {
      k := i - 1;
      j := AckIsCallers(cfg, run, who, moves, k);
    }
  }

  /** Thread `t` failed to spill at `k`, and has since done nothing but clear the victim's flag. */
  ghost predicate FailedAt(who: seq<nat>, moves: seq<Move>, t: nat, k: nat, i: nat) {
    && k < i <= |moves| == |who| && who[k] == t && moves[k].SpillErr?
    && forall l :: k < l < i && who[l] == t ==> moves[l].ClearFlag?
  }

  lemma {:induction false} FailureHasOrigin(cfg: Config, run: seq<State>, who: seq<nat>, moves: seq<Move>,
                                            i: nat, t: nat) returns (k: nat)
    requires IsRun(cfg, run, who, moves) && i < |run| && t < |run[i].threads| && Failed(run[i].threads[t])
    ensures FailedAt(who, moves, t, k, i)
  {
    assert i > 0;
    RunCarries(cfg, run, who, moves, i - 1);
    if who[i - 1] == t && moves[i - 1].SpillErr? {
      k := i - 1;
    } else {
      k := FailureHasOrigin(cfg, run, who, moves, i - 1, t);
    }
  }

  /** An append that has not failed by state `i` has made no failing spill. */
  lemma {:induction false} NoFailureSoFar(cfg: Config, run: seq<State>, who: seq<nat>, moves: seq<Move>,
                                          i: nat, t: nat, j: nat)
    requires IsRun(cfg, run, who, moves) && i < |run| && t < |run[i].threads|
    requires CallOf(run[i].threads[t]).Some? && LastAppend(who, moves, t, j, i)
    ensures Failed(run[i].threads[t]) <==> Count(who, moves, Some(t), SpillErrs, j + 1, i) > 0
  {
    RunCarries(cfg, run, who, moves, i - 1);
    if j + 1 < i { NoFailureSoFar(cfg, run, who, moves, i - 1, t, j); }
  }

  /**
   An append ends with `Ok` or with an error. It is the error exactly when a spill of its own failed, and
   then nothing is acknowledged.
   */
  lemma CallEnds(cfg: Config, run: seq<State>, who: seq<nat>, moves: seq<Move>, i: nat, j: nat)
    requires IsRun(cfg, run, who, moves) && i < |moves| && LastAppend(who, moves, who[i], j, i)
    requires who[i] < |run[i].threads| == |run[i + 1].threads| && CallOf(run[i].threads[who[i]]).Some?
    requires CallOf(run[i + 1].threads[who[i]]).None?
    ensures moves[i].Bump? || moves[i].Reject?
    ensures moves[i].Reject? <==> Count(who, moves, Some(who[i]), SpillErrs, j + 1, i) > 0
    ensures moves[i].Bump? ==> Acknowledges(run, who, moves, j, i)
    ensures moves[i].Reject? ==> run[i + 1].acked == run[i].acked
  {
    RunCarries(cfg, run, who, moves, i);
    NoFailureSoFar(cfg, run, who, moves, i, who[i], j);
    if moves[i].Bump? {
      var k := AckIsCallers(cfg, run, who, moves, i);
    }
  }

  /** The append that move `k` acknowledged is kept ever after, as its caller gave it. */
  lemma AppendedIsKept(cfg: Config, run: seq<State>, who: seq<nat>, moves: seq<Move>, k: nat, i: nat)
      returns (j: nat, ack: Ack)
    requires cfg.cap > 0 && cfg.dataDir && IsRun(cfg, run, who, moves) && k < i < |run| && moves[k].Bump?
    ensures Acknowledges(run, who, moves, j, k) && ack.sym == moves[j].sym && ack.c == moves[j].c
    ensures ack in run[i].acked && Kept(cfg, run[i], ack)
  {
    j := AckIsCallers(cfg, run, who, moves, k);
    var n := |run[k].acked|;
    ack := run[k + 1].acked[n];
    AcksStay(cfg, run, who, moves, k + 1, i);
    assert run[i].acked[n] == ack;
    NoAcceptedCandleIsLost(cfg, run, who, moves, i, n);
  }

  lemma {:induction false} AcksStay(cfg: Config, run: seq<State>, who: seq<nat>, moves: seq<Move>, i: nat, j: nat)
    requires IsRun(cfg, run, who, moves) && i <= j < |run|
    ensures run[i].acked <= run[j].acked
    decreases j
  {
    if i < j {
      AcksStay(cfg, run, who, moves, i, j - 1);
      RunCarries(cfg, run, who, moves, j - 1);
      assert run[i].acked <= run[j - 1].acked <= run[j].acked;
    }
  }

  /** Every candle in a ring was given by a caller, under that ring's symbol. */
  lemma PushIsCallers(cfg: Config, run: seq<State>, who: seq<nat>, moves: seq<Move>, i: nat, e: nat, p: nat)
      returns (j: nat)
    requires cfg.cap > 0 && IsRun(cfg, run, who, moves) && i < |run|
    requires e < |run[i].entries| && p < |run[i].entries[e].hist|
    ensures j < i && moves[j] == BeginAppend(run[i].entries[e].sym, run[i].entries[e].hist[p])
    ensures moves[j].c.IsValid()
  {
    EveryPushHasOneOwner(cfg, run, who, moves, i);
    assert PushIsOwned(run[i], e, p);
    var sym, c := run[i].entries[e].sym, run[i].entries[e].hist[p];
    if n: nat :| n < |run[i].acked| && run[i].acked[n] == Ack(sym, c, e, p) {
      var k;
      j, k := AckHasOrigin(cfg, run, who, moves, i, n);
    } else {
      var u: nat :| u < |run[i].threads| && Target(run[i].threads[u]) == Some(e) &&
                    PushedAt(run[i].threads[u]) == Some(p);
      RunKeepsThread(cfg, run, who, moves, i, u);
      j := CallHasOrigin(cfg, run, who, moves, i, u);
    }
  }

  // ----- how long an append takes -----

  /**
   Since it began, a running append has retried at most once per eviction attempt of anyone, and has made
   fewer than 13 moves per try.
   */
  lemma AppendMovesAreBounded(cfg: Config, run: seq<State>, who: seq<nat>, moves: seq<Move>, i: nat, t: nat)
      returns (j: nat)
    requires cfg.cap > 0 && IsRun(cfg, run, who, moves) && i < |run| && t < |run[i].threads|
    requires CallOf(run[i].threads[t]).Some?
    ensures LastAppend(who, moves, t, j, i)
    ensures Count(who, moves, Some(t), Retries, j + 1, i) <= Count(who, moves, None, Flags, j, i)
    ensures Count(who, moves, Some(t), Any, j + 1, i) < 13 * (Count(who, moves, None, Flags, j, i) + 1)
  {
    j := CallHasOrigin(cfg, run, who, moves, i, t);
    AppendStepsAreBounded(cfg, run, who, moves, i, t);
    CountersCountMoves(cfg, run, who, moves, i);
    CountersCountMoves(cfg, run, who, moves, j);
    CountSplits(who, moves, None, Flags, 0, j, i);
  }

  // ----- what makes room in the map -----

  lemma StepDropsSymbol(cfg: Config, s: State, t: nat, m: Move, s2: State, sym: string)
    requires Step(cfg, s, t, m, s2) && sym in s.hot && sym !in s2.hot
    ensures m.Remove? && DoRemove(s, t, s2)
  {
    if IsDataMove(m) {
      DataMoveIsDataStep(cfg, s, t, m, s2);
    } else {
      OtherStepView(cfg, s, t, m, s2);
    }
  }

  /**
   A symbol leaves the map only by an eviction, alone, when the map is full, for an append to a symbol that
   is not in it.
   */
  lemma EvictsOnlyWhenFull(cfg: Config, run: seq<State>, who: seq<nat>, moves: seq<Move>, i: nat, sym: string)
      returns (j: nat)
    requires cfg.cap > 0 && IsRun(cfg, run, who, moves) && i < |moves|
    requires sym in run[i].hot && sym !in run[i + 1].hot
    ensures moves[i].Remove? && run[i + 1].hot == run[i].hot - {sym} && |run[i].hot| >= cfg.maxSymbols
    ensures LastAppend(who, moves, who[i], j, i) && moves[j].sym !in run[i].hot
  {
    assert StepAt(cfg, run, who, moves, i);
    StepDropsSymbol(cfg, run[i], who[i], moves[i], run[i + 1], sym);
    RunKeepsThread(cfg, run, who, moves, i, who[i]);
    assert VictimOk(cfg, run[i], run[i].threads[who[i]]);
    j := CallHasOrigin(cfg, run, who, moves, i, who[i]);
  }

  // ----- what an entry's access tick is -----

  /** The step left the entry's stamp alone, or made it the tick of the append that reached the entry. */
  ghost predicate StampOk(s: State, t: nat, s2: State, e: nat)
    requires t < |s.threads| && e < |s2.entries|
  {
    || (e < |s.entries| && s2.entries[e].lastAccess == s.entries[e].lastAccess && s2.entries[e].sym == s.entries[e].sym)
    || (TickTaken(s.threads[t]) == Some(s2.entries[e].lastAccess) &&
        s2.entries[e].sym == CallOf(s.threads[t]).value.sym)
  }

  lemma AppendStepStamps(cfg: Config, s: State, t: nat, m: Move, s2: State, e: nat)
    requires AppendStep(cfg, s, t, m, s2) && TargetOk(s, s.threads[t]) && e < |s2.entries|
    ensures StampOk(s, t, s2, e)
  {
  }

  lemma DataStepStamps(cfg: Config, s: State, t: nat, m: Move, s2: State, e: nat)
    requires DataStep(cfg, s, t, m, s2) && e < |s2.entries|
    ensures t < |s.threads| && StampOk(s, t, s2, e)
  {
  }

  lemma LockStepStamps(cfg: Config, s: State, t: nat, m: Move, s2: State, e: nat)
    requires (MapStep(cfg, s, t, m, s2) || VictimStep(cfg, s, t, m, s2)) && e < |s2.entries|
    ensures t < |s.threads| && StampOk(s, t, s2, e)
  {
  }

  lemma OtherStepStamps(cfg: Config, s: State, t: nat, m: Move, s2: State, e: nat)
    requires (CountStep(cfg, s, t, m, s2) || RangeStep(cfg, s, t, m, s2)) && e < |s2.entries|
    ensures t < |s.threads| && StampOk(s, t, s2, e)
  {
  }

  lemma StepStamps(cfg: Config, s: State, t: nat, m: Move, s2: State, e: nat)
    requires Step(cfg, s, t, m, s2) && t < |s.threads| && TargetOk(s, s.threads[t]) && e < |s2.entries|
    ensures StampOk(s, t, s2, e)
  {
    if IsAppendMove(m) {
      AppendStepStamps(cfg, s, t, m, s2, e);
    } else if IsMapMove(m) || IsVictimMove(m) {
      LockStepStamps(cfg, s, t, m, s2, e);
    } else if IsDataMove(m) {
      DataStepStamps(cfg, s, t, m, s2, e);
    } else {
      OtherStepStamps(cfg, s, t, m, s2, e);
    }
  }

  /** At move `k` an append to `sym` took `tick`, which numbers the ticks taken in order. */
  ghost predicate TookTick(run: seq<State>, who: seq<nat>, moves: seq<Move>, k: nat, sym: string, tick: nat) {
    && |run| == |moves| + 1 && k < |moves| == |who| && moves[k].TakeTick? && who[k] < |run[k].threads|
    && CallOf(run[k].threads[who[k]]).Some? && CallOf(run[k].threads[who[k]]).value.sym == sym
    && tick == Count(who, moves, None, Ticks, 0, k)
  }

  lemma RunTick(cfg: Config, run: seq<State>, who: seq<nat>, moves: seq<Move>, i: nat, t: nat)
    requires IsRun(cfg, run, who, moves) && i < |moves| && t < |run[i + 1].threads|
    requires TickTaken(run[i + 1].threads[t]).Some?
    ensures t < |run[i].threads| && CallOf(run[i].threads[t]).Some?
    ensures CallOf(run[i].threads[t]).value.sym == CallOf(run[i + 1].threads[t]).value.sym
    ensures TickTaken(run[i + 1].threads[t]) ==
              if who[i] == t && moves[i].TakeTick? then Some(run[i].tick) else TickTaken(run[i].threads[t])
  {
    RunCarries(cfg, run, who, moves, i);
  }

  lemma {:induction false} CallTick(cfg: Config, run: seq<State>, who: seq<nat>, moves: seq<Move>, i: nat, t: nat)
      returns (k: nat)
    requires IsRun(cfg, run, who, moves) && i < |run| && t < |run[i].threads| && TickTaken(run[i].threads[t]).Some?
    ensures k < i
    ensures TookTick(run, who, moves, k, CallOf(run[i].threads[t]).value.sym, TickTaken(run[i].threads[t]).value)
  {
    assert i > 0;
    RunTick(cfg, run, who, moves, i - 1, t);
    if who[i - 1] == t && moves[i - 1].TakeTick? {
      k := i - 1;
      CountersCountMoves(cfg, run, who, moves, k);
    } else {
      k := CallTick(cfg, run, who, moves, i - 1, t);
    }
  }

  /** The access stamp of an entry is the tick some append to its symbol took. */
  lemma {:induction false} StampIsTick(cfg: Config, run: seq<State>, who: seq<nat>, moves: seq<Move>, i: nat, e: nat)
      returns (k: nat)
    requires cfg.cap > 0 && IsRun(cfg, run, who, moves) && i < |run| && e < |run[i].entries|
    ensures k < i && TookTick(run, who, moves, k, run[i].entries[e].sym, run[i].entries[e].lastAccess)
  {
    assert i > 0;
    RunCarries(cfg, run, who, moves, i - 1);
    assert StepAt(cfg, run, who, moves, i - 1);
    RunKeepsThread(cfg, run, who, moves, i - 1, who[i - 1]);
    StepStamps(cfg, run[i - 1], who[i - 1], moves[i - 1], run[i], e);
    var th := run[i - 1].threads[who[i - 1]];
    if TickTaken(th) == Some(run[i].entries[e].lastAccess) && run[i].entries[e].sym == CallOf(th).value.sym {
      k := CallTick(cfg, run, who, moves, i - 1, who[i - 1]);
    } else {
      k := StampIsTick(cfg, run, who, moves, i - 1, e);
    }
  }

  // ----- where a query comes from -----

  /** `j` is the last call of thread `t` before state `i` to begin a query, and asks for `q`. */
  ghost predicate LastRange(run: seq<State>, who: seq<nat>, moves: seq<Move>, t: nat, j: nat, i: nat, q: Query) {
    && |run| == |moves| + 1 && j < i <= |moves| == |who| && who[j] == t
    && moves[j] == BeginRange(q.sym, q.from, q.to) && q.since == |run[j].acked|
    && forall k :: j < k < i && who[k] == t ==> !moves[k].BeginRange?
  }

  lemma RunQuery(cfg: Config, run: seq<State>, who: seq<nat>, moves: seq<Move>, i: nat, t: nat)
    requires IsRun(cfg, run, who, moves) && i < |moves| && t < |run[i + 1].threads|
    ensures t < |run[i].threads|
    ensures who[i] == t && moves[i].BeginRange? ==>
              QueryOf(run[i + 1].threads[t]) == Some(Query(moves[i].sym, moves[i].from, moves[i].to, |run[i].acked|))
    ensures !(who[i] == t && moves[i].BeginRange?) && QueryOf(run[i + 1].threads[t]).Some? ==>
              QueryOf(run[i].threads[t]) == QueryOf(run[i + 1].threads[t])
  {
    RunCarries(cfg, run, who, moves, i);
  }

  lemma {:induction false} QueryHasOrigin(cfg: Config, run: seq<State>, who: seq<nat>, moves: seq<Move>,
                                          i: nat, t: nat) returns (j: nat)
    requires IsRun(cfg, run, who, moves) && i < |run| && t < |run[i].threads|
    requires QueryOf(run[i].threads[t]).Some?
    ensures LastRange(run, who, moves, t, j, i, QueryOf(run[i].threads[t]).value)
  {
    assert i > 0;
    RunQuery(cfg, run, who, moves, i - 1, t);
    if who[i - 1] == t && moves[i - 1].BeginRange? {
      j := i - 1;
    } else {
      j := QueryHasOrigin(cfg, run, who, moves, i - 1, t);
    }
  }

  /** The acknowledgement that move `k` made. */
  function AckOf(run: seq<State>, k: nat): Ack
    requires k + 1 < |run| && |run[k].acked| < |run[k + 1].acked|
  {
    run[k + 1].acked[|run[k].acked|]
  }

  /**
   Take an append that returned `Ok` at move `k`, and a query called later. If the candle given has the symbol
   asked for and lies in the window asked for, and the ring read was in order, then its timestamp is in the
   answer, unless `cap` later pushes overwrote it.
   */
  lemma ReadsWhatWasAppended(cfg: Config, run: seq<State>, who: seq<nat>, moves: seq<Move>, k: nat, i: nat, u: nat)
      returns (begun: nat, asked: nat)
    requires cfg.cap > 0 && cfg.dataDir && IsRun(cfg, run, who, moves) && i < |run| && u < |run[i].threads|
    requires run[i].threads[u].RangeDone? && ReadInOrder(cfg, run[i], run[i].threads[u].h)
    requires k < |moves| && moves[k].Bump?
    ensures Acknowledges(run, who, moves, begun, k)
    ensures LastRange(run, who, moves, u, asked, i, run[i].threads[u].q)
    ensures k < asked && moves[begun].sym == moves[asked].sym &&
            InWindow(moves[begun].c, moves[asked].from, moves[asked].to) ==>
              && AckOf(run, k).e < |run[i].entries|
              && (Overwritten(cfg, run[i], AckOf(run, k)) || HasTs(run[i].threads[u].out, moves[begun].c.ts))
  {
    begun := AckIsCallers(cfg, run, who, moves, k);
    asked := QueryHasOrigin(cfg, run, who, moves, i, u);
    if k < asked {
      var n := |run[k].acked|;
      AcksStay(cfg, run, who, moves, k + 1, asked);
      AcksStay(cfg, run, who, moves, asked, i);
      assert n < |run[asked].acked| && run[asked].acked[n] == AckOf(run, k) && run[i].acked[n] == AckOf(run, k);
      RangeIsComplete(cfg, run, who, moves, i, u);
      assert Wanted(run[i], run[i].threads[u].q, n) ==> Answered(cfg, run[i], run[i].threads[u].out, n);
    }
  }

  // ----- what a snapshot misses -----

  /** Thread `t` made move `j`, and none since. */
  ghost predicate LastMove(who: seq<nat>, t: nat, j: nat, i: nat) {
    && j < i <= |who| && who[j] == t && forall k :: j < k < i ==> who[k] != t
  }

  lemma {:induction false} VersionLoad(cfg: Config, run: seq<State>, who: seq<nat>, moves: seq<Move>, i: nat, t: nat)
      returns (j: nat)
    requires IsRun(cfg, run, who, moves) && i < |run| && t < |run[i].threads| && run[i].threads[t].VersionRead?
    ensures LastMove(who, t, j, i) && moves[j].ReadVersion?
    ensures run[i].threads[t] == VersionRead(run[j].version, |run[j].acked|)
  {
    assert i > 0;
    RunCarries(cfg, run, who, moves, i - 1);
    if who[i - 1] == t {
      j := i - 1;
    } else {
      j := VersionLoad(cfg, run, who, moves, i - 1, t);
    }
  }

  lemma {:induction false} SnapshotLoads(cfg: Config, run: seq<State>, who: seq<nat>, moves: seq<Move>,
                                         i: nat, t: nat) returns (j: nat, k: nat)
    requires IsRun(cfg, run, who, moves) && i < |run| && t < |run[i].threads| && run[i].threads[t].SnapshotDone?
    ensures LastMove(who, t, k, i) && moves[k].ReadSignals? && LastMove(who, t, j, k) && moves[j].ReadVersion?
    ensures run[i].threads[t].acks == |run[j].acked|
    ensures run[i].threads[t].total ==
              if run[j].version >= run[k].signals then run[j].version - run[k].signals else 0
  {
    assert i > 0;
    RunCarries(cfg, run, who, moves, i - 1);
    if who[i - 1] == t {
      k := i - 1;
      j := VersionLoad(cfg, run, who, moves, k, t);
    } else {
      j, k := SnapshotLoads(cfg, run, who, moves, i - 1, t);
    }
  }

  /**
   A snapshot that loads `version` at `j` and `signals` at `k` counts the appends acknowledged by `j`, less the
   signals not yet published at `j` and those made between the two loads: without such a signal it is exact.
   */
  lemma SnapshotMisses(cfg: Config, run: seq<State>, who: seq<nat>, moves: seq<Move>, i: nat, t: nat)
      returns (j: nat, k: nat)
    requires cfg.cap > 0 && IsRun(cfg, run, who, moves) && i < |run| && t < |run[i].threads|
    requires run[i].threads[t].SnapshotDone?
    ensures LastMove(who, t, k, i) && moves[k].ReadSignals? && LastMove(who, t, j, k) && moves[j].ReadVersion?
    ensures var acks := Count(who, moves, None, Bumps, 0, j);
            var raced := PendingSignals(run[j].threads) + Count(who, moves, None, SignalCalls, j, k);
            && run[i].threads[t].total == (if acks >= raced then acks - raced else 0)
            && (run[i].threads[t].total == acks <==> acks == 0 || raced == 0)
            && (acks - run[i].threads[t].total <= 1 <==> acks <= 1 || raced <= 1)
  {
    j, k := SnapshotLoads(cfg, run, who, moves, i, t);
    CountersCountMoves(cfg, run, who, moves, j);
    CountersCountMoves(cfg, run, who, moves, k);
    CountSplits(who, moves, None, SignalCalls, 0, j, k);
    RunKeepsCounters(cfg, run, who, moves, j);
  }
}
