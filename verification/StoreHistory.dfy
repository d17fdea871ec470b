/** How the store's shared state evolves, and what follows for acknowledgements and counters. */
module StoreHistory {
  import opened Candles
  import opened ColdNames
  import opened ColdStore
  import opened StoreProtocol
  import opened StoreInvariant

  // ----- monotone evolution -----

  /** Rings only grow and grow only while mapped; what left the map never returns; files stay. */
  ghost predicate DataEvolves(s: State, s2: State) {
    && |s.entries| <= |s2.entries|
    && (forall e: nat :: e < |s.entries| ==>
          s2.entries[e].sym == s.entries[e].sym && s.entries[e].hist <= s2.entries[e].hist)
    && (forall e: nat :: e < |s.entries| && !Live(s, e) ==> !Live(s2, e) && s2.entries[e].hist == s.entries[e].hist)
    && (forall d :: d in s.cold ==> d in s2.cold && SubDir(s.cold[d], s2.cold[d]))
  }

  ghost predicate LogEvolves(s: State, s2: State) {
    && s.acked <= s2.acked && s.signals <= s2.signals && s.attempts <= s2.attempts && s.version <= s2.version
    && |s2.threads| == |s.threads|
  }

  function Pending(th: Thread): nat { if th.Signalling? then 1 else 0 }

  predicate IsReading(th: Thread) { th.VersionRead? || th.SnapshotDone? }

  /** What a move does to the counters and to the number of signals on their way. */
  ghost predicate Counted(s: State, t: nat, acks: nat, publishes: nat, signals: nat, s2: State) {
    && Moved(s, t, s2) && |s2.acked| == |s.acked| + acks && s2.published == s.published + publishes
    && s2.version == s.version + acks + publishes && s2.signals == s.signals + signals
    && Pending(s2.threads[t]) == Pending(s.threads[t]) + signals - publishes
  }

  function Acks(m: Move): nat { if m.Bump? then 1 else 0 }
  function Publishes(m: Move): nat { if m.PublishSignal? then 1 else 0 }
  function Signals(m: Move): nat { if m.Signal? then 1 else 0 }

  /**
   A step moves one thread, only extends the logs, bumps `version` exactly when it acknowledges an
   append or publishes a signal, and reads counters only in the moves that say so.
   */
  ghost predicate Tracked(s: State, t: nat, m: Move, s2: State) {
    && Counted(s, t, Acks(m), Publishes(m), Signals(m), s2) && LogEvolves(s, s2)
    && (m.ReadVersion? || m.ReadSignals? || s2 == s || !IsReading(s2.threads[t]))
  }

  lemma AppendStepTracked(cfg: Config, s: State, t: nat, m: Move, s2: State)
    requires AppendStep(cfg, s, t, m, s2)
    ensures Tracked(s, t, m, s2)
  {
  }

  lemma MapStepTracked(cfg: Config, s: State, t: nat, m: Move, s2: State)
    requires MapStep(cfg, s, t, m, s2)
    ensures Tracked(s, t, m, s2)
  {
  }

  lemma VictimStepTracked(cfg: Config, s: State, t: nat, m: Move, s2: State)
    requires VictimStep(cfg, s, t, m, s2)
    ensures Tracked(s, t, m, s2)
  {
  }

  lemma DataStepTracked(cfg: Config, s: State, t: nat, m: Move, s2: State)
    requires DataStep(cfg, s, t, m, s2)
    ensures Tracked(s, t, m, s2)
  {
  }

  lemma CountStepTracked(cfg: Config, s: State, t: nat, m: Move, s2: State)
    requires CountStep(cfg, s, t, m, s2)
    ensures Tracked(s, t, m, s2)
  {
  }

  lemma RangeStepTracked(cfg: Config, s: State, t: nat, m: Move, s2: State)
    requires RangeStep(cfg, s, t, m, s2)
    ensures Tracked(s, t, m, s2)
  {
  }

  lemma StepTracked(cfg: Config, s: State, t: nat, m: Move, s2: State)
    requires Step(cfg, s, t, m, s2)
    ensures Tracked(s, t, m, s2)
  {
    if IsAppendMove(m) {
      AppendStepTracked(cfg, s, t, m, s2);
    } else if IsMapMove(m) {
      MapStepTracked(cfg, s, t, m, s2);
    } else if IsVictimMove(m) {
      VictimStepTracked(cfg, s, t, m, s2);
    } else if IsDataMove(m) {
      DataStepTracked(cfg, s, t, m, s2);
    } else if IsCountMove(m) {
      CountStepTracked(cfg, s, t, m, s2);
    } else {
      RangeStepTracked(cfg, s, t, m, s2);
    }
  }

  lemma SameViewEvolves(s: State, s2: State)
    requires SameView(s, s2)
    ensures DataEvolves(s, s2)
  {
  }

  lemma AppendStepView(cfg: Config, s: State, t: nat, m: Move, s2: State)
    requires AppendStep(cfg, s, t, m, s2)
    ensures SameView(s, s2)
  {
  }

  lemma MapStepView(cfg: Config, s: State, t: nat, m: Move, s2: State)
    requires MapStep(cfg, s, t, m, s2)
    ensures SameView(s, s2)
  {
  }

  lemma VictimStepView(cfg: Config, s: State, t: nat, m: Move, s2: State)
    requires VictimStep(cfg, s, t, m, s2)
    ensures SameView(s, s2)
  {
  }

  /** A step that changes no ring, flag or file. */
  lemma OtherStepView(cfg: Config, s: State, t: nat, m: Move, s2: State)
    requires Step(cfg, s, t, m, s2) && !IsDataMove(m)
    ensures SameView(s, s2)
  {
    if IsAppendMove(m) {
      AppendStepView(cfg, s, t, m, s2);
    } else if IsMapMove(m) {
      MapStepView(cfg, s, t, m, s2);
    } else if IsVictimMove(m) {
      VictimStepView(cfg, s, t, m, s2);
    } else if IsCountMove(m) {
      CountStepIsUnbound(cfg, s, t, m, s2);
    } else {
      RangeStepIsUnbound(cfg, s, t, m, s2);
    }
  }

  lemma GrewEvolves(cfg: Config, s: State, e: nat, c: Candle, s2: State)
    requires EntriesOk(cfg, s) && Grew(s, e, c, s2)
    ensures DataEvolves(s, s2)
  {
    assert Live(s, e);
  }

  lemma PushEvolves(cfg: Config, s: State, t: nat, s2: State)
    requires Core(cfg, s) && DoPush(s, t, s2)
    ensures DataEvolves(s, s2)
  {
    PushLanded(cfg, s, t, s2);
    GrewEvolves(cfg, s, s.threads[t].e, s.threads[t].a.c, s2);
  }

  lemma FlagEvolves(s: State, t: nat, s2: State)
    requires DoFlag(s, t, s2) || DoClearFlag(s, t, s2)
    ensures DataEvolves(s, s2)
  {
  }

  lemma SpillingEvolves(s: State, s2: State)
    requires Spilling(s, s2)
    ensures DataEvolves(s, s2)
  {
  }

  lemma SpillOkEvolves(s: State, t: nat, dir: Dir, s2: State)
    requires DoSpillOk(s, t, dir, s2)
    ensures DataEvolves(s, s2)
  {
    SpillOnlyAdds(DirOf(s.cold, s.threads[t].k), s.threads[t].snap, dir);
    SpillingEvolves(s, s2);
  }

  lemma SpillErrEvolves(s: State, t: nat, left: Option<Dir>, s2: State)
    requires DoSpillErr(s, t, left, s2)
    ensures DataEvolves(s, s2)
  {
    if left.Some? { LeftBehindOnlyAdds(DirOf(s.cold, s.threads[t].k), s.threads[t].snap, left.value); }
    SpillingEvolves(s, s2);
  }

  lemma RemoveEvolves(s: State, t: nat, s2: State)
    requires DoRemove(s, t, s2)
    ensures DataEvolves(s, s2)
  {
  }

  lemma InsertEvolves(s: State, t: nat, s2: State)
    requires DoInsert(s, t, s2) && s.threads[t].a.sym !in s.hot
    ensures DataEvolves(s, s2)
  {
  }

  lemma DataStepEvolves(cfg: Config, s: State, t: nat, m: Move, s2: State)
    requires Core(cfg, s) && DataStep(cfg, s, t, m, s2)
    ensures DataEvolves(s, s2)
  {
    match m {
      case Push => PushEvolves(cfg, s, t, s2);
      case Flag => FlagEvolves(s, t, s2);
      case ClearFlag => FlagEvolves(s, t, s2);
      case SpillOk(dir) => SpillOkEvolves(s, t, dir, s2);
      case SpillErr(left) => SpillErrEvolves(s, t, left, s2);
      case Remove => RemoveEvolves(s, t, s2);
      case Insert => InsertEvolves(s, t, s2);
    }
  }

  lemma DataMoveIsDataStep(cfg: Config, s: State, t: nat, m: Move, s2: State)
    requires Step(cfg, s, t, m, s2) && IsDataMove(m)
    ensures DataStep(cfg, s, t, m, s2)
  {
  }

  lemma StepEvolves(cfg: Config, s: State, t: nat, m: Move, s2: State)
    requires Core(cfg, s) && Step(cfg, s, t, m, s2)
    ensures DataEvolves(s, s2)
  {
    if IsDataMove(m) {
      DataMoveIsDataStep(cfg, s, t, m, s2);
      DataStepEvolves(cfg, s, t, m, s2);
    } else {
      OtherStepView(cfg, s, t, m, s2);
      SameViewEvolves(s, s2);
    }
  }

  // ----- every push has one owner: an acknowledgement or an append still on its way -----

  ghost predicate FateOk(s: State, e: nat, i: nat)
    requires e < |s.entries| && i < |s.entries[e].fate| == |s.entries[e].hist|
  {
    match s.entries[e].fate[i]
    case Acked(n) => n < |s.acked| && s.acked[n] == Ack(s.entries[e].sym, s.entries[e].hist[i], e, i)
    case InFlight(u) => u < |s.threads| && Target(s.threads[u]) == Some(e) && PushedAt(s.threads[u]) == Some(i)
  }

  ghost predicate EntryFatesOk(s: State, e: nat)
    requires e < |s.entries|
  {
    |s.entries[e].fate| == |s.entries[e].hist| && forall i: nat :: i < |s.entries[e].fate| ==> FateOk(s, e, i)
  }

  ghost predicate AckOk(s: State, n: nat)
    requires n < |s.acked|
  {
    var k := s.acked[n];
    k.e < |s.entries| && k.i < |s.entries[k.e].fate| && s.entries[k.e].fate[k.i] == Acked(n)
  }

  ghost predicate FlightOk(s: State, u: nat)
    requires u < |s.threads|
  {
    PushedAt(s.threads[u]).Some? ==>
      && Target(s.threads[u]).Some? && Target(s.threads[u]).value < |s.entries|
      && PushedAt(s.threads[u]).value < |s.entries[Target(s.threads[u]).value].fate|
      && s.entries[Target(s.threads[u]).value].fate[PushedAt(s.threads[u]).value] == InFlight(u)
  }

  ghost predicate FatesOk(s: State) {
    && (forall e: nat :: e < |s.entries| ==> EntryFatesOk(s, e))
    && (forall n: nat :: n < |s.acked| ==> AckOk(s, n))
    && (forall u: nat :: u < |s.threads| ==> FlightOk(s, u))
  }

  /** The step neither pushed nor acknowledged. */
  ghost predicate FatesKept(s: State, t: nat, s2: State) {
    && Moved(s, t, s2) && s2.acked == s.acked && |s2.entries| == |s.entries|
    && (forall e: nat :: e < |s.entries| ==>
          s2.entries[e].sym == s.entries[e].sym && s2.entries[e].hist == s.entries[e].hist &&
          s2.entries[e].fate == s.entries[e].fate)
    && PushedAt(s2.threads[t]) == PushedAt(s.threads[t])
    && (PushedAt(s.threads[t]).Some? ==> Target(s2.threads[t]) == Target(s.threads[t]))
  }

  lemma FatesKeptOk(s: State, t: nat, s2: State)
    requires FatesOk(s) && FatesKept(s, t, s2)
    ensures FatesOk(s2)
  {
    forall e: nat | e < |s2.entries|
      ensures EntryFatesOk(s2, e)
    {
      assert EntryFatesOk(s, e);
      forall i: nat | i < |s2.entries[e].fate|
        ensures FateOk(s2, e, i)
      {
        assert FateOk(s, e, i);
      }
    }
    forall n: nat | n < |s2.acked|
      ensures AckOk(s2, n)
    {
      assert AckOk(s, n);
    }
    forall u: nat | u < |s2.threads|
      ensures FlightOk(s2, u)
    {
      assert FlightOk(s, u);
    }
  }

  lemma AppendStepKeepsFates(cfg: Config, s: State, t: nat, m: Move, s2: State)
    requires AppendStep(cfg, s, t, m, s2) && !m.Bump?
    ensures FatesKept(s, t, s2)
  {
  }

  lemma MapStepKeepsFates(cfg: Config, s: State, t: nat, m: Move, s2: State)
    requires MapStep(cfg, s, t, m, s2)
    ensures FatesKept(s, t, s2)
  {
  }

  lemma VictimStepKeepsFates(cfg: Config, s: State, t: nat, m: Move, s2: State)
    requires VictimStep(cfg, s, t, m, s2)
    ensures FatesKept(s, t, s2)
  {
  }

  lemma DataStepKeepsFates(cfg: Config, s: State, t: nat, m: Move, s2: State)
    requires DataStep(cfg, s, t, m, s2) && !m.Push? && !m.Insert?
    ensures FatesKept(s, t, s2)
  {
  }

  lemma CountStepKeepsFates(cfg: Config, s: State, t: nat, m: Move, s2: State)
    requires CountStep(cfg, s, t, m, s2)
    ensures FatesKept(s, t, s2)
  {
  }

  lemma RangeStepKeepsFates(cfg: Config, s: State, t: nat, m: Move, s2: State)
    requires RangeStep(cfg, s, t, m, s2)
    ensures FatesKept(s, t, s2)
  {
  }

  /** A new position appeared: push `|hist|` of `e`, made by thread `t`. */
  ghost predicate FateAdded(s: State, t: nat, e: nat, s2: State) {
    && Moved(s, t, s2) && s2.acked == s.acked && e < |s2.entries| && |s.entries| <= |s2.entries| <= |s.entries| + 1
    && (e < |s.entries| ==> |s2.entries| == |s.entries|) && (e >= |s.entries| ==> e == |s.entries|)
    && (forall f: nat :: f < |s.entries| && f != e ==> s2.entries[f] == s.entries[f])
    && PushedAt(s.threads[t]).None?
    && var fate := if e < |s.entries| then s.entries[e].fate else [];
       var hist := if e < |s.entries| then s.entries[e].hist else [];
       && (e < |s.entries| ==> s2.entries[e].sym == s.entries[e].sym)
       && |s2.entries[e].hist| == |hist| + 1 && hist <= s2.entries[e].hist
       && s2.entries[e].fate == fate + [InFlight(t)]
       && PushedAt(s2.threads[t]) == Some(|hist|) && Target(s2.threads[t]) == Some(e)
  }

  lemma FateAddedOk(s: State, t: nat, e: nat, s2: State)
    requires FatesOk(s) && FateAdded(s, t, e, s2)
    ensures FatesOk(s2)
  {
    forall f: nat | f < |s2.entries|
      ensures EntryFatesOk(s2, f)
    {
      if f < |s.entries| { assert EntryFatesOk(s, f); }
      forall i: nat | i < |s2.entries[f].fate|
        ensures FateOk(s2, f, i)
      {
        if f < |s.entries| && i < |s.entries[f].fate| { assert FateOk(s, f, i); }
      }
    }
    forall n: nat | n < |s2.acked|
      ensures AckOk(s2, n)
    {
      assert AckOk(s, n);
    }
    forall u: nat | u < |s2.threads|
      ensures FlightOk(s2, u)
    {
      assert FlightOk(s, u);
      if e < |s.entries| { assert EntryFatesOk(s, e); }
    }
  }

  lemma BumpKeepsFates(s: State, t: nat, s2: State)
    requires FatesOk(s) && DoBump(s, t, s2) && TargetOk(s, s.threads[t])
    ensures FatesOk(s2)
  {
    var e, i := s.threads[t].e, s.threads[t].i;
    assert FlightOk(s, t) && EntryFatesOk(s, e);
    forall f: nat | f < |s2.entries|
      ensures EntryFatesOk(s2, f)
    {
      assert EntryFatesOk(s, f);
      forall j: nat | j < |s2.entries[f].fate|
        ensures FateOk(s2, f, j)
      {
        assert FateOk(s, f, j);
      }
    }
    forall n: nat | n < |s2.acked|
      ensures AckOk(s2, n)
    {
      if n < |s.acked| { assert AckOk(s, n); }
    }
    forall u: nat | u < |s2.threads|
      ensures FlightOk(s2, u)
    {
      assert FlightOk(s, u);
    }
  }

  lemma PushAddsFate(s: State, t: nat, s2: State)
    requires FatesOk(s) && DoPush(s, t, s2)
    ensures FateAdded(s, t, s.threads[t].e, s2)
  {
    assert EntryFatesOk(s, s.threads[t].e);
  }

  lemma InsertAddsFate(s: State, t: nat, s2: State)
    requires DoInsert(s, t, s2)
    ensures FateAdded(s, t, |s.entries|, s2)
  {
  }

  lemma StepKeepsFates(cfg: Config, s: State, t: nat, m: Move, s2: State)
    requires t < |s.threads| && TargetOk(s, s.threads[t]) && FatesOk(s) && Step(cfg, s, t, m, s2)
    ensures FatesOk(s2)
  {
    if m.Bump? {
      BumpKeepsFates(s, t, s2);
    } else if m.Push? {
      PushAddsFate(s, t, s2);
      FateAddedOk(s, t, s.threads[t].e, s2);
    } else if m.Insert? {
      InsertAddsFate(s, t, s2);
      FateAddedOk(s, t, |s.entries|, s2);
    } else {
      if IsAppendMove(m) {
        AppendStepKeepsFates(cfg, s, t, m, s2);
      } else if IsMapMove(m) {
        MapStepKeepsFates(cfg, s, t, m, s2);
      } else if IsVictimMove(m) {
        VictimStepKeepsFates(cfg, s, t, m, s2);
      } else if IsDataMove(m) {
        DataStepKeepsFates(cfg, s, t, m, s2);
      } else if IsCountMove(m) {
        CountStepKeepsFates(cfg, s, t, m, s2);
      } else {
        RangeStepKeepsFates(cfg, s, t, m, s2);
      }
      FatesKeptOk(s, t, s2);
    }
  }

  // ----- counters -----

  ghost predicate CounterOk(s: State, th: Thread) {
    match th
    case VersionRead(v, acks) => acks <= |s.acked| && v <= acks + s.signals
    case SnapshotDone(total, acks) => total <= acks <= |s.acked|
    case _ => true
  }

  /** Signals counted in `signals` but not yet in `version`. */
  function PendingSignals(threads: seq<Thread>): nat {
    if threads == [] then 0 else PendingSignals(threads[1..]) + Pending(threads[0])
  }

  lemma {:induction false} PendingAfterMove(threads: seq<Thread>, t: nat, th: Thread)
    requires t < |threads|
    ensures PendingSignals(threads[t := th]) == PendingSignals(threads) - Pending(threads[t]) + Pending(th)
  {
    if t > 0 {
      PendingAfterMove(threads[1..], t - 1, th);
      assert threads[t := th][1..] == threads[1..][t - 1 := th];
    }
  }

  ghost predicate CountersOk(s: State) {
    && s.version == |s.acked| + s.published
    && s.signals == s.published + PendingSignals(s.threads)
    && forall u: nat :: u < |s.threads| ==> CounterOk(s, s.threads[u])
  }

  lemma ReadKeepsCounter(cfg: Config, s: State, t: nat, m: Move, s2: State)
    requires CountStep(cfg, s, t, m, s2) && (m.ReadVersion? || m.ReadSignals?) && CounterOk(s, s.threads[t])
    requires s.version == |s.acked| + s.published && s.published <= s.signals
    ensures t < |s2.threads| && CounterOk(s2, s2.threads[t])
  {
  }

  lemma CountedKeepsCounters(s: State, t: nat, acks: nat, publishes: nat, signals: nat, s2: State)
    requires CountersOk(s) && Counted(s, t, acks, publishes, signals, s2) && CounterOk(s2, s2.threads[t])
    ensures CountersOk(s2)
  {
    assert s2.threads == s.threads[t := s2.threads[t]];
    PendingAfterMove(s.threads, t, s2.threads[t]);
    forall u: nat | u < |s2.threads| && u != t
      ensures CounterOk(s2, s2.threads[u])
    {
      assert CounterOk(s, s.threads[u]);
    }
  }

  lemma StepKeepsCounters(cfg: Config, s: State, t: nat, m: Move, s2: State)
    requires CountersOk(s) && Step(cfg, s, t, m, s2)
    ensures CountersOk(s2)
  {
    StepTracked(cfg, s, t, m, s2);
    if m.ReadVersion? || m.ReadSignals? { ReadKeepsCounter(cfg, s, t, m, s2); }
    CountedKeepsCounters(s, t, Acks(m), Publishes(m), Signals(m), s2);
  }

  // ----- retries and steps of one append -----

  function CallOf(th: Thread): Option<Call> {
    match th
    case NeedTick(a) => Some(a)
    case NeedLookup(a) => Some(a)
    case NeedMap(a) => Some(a)
    case HaveMap(a) => Some(a)
    case NeedInsert(a) => Some(a)
    case Rejecting(a) => Some(a)
    case _ => if Target(th).Some? || Victim(th).Some? then Some(th.a) else None
  }

  /** Steps an append still has to make if it meets no further eviction. */
  function Rank(th: Thread): nat {
    match th
    case NeedTick(_) => 13
    case NeedLookup(_) => 12
    case NeedMap(_) => 11
    case HaveMap(_) => 10
    case NeedVictim(_, _, _) => 9
    case HaveVictim(_, _, _) => 8
    case Flagged(_, _, _) => 7
    case Snapped(_, _, _, _) => 6
    case NeedSpill(_, _, _, _) => 5
    case NeedRemove(_, _, _) => 4
    case NeedInsert(_) => 3
    case Inserted(_, _) => 2
    case NeedTouch(_, _, _) => 6
    case NeedBuf(_, _, _) => 5
    case HaveBuf(_, _, _) => 4
    case MayPush(_, _) => 3
    case Pushed(_, _, _) => 2
    case MustBump(_, _, _) => 1
    case MustRetry(_, _, _) => 1
    case SpillFailed(_, _, _) => 2
    case Rejecting(_) => 1
    case _ => 0
  }

  /** Each retry is paid for by an eviction attempt made after the lookup it invalidated. */
  ghost predicate ProgressOk(s: State, th: Thread) {
    CallOf(th).Some? ==>
      var a := CallOf(th).value;
      && a.born + a.retries <= (if LookedUpAt(th).Some? then LookedUpAt(th).value else s.attempts)
      && a.steps + Rank(th) <= 13 * (a.retries + 1)
  }

  lemma AppendStepProgress(cfg: Config, s: State, t: nat, m: Move, s2: State)
    requires AppendStep(cfg, s, t, m, s2) && TargetOk(s, s.threads[t]) && ProgressOk(s, s.threads[t])
    ensures ProgressOk(s2, s2.threads[t])
  {
  }

  lemma MapStepProgress(cfg: Config, s: State, t: nat, m: Move, s2: State)
    requires MapStep(cfg, s, t, m, s2) && ProgressOk(s, s.threads[t])
    ensures ProgressOk(s2, s2.threads[t])
  {
  }

  lemma VictimStepProgress(cfg: Config, s: State, t: nat, m: Move, s2: State)
    requires VictimStep(cfg, s, t, m, s2) && ProgressOk(s, s.threads[t])
    ensures ProgressOk(s2, s2.threads[t])
  {
  }

  lemma DataStepProgress(cfg: Config, s: State, t: nat, m: Move, s2: State)
    requires DataStep(cfg, s, t, m, s2) && (m.Push? || m.Flag? || m.ClearFlag? || m.Insert?) &&
             ProgressOk(s, s.threads[t])
    ensures ProgressOk(s2, s2.threads[t])
  {
  }

  lemma SpillStepProgress(cfg: Config, s: State, t: nat, m: Move, s2: State)
    requires DataStep(cfg, s, t, m, s2) && (m.SpillOk? || m.SpillErr? || m.Remove?) && ProgressOk(s, s.threads[t])
    ensures ProgressOk(s2, s2.threads[t])
  {
  }

  lemma CountStepProgress(cfg: Config, s: State, t: nat, m: Move, s2: State)
    requires CountStep(cfg, s, t, m, s2) && ProgressOk(s, s.threads[t])
    ensures ProgressOk(s2, s2.threads[t])
  {
  }

  lemma RangeStepProgress(cfg: Config, s: State, t: nat, m: Move, s2: State)
    requires RangeStep(cfg, s, t, m, s2)
    ensures ProgressOk(s2, s2.threads[t])
  {
  }

  lemma StepKeepsProgress(cfg: Config, s: State, t: nat, m: Move, s2: State)
    requires t < |s.threads| && TargetOk(s, s.threads[t]) && Step(cfg, s, t, m, s2)
    requires forall u: nat :: u < |s.threads| ==> ProgressOk(s, s.threads[u])
    ensures forall u: nat :: u < |s2.threads| ==> ProgressOk(s2, s2.threads[u])
  {
    StepTracked(cfg, s, t, m, s2);
    if IsAppendMove(m) {
      AppendStepProgress(cfg, s, t, m, s2);
    } else if IsMapMove(m) {
      MapStepProgress(cfg, s, t, m, s2);
    } else if IsVictimMove(m) {
      VictimStepProgress(cfg, s, t, m, s2);
    } else if m.SpillOk? || m.SpillErr? || m.Remove? {
      SpillStepProgress(cfg, s, t, m, s2);
    } else if IsDataMove(m) {
      DataStepProgress(cfg, s, t, m, s2);
    } else if IsCountMove(m) {
      CountStepProgress(cfg, s, t, m, s2);
    } else {
      RangeStepProgress(cfg, s, t, m, s2);
    }
    forall u: nat | u < |s2.threads|
      ensures ProgressOk(s2, s2.threads[u])
    {
      assert u != t ==> ProgressOk(s, s.threads[u]);
    }
  }
}
