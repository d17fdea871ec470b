/** The promises of the candle store, over every run of the protocol. */
module StoreTheorems {
  import opened Candles
  import opened RingBuffers
  import opened ColdNames
  import opened ColdStore
  import opened HotColdMerge
  import opened StoreProtocol
  import opened StoreInvariant
  import opened StoreHistory
  import opened StoreRange

  ghost predicate Inv(cfg: Config, s: State) {
    && Core(cfg, s) && FatesOk(s) && CountersOk(s)
    && (forall u: nat :: u < |s.threads| ==> ProgressOk(s, s.threads[u]))
    && (forall u: nat :: u < |s.threads| ==> RangeOk(cfg, s, s.threads[u]))
  }

  lemma {:induction false} IdleHasNoPending(threads: seq<Thread>)
    requires forall t :: 0 <= t < |threads| ==> threads[t] == Idle
    ensures PendingSignals(threads) == 0
  {
    if threads != [] { IdleHasNoPending(threads[1..]); }
  }

  lemma InitInv(cfg: Config, s: State)
    requires cfg.cap > 0 && Init(cfg, s)
    ensures Inv(cfg, s)
  {
    InitCore(cfg, s);
    IdleHasNoPending(s.threads);
  }

  lemma StepKeepsInv(cfg: Config, s: State, t: nat, m: Move, s2: State)
    requires cfg.cap > 0 && Inv(cfg, s) && Step(cfg, s, t, m, s2)
    ensures Inv(cfg, s2)
  {
    StepTracked(cfg, s, t, m, s2);
    assert TargetOk(s, s.threads[t]);
    StepKeepsCore(cfg, s, t, m, s2);
    StepKeepsFates(cfg, s, t, m, s2);
    StepKeepsCounters(cfg, s, t, m, s2);
    StepKeepsProgress(cfg, s, t, m, s2);
    StepKeepsRange(cfg, s, t, m, s2);
  }

  lemma {:induction false} RunKeepsInv(cfg: Config, run: seq<State>, who: seq<nat>, moves: seq<Move>, i: nat)
    requires cfg.cap > 0 && IsRun(cfg, run, who, moves) && i < |run|
    ensures Inv(cfg, run[i])
  {
    if i == 0 {
      InitInv(cfg, run[0]);
    } else {
      RunKeepsInv(cfg, run, who, moves, i - 1);
      assert StepAt(cfg, run, who, moves, i - 1);
      StepKeepsInv(cfg, run[i - 1], who[i - 1], moves[i - 1], run[i]);
    }
  }

  // one part of the invariant at a time

  lemma RunKeepsCore(cfg: Config, run: seq<State>, who: seq<nat>, moves: seq<Move>, i: nat)
    requires cfg.cap > 0 && IsRun(cfg, run, who, moves) && i < |run|
    ensures Core(cfg, run[i])
  {
    RunKeepsInv(cfg, run, who, moves, i);
  }

  lemma RunKeepsFates(cfg: Config, run: seq<State>, who: seq<nat>, moves: seq<Move>, i: nat)
    requires cfg.cap > 0 && IsRun(cfg, run, who, moves) && i < |run|
    ensures FatesOk(run[i])
  {
    RunKeepsInv(cfg, run, who, moves, i);
  }

  lemma RunKeepsEntries(cfg: Config, run: seq<State>, who: seq<nat>, moves: seq<Move>, i: nat)
    requires cfg.cap > 0 && IsRun(cfg, run, who, moves) && i < |run|
    ensures EntriesOk(cfg, run[i]) && SizeOk(cfg, run[i])
  {
    RunKeepsInv(cfg, run, who, moves, i);
  }

  lemma RunKeepsCounters(cfg: Config, run: seq<State>, who: seq<nat>, moves: seq<Move>, i: nat)
    requires cfg.cap > 0 && IsRun(cfg, run, who, moves) && i < |run|
    ensures CountersOk(run[i])
  {
    RunKeepsInv(cfg, run, who, moves, i);
  }

  lemma RunKeepsThread(cfg: Config, run: seq<State>, who: seq<nat>, moves: seq<Move>, i: nat, u: nat)
    requires cfg.cap > 0 && IsRun(cfg, run, who, moves) && i < |run| && u < |run[i].threads|
    ensures ThreadOk(cfg, run[i], run[i].threads[u])
    ensures ProgressOk(run[i], run[i].threads[u]) && RangeOk(cfg, run[i], run[i].threads[u])
  {
    RunKeepsInv(cfg, run, who, moves, i);
  }

  lemma RunStepEvolves(cfg: Config, run: seq<State>, who: seq<nat>, moves: seq<Move>, i: nat)
    requires cfg.cap > 0 && IsRun(cfg, run, who, moves) && i < |moves|
    ensures DataEvolves(run[i], run[i + 1])
  {
    RunKeepsCore(cfg, run, who, moves, i);
    assert StepAt(cfg, run, who, moves, i);
    StepEvolves(cfg, run[i], who[i], moves[i], run[i + 1]);
  }

  lemma {:induction false} RunEvolves(cfg: Config, run: seq<State>, who: seq<nat>, moves: seq<Move>, i: nat, j: nat)
    requires cfg.cap > 0 && IsRun(cfg, run, who, moves) && i <= j < |run|
    ensures DataEvolves(run[i], run[j])
    decreases j
  {
    if i == j {
      EvolvesReflexively(run[i]);
    } else {
      RunEvolves(cfg, run, who, moves, i, j - 1);
      RunStepEvolves(cfg, run, who, moves, j - 1);
      EvolvesTransitively(run[i], run[j - 1], run[j]);
    }
  }

  lemma EvolvesReflexively(s: State)
    ensures DataEvolves(s, s)
  {
  }

  lemma EvolvesTransitively(a: State, b: State, c: State)
    requires DataEvolves(a, b) && DataEvolves(b, c)
    ensures DataEvolves(a, c)
  {
    forall e: nat | e < |a.entries|
      ensures c.entries[e].sym == a.entries[e].sym && a.entries[e].hist <= c.entries[e].hist
    {
      assert a.entries[e].hist <= b.entries[e].hist <= c.entries[e].hist;
    }
  }

  // ----- no accepted candle is lost -----

  /** At least `cap` later pushes went into the same ring. */
  predicate Overwritten(cfg: Config, s: State, k: Ack)
    requires k.e < |s.entries|
  {
    |s.entries[k.e].hist| - 1 - k.i >= cfg.cap
  }

  /** Where an acknowledged candle can be found. */
  ghost predicate Kept(cfg: Config, s: State, k: Ack) {
    && k.e < |s.entries| && s.entries[k.e].sym == k.sym
    && k.i < |s.entries[k.e].hist| && s.entries[k.e].hist[k.i] == k.c
    && (Overwritten(cfg, s, k) ||
        (k.c in Window(cfg, s.entries[k.e]) && (Live(s, k.e) || StoredIn(DirOf(s.cold, k.sym), k.c))))
  }

  lemma InWindowUnlessOverwritten(cfg: Config, hist: seq<Candle>, i: nat)
    requires i < |hist| && |hist| - 1 - i < cfg.cap
    ensures hist[i] in LastN(hist, cfg.cap)
  {
    var w := LastN(hist, cfg.cap);
    assert w[i - (|hist| - |w|)] == hist[i];
  }

  lemma FileHolds(dir: Dir, candles: seq<Candle>, c: Candle)
    requires HasFile(dir, candles) && c in candles
    ensures StoredIn(dir, c)
  {
    var name := FileIn(dir, candles);
    assert HoldsCandle(dir, name, c);
  }

  /**
   In every interleaving of appends and evictions with a data directory, each acknowledged candle
   is in its symbol's live ring, in one of its cold files, or was overwritten by at least
   `ring_capacity` later pushes into the same ring.
   */
  lemma NoAcceptedCandleIsLost(cfg: Config, run: seq<State>, who: seq<nat>, moves: seq<Move>, i: nat, n: nat)
    requires cfg.cap > 0 && cfg.dataDir && IsRun(cfg, run, who, moves) && i < |run| && n < |run[i].acked|
    ensures Kept(cfg, run[i], run[i].acked[n])
  {
    RunKeepsFates(cfg, run, who, moves, i);
    RunKeepsEntries(cfg, run, who, moves, i);
    AckedIsKept(cfg, run[i], n);
  }

  lemma AckedIsKept(cfg: Config, s: State, n: nat)
    requires cfg.cap > 0 && cfg.dataDir && FatesOk(s) && EntriesOk(cfg, s) && n < |s.acked|
    ensures Kept(cfg, s, s.acked[n])
  {
    var k := s.acked[n];
    AckedPush(s, n);
    if !Overwritten(cfg, s, k) {
      InWindowUnlessOverwritten(cfg, s.entries[k.e].hist, k.i);
      if !Live(s, k.e) {
        assert Archived(cfg, s, k.e);
        FileHolds(DirOf(s.cold, k.sym), Window(cfg, s.entries[k.e]), k.c);
      }
    }
  }

  /** Once an entry has left the map, its ring never changes again and it never comes back. */
  lemma NoPushAfterEviction(cfg: Config, run: seq<State>, who: seq<nat>, moves: seq<Move>, i: nat, j: nat, e: nat)
    requires cfg.cap > 0 && IsRun(cfg, run, who, moves) && i <= j < |run|
    requires e < |run[i].entries| && !Live(run[i], e)
    ensures e < |run[j].entries| && !Live(run[j], e) && run[j].entries[e].hist == run[i].entries[e].hist
  {
    RunEvolves(cfg, run, who, moves, i, j);
  }

  // ----- no push lands behind the flag -----

  lemma PushIsLive(cfg: Config, s: State, t: nat, s2: State)
    requires DoPush(s, t, s2) && ThreadOk(cfg, s, s.threads[t]) && EntriesOk(cfg, s)
    ensures var e := s.threads[t].e;
            && e < |s.entries| == |s2.entries| && Live(s, e) && !s.entries[e].removed
            && s2.entries[e].hist == s.entries[e].hist + [s.threads[t].a.c]
  {
  }

  /** Every push lands in an entry that is mapped and not flagged. */
  lemma PushesLandLive(cfg: Config, run: seq<State>, who: seq<nat>, moves: seq<Move>, i: nat)
    requires cfg.cap > 0 && IsRun(cfg, run, who, moves) && i < |moves| && moves[i].Push?
    ensures who[i] < |run[i].threads| && run[i].threads[who[i]].MayPush?
    ensures var th := run[i].threads[who[i]];
            && th.e < |run[i].entries| == |run[i + 1].entries| && Live(run[i], th.e) && !run[i].entries[th.e].removed
            && run[i + 1].entries[th.e].hist == run[i].entries[th.e].hist + [th.a.c]
  {
    assert StepAt(cfg, run, who, moves, i);
    assert DoPush(run[i], who[i], run[i + 1]);
    RunKeepsThread(cfg, run, who, moves, i, who[i]);
    RunKeepsEntries(cfg, run, who, moves, i);
    PushIsLive(cfg, run[i], who[i], run[i + 1]);
  }

  /** The move clears the flag of entry `e`, whose spill has failed. */
  ghost predicate ClearsFlagOf(s: State, t: nat, m: Move, e: nat) {
    m.ClearFlag? && t < |s.threads| && s.threads[t].SpillFailed? && s.threads[t].v == e
  }

  /** Entry `e` is flagged, and its ring has the history `hist`. */
  ghost predicate FlaggedWith(s: State, e: nat, hist: seq<Candle>) {
    e < |s.entries| && s.entries[e].removed && s.entries[e].hist == hist
  }

  lemma PushSparesFlagged(cfg: Config, s: State, t: nat, s2: State, e: nat)
    requires DoPush(s, t, s2) && TargetOk(s, s.threads[t]) && e < |s.entries| && s.entries[e].removed
    ensures FlaggedWith(s2, e, s.entries[e].hist)
  {
  }

  lemma DataSparesFlagged(cfg: Config, s: State, t: nat, m: Move, s2: State, e: nat)
    requires DataStep(cfg, s, t, m, s2) && !ClearsFlagOf(s, t, m, e) && e < |s.entries| && s.entries[e].removed
    requires t < |s.threads| && TargetOk(s, s.threads[t])
    ensures FlaggedWith(s2, e, s.entries[e].hist)
  {
    if m.Push? { PushSparesFlagged(cfg, s, t, s2, e); }
  }

  lemma OtherSparesFlagged(s: State, s2: State, e: nat)
    requires SameView(s, s2) && e < |s.entries| && s.entries[e].removed
    ensures FlaggedWith(s2, e, s.entries[e].hist)
  {
  }

  /** While its flag is not cleared, a flagged ring neither loses its flag nor gains a candle. */
  lemma StepSparesFlagged(cfg: Config, s: State, t: nat, m: Move, s2: State, e: nat)
    requires Step(cfg, s, t, m, s2) && t < |s.threads| && TargetOk(s, s.threads[t])
    requires !ClearsFlagOf(s, t, m, e) && e < |s.entries| && s.entries[e].removed
    ensures FlaggedWith(s2, e, s.entries[e].hist)
  {
    if IsDataMove(m) {
      DataMoveIsDataStep(cfg, s, t, m, s2);
      DataSparesFlagged(cfg, s, t, m, s2, e);
    } else {
      OtherStepView(cfg, s, t, m, s2);
      OtherSparesFlagged(s, s2, e);
    }
  }

  ghost predicate ClearsAt(run: seq<State>, who: seq<nat>, moves: seq<Move>, k: nat, e: nat)
    requires |run| == |moves| + 1 && |who| == |moves| && k < |moves|
  {
    ClearsFlagOf(run[k], who[k], moves[k], e)
  }

  /** No move from state `i` up to state `j` clears the flag of `e`. */
  ghost predicate FlagNotCleared(run: seq<State>, who: seq<nat>, moves: seq<Move>, e: nat, i: nat, j: nat)
    requires |run| == |moves| + 1 && |who| == |moves| && j <= |moves|
  {
    forall k: nat :: i <= k < j ==> !ClearsAt(run, who, moves, k, e)
  }

  lemma RunStepSparesFlagged(cfg: Config, run: seq<State>, who: seq<nat>, moves: seq<Move>, k: nat, e: nat,
      hist: seq<Candle>)
    requires cfg.cap > 0 && IsRun(cfg, run, who, moves) && k < |moves|
    requires FlaggedWith(run[k], e, hist) && !ClearsAt(run, who, moves, k, e)
    ensures FlaggedWith(run[k + 1], e, hist)
  {
    assert StepAt(cfg, run, who, moves, k);
    StepTracked(cfg, run[k], who[k], moves[k], run[k + 1]);
    RunKeepsThread(cfg, run, who, moves, k, who[k]);
    StepSparesFlagged(cfg, run[k], who[k], moves[k], run[k + 1], e);
  }

  /** No push lands in a flagged ring, until its spill has failed and the flag is cleared. */
  lemma {:induction false} NoPushWhileFlagged(cfg: Config, run: seq<State>, who: seq<nat>, moves: seq<Move>,
                                              i: nat, j: nat, e: nat)
    requires cfg.cap > 0 && IsRun(cfg, run, who, moves) && i <= j < |run|
    requires e < |run[i].entries| && run[i].entries[e].removed && FlagNotCleared(run, who, moves, e, i, j)
    ensures FlaggedWith(run[j], e, run[i].entries[e].hist)
    decreases j
  {
    if i < j {
      assert !ClearsAt(run, who, moves, j - 1, e);
      NoPushWhileFlagged(cfg, run, who, moves, i, j - 1, e);
      RunStepSparesFlagged(cfg, run, who, moves, j - 1, e, run[i].entries[e].hist);
    }
  }

  lemma EvictedIsFlagged(cfg: Config, s: State, th: Thread)
    requires ThreadOk(cfg, s, th) && Evicting(th).Some?
    ensures Evicting(th) == Some(th.v) && th.v < |s.entries| && s.entries[th.v].removed
    ensures th.Snapped? || th.NeedSpill? ==> th.snap == LastN(s.entries[th.v].hist, cfg.cap)
  {
  }

  /**
   From the moment its flag is set, through snapshot, spill and removal and for ever after, nothing
   is pushed into a ring being evicted, unless its spill fails and the flag is cleared: the snapshot
   stays the whole ring.
   */
  lemma NoPushAfterSnapshot(cfg: Config, run: seq<State>, who: seq<nat>, moves: seq<Move>, i: nat, j: nat, t: nat)
    requires cfg.cap > 0 && IsRun(cfg, run, who, moves) && i <= j < |run| && t < |run[i].threads|
    requires Evicting(run[i].threads[t]).Some?
    requires FlagNotCleared(run, who, moves, Evicting(run[i].threads[t]).value, i, j)
    ensures var th := run[i].threads[t];
            && Evicting(th) == Some(th.v) && th.v < |run[i].entries|
            && FlaggedWith(run[j], th.v, run[i].entries[th.v].hist)
            && (th.Snapped? || th.NeedSpill? ==> th.snap == LastN(run[j].entries[th.v].hist, cfg.cap))
  {
    RunKeepsThread(cfg, run, who, moves, i, t);
    EvictedIsFlagged(cfg, run[i], run[i].threads[t]);
    NoPushWhileFlagged(cfg, run, who, moves, i, j, run[i].threads[t].v);
  }

  // ----- flags, map size -----

  /**
   Whenever nobody holds the outer write lock, the flag tells exactly whether an entry is mapped;
   the map never exceeds its bound, and every entry ever made is mapped or counted as evicted.
   */
  lemma FlagsTellMapped(cfg: Config, run: seq<State>, who: seq<nat>, moves: seq<Move>, i: nat)
    requires cfg.cap > 0 && IsRun(cfg, run, who, moves) && i < |run|
    ensures run[i].mapOwner.None? ==>
              forall e: nat :: e < |run[i].entries| ==> (Live(run[i], e) <==> !run[i].entries[e].removed)
    ensures |run[i].hot| <= (if cfg.maxSymbols == 0 then 1 else cfg.maxSymbols)
    ensures |run[i].hot| <= cfg.maxSymbols <==> cfg.maxSymbols > 0 || run[i].hot == map[]
    ensures |run[i].entries| == |run[i].hot| + run[i].evictions
  {
    RunKeepsEntries(cfg, run, who, moves, i);
  }

  // ----- termination of appends -----

  lemma ProgressMeansBound(s: State, th: Thread)
    requires CallOf(th).Some? && TargetOk(s, th) && ProgressOk(s, th)
    ensures var a := CallOf(th).value;
            && a.born <= s.attempts && a.retries <= s.attempts - a.born
            && a.steps < 13 * (s.attempts - a.born + 1)
  {
    assert Rank(th) >= 1;
  }

  /**
   An append retries at most once per eviction attempt made since it was called, and makes at
   most 13 steps per try: with finitely many eviction attempts it finishes.
   */
  lemma AppendStepsAreBounded(cfg: Config, run: seq<State>, who: seq<nat>, moves: seq<Move>, i: nat, u: nat)
    requires cfg.cap > 0 && IsRun(cfg, run, who, moves) && i < |run| && u < |run[i].threads|
    requires CallOf(run[i].threads[u]).Some?
    ensures var a := CallOf(run[i].threads[u]).value;
            && a.born <= run[i].attempts
            && a.retries <= run[i].attempts - a.born
            && a.steps < 13 * (run[i].attempts - a.born + 1)
  {
    RunKeepsThread(cfg, run, who, moves, i, u);
    ProgressMeansBound(run[i], run[i].threads[u]);
  }

  // ----- version and snapshot -----

  /** `version` counts acknowledged appends and published signals, and nothing else. */
  lemma VersionCountsPublications(cfg: Config, run: seq<State>, who: seq<nat>, moves: seq<Move>, i: nat)
    requires cfg.cap > 0 && IsRun(cfg, run, who, moves) && i < |run|
    ensures run[i].version == |run[i].acked| + run[i].published
    ensures run[i].published <= run[i].signals
  {
    RunKeepsCounters(cfg, run, who, moves, i);
  }

  /** A snapshot racing anything never reports more appends than were acknowledged by its first load. */
  lemma SnapshotNeverOvercounts(cfg: Config, run: seq<State>, who: seq<nat>, moves: seq<Move>, i: nat, u: nat)
    requires cfg.cap > 0 && IsRun(cfg, run, who, moves) && i < |run| && u < |run[i].threads|
    requires run[i].threads[u].SnapshotDone?
    ensures run[i].threads[u].total <= run[i].threads[u].acks <= |run[i].acked|
  {
    RunKeepsCounters(cfg, run, who, moves, i);
    assert CounterOk(run[i], run[i].threads[u]);
  }

  /**
   Every push belongs to exactly one append: an acknowledged one, or one that has pushed and not
   yet returned. Two acknowledgements never share a push, so each `Ok` pushed once, and an append
   that returned an error pushed nothing.
   */
  lemma EveryPushHasOneOwner(cfg: Config, run: seq<State>, who: seq<nat>, moves: seq<Move>, i: nat)
    requires cfg.cap > 0 && IsRun(cfg, run, who, moves) && i < |run|
    ensures forall n: nat, m: nat :: n < m < |run[i].acked| ==>
              run[i].acked[n].e != run[i].acked[m].e || run[i].acked[n].i != run[i].acked[m].i
    ensures forall e: nat, p: nat :: e < |run[i].entries| && p < |run[i].entries[e].hist| ==>
              PushIsOwned(run[i], e, p)
  {
    RunKeepsFates(cfg, run, who, moves, i);
    forall n: nat, m: nat | n < m < |run[i].acked|
      ensures run[i].acked[n].e != run[i].acked[m].e || run[i].acked[n].i != run[i].acked[m].i
    {
      AcksDiffer(run[i], n, m);
    }
    forall e: nat, p: nat | e < |run[i].entries| && p < |run[i].entries[e].hist|
      ensures PushIsOwned(run[i], e, p)
    {
      PushHasOwner(run[i], e, p);
    }
  }

  lemma AcksDiffer(s: State, n: nat, m: nat)
    requires FatesOk(s) && n < m < |s.acked|
    ensures s.acked[n].e != s.acked[m].e || s.acked[n].i != s.acked[m].i
  {
    assert AckOk(s, n) && AckOk(s, m);
  }

  lemma PushHasOwner(s: State, e: nat, p: nat)
    requires FatesOk(s) && e < |s.entries| && p < |s.entries[e].hist|
    ensures PushIsOwned(s, e, p)
  {
    assert EntryFatesOk(s, e) && FateOk(s, e, p);
  }

  ghost predicate PushIsOwned(s: State, e: nat, p: nat)
    requires e < |s.entries| && p < |s.entries[e].hist|
  {
    || (exists n: nat :: n < |s.acked| && s.acked[n] == Ack(s.entries[e].sym, s.entries[e].hist[p], e, p))
    || (exists u: nat :: u < |s.threads| && Target(s.threads[u]) == Some(e) && PushedAt(s.threads[u]) == Some(p))
  }

  // ----- range -----

  /** What a query that saw the first `seen` pushes found in the ring. */
  function RingSeen(hist: seq<Candle>, seen: nat, cap: nat): seq<Candle>
    requires seen <= |hist|
  {
    LastN(hist[..seen], cap)
  }

  lemma HotHasDue(cfg: Config, hist: seq<Candle>, seen: nat, i: nat, from: int, to: int)
    requires i < seen <= |hist| && |hist| - 1 - i < cfg.cap && SortedByTs(RingSeen(hist, seen, cfg.cap))
    requires InWindow(hist[i], from, to)
    ensures HasTs(RangeBlock(RingSeen(hist, seen, cfg.cap), from, to), hist[i].ts)
  {
    var w := RingSeen(hist, seen, cfg.cap);
    InWindowUnlessOverwritten(cfg, hist[..seen], i);
    RangeBlockIsFilter(w, from, to);
    FilterMember(w, from, to, hist[i]);
    var r := RangeBlock(w, from, to);
    var j :| 0 <= j < |r| && r[j] == hist[i];
  }

  /** The ring a finished query read held timestamps in order when it was read. */
  ghost predicate ReadInOrder(cfg: Config, s: State, h: HotRead) {
    h.e.Some? && h.e.value < |s.entries| && h.seen <= |s.entries[h.e.value].hist| ==>
      SortedByTs(RingSeen(s.entries[h.e.value].hist, h.seen, cfg.cap))
  }

  /** Candle `n` was acknowledged before the query began and lies in its window. */
  ghost predicate Wanted(s: State, q: Query, n: nat) {
    Due(s, q, n) && InWindow(s.acked[n].c, q.from, q.to)
  }

  ghost predicate Answered(cfg: Config, s: State, out: seq<Candle>, n: nat)
    requires n < |s.acked|
  {
    s.acked[n].e < |s.entries| && (Overwritten(cfg, s, s.acked[n]) || HasTs(out, s.acked[n].c.ts))
  }

  /**
   A range query interleaved with any appends and evictions: given that the ring it read was in
   timestamp order at the read, its answer is ordered, holds every timestamp of the window whose
   append was acknowledged before the call and whose candle has not been overwritten by the time
   it returns, and is candle for candle the hot read and the cold ones where that has no such timestamp.
   */
  lemma RangeIsComplete(cfg: Config, run: seq<State>, who: seq<nat>, moves: seq<Move>, i: nat, u: nat)
    requires cfg.cap > 0 && cfg.dataDir && IsRun(cfg, run, who, moves) && i < |run| && u < |run[i].threads|
    requires run[i].threads[u].RangeDone? && ReadInOrder(cfg, run[i], run[i].threads[u].h)
    ensures var th := run[i].threads[u];
            && SortedByTs(th.out) && IsAnswer(th.out, th.cold, th.h.hot)
            && (forall n: nat :: Wanted(run[i], th.q, n) ==> Answered(cfg, run[i], th.out, n))
            && (forall c :: c in th.out <==> c in th.h.hot || (c in th.cold && !HasTs(th.h.hot, c.ts)))
  {
    RunKeepsThread(cfg, run, who, moves, i, u);
    RunKeepsFates(cfg, run, who, moves, i);
    AnswerIsFaithful(cfg, run[i], u);
    forall n: nat | Wanted(run[i], run[i].threads[u].q, n)
      ensures Answered(cfg, run[i], run[i].threads[u].out, n)
    {
      DueIsAnswered(cfg, run[i], u, n);
    }
  }

  lemma AnswerIsFaithful(cfg: Config, s: State, u: nat)
    requires cfg.dataDir && u < |s.threads| && s.threads[u].RangeDone? && RangeOk(cfg, s, s.threads[u])
    requires ReadInOrder(cfg, s, s.threads[u].h)
    ensures var th := s.threads[u];
            && SortedByTs(th.out) && IsAnswer(th.out, th.cold, th.h.hot)
            && (forall c :: c in th.out <==> c in th.h.hot || (c in th.cold && !HasTs(th.h.hot, c.ts)))
            && (forall ts :: HasTs(th.out, ts) <==> HasTs(th.cold, ts) || HasTs(th.h.hot, ts))
  {
    var th := s.threads[u];
    if th.h.e.Some? { BlockIsSorted(RingSeen(s.entries[th.h.e.value].hist, th.h.seen, cfg.cap), th.q.from, th.q.to); }
    CombineIsFaithful(th.cold, th.h.hot);
  }

  lemma DueIsAnswered(cfg: Config, s: State, u: nat, n: nat)
    requires FatesOk(s) && cfg.dataDir && u < |s.threads| && s.threads[u].RangeDone? && RangeOk(cfg, s, s.threads[u])
    requires Wanted(s, s.threads[u].q, n) && ReadInOrder(cfg, s, s.threads[u].h)
    ensures Answered(cfg, s, s.threads[u].out, n)
  {
    var th, k := s.threads[u], s.acked[n];
    AckedPush(s, n);
    if !Overwritten(cfg, s, k) {
      AnswerIsFaithful(cfg, s, u);
      if th.h.e == Some(k.e) {
        HotHasDue(cfg, s.entries[k.e].hist, th.h.seen, k.i, th.q.from, th.q.to);
      } else {
        InWindowUnlessOverwritten(cfg, s.entries[k.e].hist, k.i);
        FileHolds(th.files, Window(cfg, s.entries[k.e]), k.c);
        assert HasTs(th.cold, k.c.ts);
      }
    }
  }

  /** Whatever the order of the ring: one part alone is the answer, and no candle of the hot read is lost. */
  lemma RangeKeepsHot(cfg: Config, run: seq<State>, who: seq<nat>, moves: seq<Move>, i: nat, u: nat)
    requires cfg.cap > 0 && IsRun(cfg, run, who, moves) && i < |run| && u < |run[i].threads|
    requires run[i].threads[u].RangeDone?
    ensures var th := run[i].threads[u];
            && (!cfg.dataDir || th.cold == [] ==> th.out == th.h.hot)
            && (cfg.dataDir && th.h.hot == [] ==> th.out == th.cold)
            && multiset(th.h.hot) <= multiset(th.out)
  {
    RunKeepsThread(cfg, run, who, moves, i, u);
    MergeKeepsHot(run[i].threads[u].cold, run[i].threads[u].h.hot);
  }

  /**
   Without a data directory a query answers from the ring alone: with every timestamp of the window that was
   acknowledged before the call, whose candle has not been overwritten and whose ring is still mapped.
   */
  lemma RangeWithoutFiles(cfg: Config, run: seq<State>, who: seq<nat>, moves: seq<Move>, i: nat, u: nat)
    requires cfg.cap > 0 && !cfg.dataDir && IsRun(cfg, run, who, moves) && i < |run| && u < |run[i].threads|
    requires run[i].threads[u].RangeDone? && ReadInOrder(cfg, run[i], run[i].threads[u].h)
    ensures var th := run[i].threads[u];
            && th.out == th.h.hot && SortedByTs(th.out)
            && (forall n: nat :: Wanted(run[i], th.q, n) && Live(run[i], run[i].acked[n].e) ==>
                                   Answered(cfg, run[i], th.out, n))
  {
    RunKeepsThread(cfg, run, who, moves, i, u);
    RunKeepsFates(cfg, run, who, moves, i);
    RangeKeepsHot(cfg, run, who, moves, i, u);
    HotIsSorted(cfg, run[i], u);
    forall n: nat | Wanted(run[i], run[i].threads[u].q, n) && Live(run[i], run[i].acked[n].e)
      ensures Answered(cfg, run[i], run[i].threads[u].out, n)
    {
      LiveIsAnswered(cfg, run[i], u, n);
    }
  }

  lemma HotIsSorted(cfg: Config, s: State, u: nat)
    requires u < |s.threads| && s.threads[u].RangeDone? && RangeOk(cfg, s, s.threads[u])
    requires ReadInOrder(cfg, s, s.threads[u].h)
    ensures SortedByTs(s.threads[u].h.hot)
  {
    var th := s.threads[u];
    if th.h.e.Some? { BlockIsSorted(RingSeen(s.entries[th.h.e.value].hist, th.h.seen, cfg.cap), th.q.from, th.q.to); }
  }

  lemma LiveIsAnswered(cfg: Config, s: State, u: nat, n: nat)
    requires FatesOk(s) && u < |s.threads| && s.threads[u].RangeDone? && RangeOk(cfg, s, s.threads[u])
    requires Wanted(s, s.threads[u].q, n) && Live(s, s.acked[n].e) && ReadInOrder(cfg, s, s.threads[u].h)
    ensures Answered(cfg, s, s.threads[u].h.hot, n)
  {
    var th, k := s.threads[u], s.acked[n];
    AckedPush(s, n);
    if !Overwritten(cfg, s, k) {
      HotHasDue(cfg, s.entries[k.e].hist, th.h.seen, k.i, th.q.from, th.q.to);
    }
  }
}
