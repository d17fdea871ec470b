/** What a range query knows at each of its steps, however evictions interleave with it. */
module StoreRange {
  import opened Candles
  import opened RingBuffers
  import opened ColdNames
  import opened ColdStore
  import opened HotColdMerge
  import opened StoreProtocol
  import opened StoreInvariant
  import opened StoreHistory

  /** Entry `e` was mapped once and is no longer. */
  ghost predicate Evicted(s: State, e: nat) { e < |s.entries| && !Live(s, e) }

  /** An append of this symbol was acknowledged before the query began. */
  ghost predicate Due(s: State, q: Query, n: nat) {
    n < q.since && n < |s.acked| && s.acked[n].sym == q.sym
  }

  /** Every due candle is in the entry found, or in an entry evicted by now. */
  ghost predicate FoundOk(s: State, q: Query, found: Option<nat>) {
    && q.since <= |s.acked|
    && (found.Some? ==> found.value < |s.entries| && s.entries[found.value].sym == q.sym)
    && forall n: nat :: Due(s, q, n) ==> Some(s.acked[n].e) == found || Evicted(s, s.acked[n].e)
  }

  /** The hot part is the range query over the ring as it was at the read, due candles included. */
  ghost predicate HotOk(cfg: Config, s: State, q: Query, h: HotRead) {
    && (h.e.None? ==> h.hot == [])
    && (h.e.Some? ==>
          && h.e.value < |s.entries| && h.seen <= |s.entries[h.e.value].hist|
          && h.hot == RangeBlock(LastN(s.entries[h.e.value].hist[..h.seen], cfg.cap), q.from, q.to)
          && forall n: nat :: Due(s, q, n) && s.acked[n].e == h.e.value ==> s.acked[n].i < h.seen)
  }

  /** The files seen hold the last contents of every other entry with a due candle. */
  ghost predicate FilesOk(cfg: Config, s: State, q: Query, h: HotRead, files: Dir) {
    && SubDir(files, DirOf(s.cold, q.sym))
    && forall n: nat :: Due(s, q, n) && Some(s.acked[n].e) != h.e ==>
         s.acked[n].e < |s.entries| && HasFile(files, Window(cfg, s.entries[s.acked[n].e]))
  }

  ghost predicate RangeOk(cfg: Config, s: State, th: Thread) {
    match th
    case RangeLookup(q) => q.since <= |s.acked|
    case RangeHot(q, found) => FoundOk(s, q, found)
    case RangeCold(q, h) => FoundOk(s, q, h.e) && HotOk(cfg, s, q, h)
    case RangeFiles(q, h, base) =>
      FoundOk(s, q, h.e) && HotOk(cfg, s, q, h) && FilesOk(cfg, s, q, h, base) && cfg.dataDir
    case RangeDone(q, h, files, cold, out) =>
      && FoundOk(s, q, h.e) && HotOk(cfg, s, q, h)
      && (cfg.dataDir ==> FilesOk(cfg, s, q, h, files))
      && (cfg.dataDir ==> IsColdAnswer(files, q.from, q.to, cold) && out == Combine(cold, h.hot))
      && (!cfg.dataDir ==> out == h.hot)
    case _ => true
  }

  // ----- other threads' steps -----

  lemma FoundKept(s: State, s2: State, q: Query, found: Option<nat>)
    requires DataEvolves(s, s2) && LogEvolves(s, s2) && FoundOk(s, q, found)
    ensures FoundOk(s2, q, found)
  {
    forall n: nat | Due(s2, q, n)
      ensures Some(s2.acked[n].e) == found || Evicted(s2, s2.acked[n].e)
    {
      assert s2.acked[n] == s.acked[n] && Due(s, q, n);
    }
  }

  lemma HotKept(cfg: Config, s: State, s2: State, q: Query, h: HotRead)
    requires DataEvolves(s, s2) && LogEvolves(s, s2) && q.since <= |s.acked| && HotOk(cfg, s, q, h)
    ensures HotOk(cfg, s2, q, h)
  {
    if h.e.Some? {
      var a, b := s.entries[h.e.value].hist, s2.entries[h.e.value].hist;
      assert a <= b && b[..h.seen] == a[..h.seen];
      forall n: nat | Due(s2, q, n) && s2.acked[n].e == h.e.value
        ensures s2.acked[n].i < h.seen
      {
        assert s2.acked[n] == s.acked[n] && Due(s, q, n);
      }
    }
  }

  lemma FilesKept(cfg: Config, s: State, s2: State, q: Query, h: HotRead, files: Dir)
    requires DataEvolves(s, s2) && LogEvolves(s, s2) && FoundOk(s, q, h.e) && FilesOk(cfg, s, q, h, files)
    ensures FilesOk(cfg, s2, q, h, files)
  {
    assert SubDir(DirOf(s.cold, q.sym), DirOf(s2.cold, q.sym));
    forall n: nat | Due(s2, q, n) && Some(s2.acked[n].e) != h.e
      ensures s2.acked[n].e < |s2.entries| && HasFile(files, Window(cfg, s2.entries[s2.acked[n].e]))
    {
      assert s2.acked[n] == s.acked[n] && Due(s, q, n);
      assert Evicted(s, s.acked[n].e);
    }
  }

  lemma RangeKept(cfg: Config, s: State, s2: State, th: Thread)
    requires DataEvolves(s, s2) && LogEvolves(s, s2) && RangeOk(cfg, s, th)
    ensures RangeOk(cfg, s2, th)
  {
    match th {
      case RangeHot(q, found) => FoundKept(s, s2, q, found);
      case RangeCold(q, h) =>
        FoundKept(s, s2, q, h.e);
        HotKept(cfg, s, s2, q, h);
      case RangeFiles(q, h, base) =>
        FoundKept(s, s2, q, h.e);
        HotKept(cfg, s, s2, q, h);
        FilesKept(cfg, s, s2, q, h, base);
      case RangeDone(q, h, files, cold, out) =>
        FoundKept(s, s2, q, h.e);
        HotKept(cfg, s, s2, q, h);
        if cfg.dataDir { FilesKept(cfg, s, s2, q, h, files); }
      case _ =>
    }
  }

  // ----- the query's own steps -----

  /** An acknowledgement points at the push it acknowledged. */
  lemma AckedPush(s: State, n: nat)
    requires FatesOk(s) && n < |s.acked|
    ensures var k := s.acked[n];
            && k.e < |s.entries| && k.i < |s.entries[k.e].hist|
            && s.entries[k.e].hist[k.i] == k.c && s.entries[k.e].sym == k.sym
  {
    assert AckOk(s, n);
    var k := s.acked[n];
    assert EntryFatesOk(s, k.e);
    assert FateOk(s, k.e, k.i);
  }

  lemma FindEntryFinds(cfg: Config, s: State, q: Query)
    requires EntriesOk(cfg, s) && FatesOk(s) && q.since <= |s.acked|
    ensures FoundOk(s, q, if q.sym in s.hot then Some(s.hot[q.sym]) else None)
  {
    forall n: nat | Due(s, q, n)
      ensures Evicted(s, s.acked[n].e) || (q.sym in s.hot && s.hot[q.sym] == s.acked[n].e)
    {
      AckedPush(s, n);
    }
  }

  lemma ReadHotReads(cfg: Config, s: State, q: Query, e: nat)
    requires FatesOk(s) && FoundOk(s, q, Some(e))
    ensures HotOk(cfg, s, q, HotRead(Some(e), |s.entries[e].hist|, RangeBlock(Window(cfg, s.entries[e]), q.from, q.to)))
  {
    assert s.entries[e].hist[..|s.entries[e].hist|] == s.entries[e].hist;
    forall n: nat | Due(s, q, n) && s.acked[n].e == e
      ensures s.acked[n].i < |s.entries[e].hist|
    {
      AckedPush(s, n);
    }
  }

  lemma ListFilesLists(cfg: Config, s: State, q: Query, h: HotRead)
    requires EntriesOk(cfg, s) && FatesOk(s) && FoundOk(s, q, h.e) && cfg.dataDir
    ensures FilesOk(cfg, s, q, h, DirOf(s.cold, q.sym))
  {
    forall n: nat | Due(s, q, n) && Some(s.acked[n].e) != h.e
      ensures s.acked[n].e < |s.entries| && HasFile(DirOf(s.cold, q.sym), Window(cfg, s.entries[s.acked[n].e]))
    {
      AckedPush(s, n);
      assert Evicted(s, s.acked[n].e);
      assert Archived(cfg, s, s.acked[n].e);
    }
  }

  lemma MoreFilesOk(cfg: Config, s: State, q: Query, h: HotRead, base: Dir, files: Dir)
    requires FilesOk(cfg, s, q, h, base) && SubDir(base, files) && SubDir(files, DirOf(s.cold, q.sym))
    ensures FilesOk(cfg, s, q, h, files)
  {
    forall n: nat | Due(s, q, n) && Some(s.acked[n].e) != h.e
      ensures HasFile(files, Window(cfg, s.entries[s.acked[n].e]))
    {
      HasFileKept(base, files, Window(cfg, s.entries[s.acked[n].e]));
    }
  }

  lemma BeginKeepsRange(cfg: Config, s: State, t: nat, sym: string, from: I64, to: I64, s2: State)
    requires DoBeginRange(s, t, sym, from, to, s2)
    ensures RangeOk(cfg, s, s2.threads[t])
  {
  }

  lemma SkipColdKeepsRange(cfg: Config, s: State, t: nat, s2: State)
    requires DoSkipCold(cfg, s, t, s2) && RangeOk(cfg, s, s.threads[t])
    ensures RangeOk(cfg, s, s2.threads[t])
  {
  }

  lemma FindEntryKeepsRange(cfg: Config, s: State, t: nat, s2: State)
    requires EntriesOk(cfg, s) && FatesOk(s) && DoFindEntry(s, t, s2) && RangeOk(cfg, s, s.threads[t])
    ensures RangeOk(cfg, s, s2.threads[t])
  {
    FindEntryFinds(cfg, s, s.threads[t].q);
  }

  lemma ReadHotKeepsRange(cfg: Config, s: State, t: nat, s2: State)
    requires FatesOk(s) && DoReadHot(cfg, s, t, s2) && RangeOk(cfg, s, s.threads[t])
    ensures RangeOk(cfg, s, s2.threads[t])
  {
    var th := s.threads[t];
    if th.found.Some? { ReadHotReads(cfg, s, th.q, th.found.value); }
  }

  lemma ListFilesKeepsRange(cfg: Config, s: State, t: nat, s2: State)
    requires EntriesOk(cfg, s) && FatesOk(s) && DoListFiles(cfg, s, t, s2) && RangeOk(cfg, s, s.threads[t])
    ensures RangeOk(cfg, s, s2.threads[t])
  {
    ListFilesLists(cfg, s, s.threads[t].q, s.threads[t].h);
  }

  lemma ReadColdKeepsRange(cfg: Config, s: State, t: nat, files: Dir, cold: seq<Candle>, s2: State)
    requires DoReadCold(s, t, files, cold, s2) && RangeOk(cfg, s, s.threads[t])
    ensures RangeOk(cfg, s, s2.threads[t])
  {
    var th := s.threads[t];
    MoreFilesOk(cfg, s, th.q, th.h, th.base, files);
  }

  /** A range step changes nothing but the query's program counter. */
  lemma RangeStepReads(cfg: Config, s: State, t: nat, m: Move, s2: State)
    requires EntriesOk(cfg, s) && FatesOk(s) && RangeStep(cfg, s, t, m, s2)
    requires RangeOk(cfg, s, s.threads[t])
    ensures RangeOk(cfg, s, s2.threads[t])
  {
    match m {
      case BeginRange(sym, from, to) => BeginKeepsRange(cfg, s, t, sym, from, to, s2);
      case FindEntry => FindEntryKeepsRange(cfg, s, t, s2);
      case ReadHot => ReadHotKeepsRange(cfg, s, t, s2);
      case SkipCold => SkipColdKeepsRange(cfg, s, t, s2);
      case ListFiles => ListFilesKeepsRange(cfg, s, t, s2);
      case ReadCold(files, cold) => ReadColdKeepsRange(cfg, s, t, files, cold, s2);
    }
  }

  predicate IsQuery(th: Thread) {
    th.RangeLookup? || th.RangeHot? || th.RangeCold? || th.RangeFiles? || th.RangeDone?
  }

  lemma AppendingIsNoQuery(cfg: Config, s: State, t: nat, m: Move, s2: State)
    requires (AppendStep(cfg, s, t, m, s2) || MapStep(cfg, s, t, m, s2))
    ensures !IsQuery(s2.threads[t])
  {
  }

  lemma EvictingIsNoQuery(cfg: Config, s: State, t: nat, m: Move, s2: State)
    requires (VictimStep(cfg, s, t, m, s2) || DataStep(cfg, s, t, m, s2))
    ensures !IsQuery(s2.threads[t])
  {
  }

  lemma CountingIsNoQuery(cfg: Config, s: State, t: nat, m: Move, s2: State)
    requires CountStep(cfg, s, t, m, s2)
    ensures s2.threads[t] == s.threads[t] || !IsQuery(s2.threads[t])
  {
  }

  lemma OtherThreadsAreNoQuery(cfg: Config, s: State, t: nat, m: Move, s2: State)
    requires Step(cfg, s, t, m, s2) && !IsRangeMove(m) && t < |s.threads| == |s2.threads|
    ensures s2.threads[t] == s.threads[t] || !IsQuery(s2.threads[t])
  {
    if IsAppendMove(m) || IsMapMove(m) {
      AppendingIsNoQuery(cfg, s, t, m, s2);
    } else if IsVictimMove(m) || IsDataMove(m) {
      EvictingIsNoQuery(cfg, s, t, m, s2);
    } else {
      CountingIsNoQuery(cfg, s, t, m, s2);
    }
  }

  lemma RangesCarryOver(cfg: Config, s: State, t: nat, s2: State)
    requires Moved(s, t, s2) && DataEvolves(s, s2) && LogEvolves(s, s2)
    requires forall u: nat :: u < |s.threads| ==> RangeOk(cfg, s, s.threads[u])
    requires RangeOk(cfg, s, s2.threads[t])
    ensures forall u: nat :: u < |s2.threads| ==> RangeOk(cfg, s2, s2.threads[u])
  {
    forall u: nat | u < |s2.threads|
      ensures RangeOk(cfg, s2, s2.threads[u])
    {
      RangeKept(cfg, s, s2, s2.threads[u]);
    }
  }

  lemma NoQueryIsOk(cfg: Config, s: State, th: Thread)
    requires !IsQuery(th)
    ensures RangeOk(cfg, s, th)
  {
  }

  lemma OtherStepKeepsRange(cfg: Config, s: State, t: nat, m: Move, s2: State)
    requires Step(cfg, s, t, m, s2) && !IsRangeMove(m) && t < |s.threads| == |s2.threads| &&
             RangeOk(cfg, s, s.threads[t])
    ensures RangeOk(cfg, s, s2.threads[t])
  {
    OtherThreadsAreNoQuery(cfg, s, t, m, s2);
    if !IsQuery(s2.threads[t]) { NoQueryIsOk(cfg, s, s2.threads[t]); }
  }

  lemma RangeMoveIsRangeStep(cfg: Config, s: State, t: nat, m: Move, s2: State)
    requires Step(cfg, s, t, m, s2) && IsRangeMove(m)
    ensures RangeStep(cfg, s, t, m, s2)
  {
  }

  lemma OwnStepKeepsRange(cfg: Config, s: State, t: nat, m: Move, s2: State)
    requires EntriesOk(cfg, s) && FatesOk(s) && Step(cfg, s, t, m, s2) && t < |s.threads| == |s2.threads|
    requires RangeOk(cfg, s, s.threads[t])
    ensures RangeOk(cfg, s, s2.threads[t])
  {
    if IsRangeMove(m) {
      RangeMoveIsRangeStep(cfg, s, t, m, s2);
      RangeStepReads(cfg, s, t, m, s2);
    } else {
      OtherStepKeepsRange(cfg, s, t, m, s2);
    }
  }

  lemma StepKeepsRange(cfg: Config, s: State, t: nat, m: Move, s2: State)
    requires Core(cfg, s) && FatesOk(s) && Step(cfg, s, t, m, s2)
    requires forall u: nat :: u < |s.threads| ==> RangeOk(cfg, s, s.threads[u])
    ensures forall u: nat :: u < |s2.threads| ==> RangeOk(cfg, s2, s2.threads[u])
  {
    StepTracked(cfg, s, t, m, s2);
    StepEvolves(cfg, s, t, m, s2);
    OwnStepKeepsRange(cfg, s, t, m, s2);
    RangesCarryOver(cfg, s, t, s2);
  }
}
