/** Where the answers of a range query come from. */
module StoreProvenance {
  import opened Candles
  import opened RingBuffers
  import opened ColdNames
  import opened ColdStore
  import opened HotColdMerge
  import opened StoreProtocol
  import opened StoreInvariant
  import opened StoreHistory
  import opened StoreRange
  import opened StoreTheorems

  /** Candle `c` was pushed for a symbol that shares directory `d`. */
  ghost predicate PushedUnder(s: State, d: string, c: Candle) {
    exists e: nat :: e < |s.entries| && EscapeSymbol(s.entries[e].sym) == d && c in s.entries[e].hist
  }

  lemma PushedUnderKept(s: State, s2: State, d: string, c: Candle)
    requires DataEvolves(s, s2) && PushedUnder(s, d, c)
    ensures PushedUnder(s2, d, c)
  {
    var e: nat :| e < |s.entries| && EscapeSymbol(s.entries[e].sym) == d && c in s.entries[e].hist;
    var j :| 0 <= j < |s.entries[e].hist| && s.entries[e].hist[j] == c;
    assert s2.entries[e].hist[j] == c;
  }

  /** A step puts into a cold directory only candles of a ring of that directory's symbols. */
  lemma StepStores(cfg: Config, s: State, t: nat, m: Move, s2: State, d: string, c: Candle)
    requires Core(cfg, s) && Step(cfg, s, t, m, s2)
    requires d in s2.cold && StoredIn(s2.cold[d], c)
    ensures (d in s.cold && StoredIn(s.cold[d], c)) || PushedUnder(s, d, c)
  {
    if m.SpillOk? {
      SpillOkStores(cfg, s, t, m.dir, s2, d, c);
    } else if m.SpillErr? {
      SpillErrStores(cfg, s, t, m.left, s2, d, c);
    } else {
      StepKeepsCold(cfg, s, t, m, s2);
    }
  }

  lemma SpillOkStores(cfg: Config, s: State, t: nat, dir: Dir, s2: State, d: string, c: Candle)
    requires Core(cfg, s) && DoSpillOk(s, t, dir, s2) && d in s2.cold && StoredIn(s2.cold[d], c)
    ensures (d in s.cold && StoredIn(s.cold[d], c)) || PushedUnder(s, d, c)
  {
    assert ThreadOk(cfg, s, s.threads[t]);
    SpillOnlyAdds(DirOf(s.cold, s.threads[t].k), s.threads[t].snap, dir);
    if d == EscapeSymbol(s.threads[t].k) { SpillStores(cfg, s, s.threads[t], dir, d, c); }
  }

  lemma SpillErrStores(cfg: Config, s: State, t: nat, left: Option<Dir>, s2: State, d: string, c: Candle)
    requires Core(cfg, s) && DoSpillErr(s, t, left, s2) && d in s2.cold && StoredIn(s2.cold[d], c)
    ensures (d in s.cold && StoredIn(s.cold[d], c)) || PushedUnder(s, d, c)
  {
    assert ThreadOk(cfg, s, s.threads[t]);
    if left.Some? && d == EscapeSymbol(s.threads[t].k) {
      LeftBehindOnlyAdds(DirOf(s.cold, s.threads[t].k), s.threads[t].snap, left.value);
      SpillStores(cfg, s, s.threads[t], left.value, d, c);
    }
  }

  /** What a spill adds to the directory of its victim was pushed into the victim's ring. */
  lemma SpillStores(cfg: Config, s: State, th: Thread, dir: Dir, d: string, c: Candle)
    requires th.NeedSpill? && th.v < |s.entries| && th.snap == Window(cfg, s.entries[th.v])
    requires s.entries[th.v].sym == th.k && d == EscapeSymbol(th.k) && StoredIn(dir, c)
    requires StoredIn(dir, c) ==> StoredIn(DirOf(s.cold, th.k), c) || c in th.snap
    ensures (d in s.cold && StoredIn(s.cold[d], c)) || PushedUnder(s, d, c)
  {
    NothingInEmpty(c);
    if c in th.snap { LastNIsPart(s.entries[th.v].hist, cfg.cap, c); }
  }

  lemma NothingInEmpty(c: Candle)
    ensures !StoredIn(map[], c)
  {
  }

  lemma LastNIsPart(hist: seq<Candle>, n: nat, c: Candle)
    requires c in LastN(hist, n)
    ensures c in hist
  {
  }

  lemma StepKeepsCold(cfg: Config, s: State, t: nat, m: Move, s2: State)
    requires Step(cfg, s, t, m, s2) && !m.SpillOk? && !m.SpillErr?
    ensures s2.cold == s.cold
  {
    if !IsDataMove(m) { OtherStepView(cfg, s, t, m, s2); }
  }

  /** Everything in a cold directory was there at the start or was pushed into a ring under it. */
  lemma {:induction false} ColdComesFromPushes(cfg: Config, run: seq<State>, who: seq<nat>, moves: seq<Move>,
                                               i: nat, d: string, c: Candle)
    requires cfg.cap > 0 && IsRun(cfg, run, who, moves) && i < |run|
    requires d in run[i].cold && StoredIn(run[i].cold[d], c)
    ensures (d in run[0].cold && StoredIn(run[0].cold[d], c)) || PushedUnder(run[i], d, c)
  {
    if i > 0 {
      RunStepStores(cfg, run, who, moves, i - 1, d, c);
      if d in run[i - 1].cold && StoredIn(run[i - 1].cold[d], c) {
        ColdComesFromPushes(cfg, run, who, moves, i - 1, d, c);
      }
      if PushedUnder(run[i - 1], d, c) {
        RunStepEvolves(cfg, run, who, moves, i - 1);
        PushedUnderKept(run[i - 1], run[i], d, c);
      }
    }
  }

  lemma RunStepStores(cfg: Config, run: seq<State>, who: seq<nat>, moves: seq<Move>, i: nat, d: string, c: Candle)
    requires cfg.cap > 0 && IsRun(cfg, run, who, moves) && i < |moves|
    requires d in run[i + 1].cold && StoredIn(run[i + 1].cold[d], c)
    ensures (d in run[i].cold && StoredIn(run[i].cold[d], c)) || PushedUnder(run[i], d, c)
  {
    RunKeepsCore(cfg, run, who, moves, i);
    assert StepAt(cfg, run, who, moves, i);
    StepStores(cfg, run[i], who[i], moves[i], run[i + 1], d, c);
  }

  /** No two symbols that ever had a ring share a cold directory. */
  ghost predicate EscapesApart(s: State, sym: string) {
    forall e: nat :: e < |s.entries| && EscapeSymbol(s.entries[e].sym) == EscapeSymbol(sym) ==> s.entries[e].sym == sym
  }

  ghost predicate PushedFor(s: State, sym: string, c: Candle) {
    exists e: nat :: e < |s.entries| && s.entries[e].sym == sym && c in s.entries[e].hist
  }

  lemma RangeBlockMember(w: seq<Candle>, from: int, to: int, c: Candle)
    requires c in RangeBlock(w, from, to)
    ensures c in w
  {
    if w != [] && from <= to { BoundsNeverCross(w, from, to, 0, |w|); }
  }

  lemma HotIsPushed(cfg: Config, s: State, th: Thread, c: Candle)
    requires th.RangeDone? && RangeOk(cfg, s, th) && c in th.h.hot
    ensures PushedFor(s, th.q.sym, c)
  {
    var x := s.entries[th.h.e.value];
    RangeBlockMember(LastN(x.hist[..th.h.seen], cfg.cap), th.q.from, th.q.to, c);
    LastNIsPart(x.hist[..th.h.seen], cfg.cap, c);
    assert c in x.hist;
  }

  lemma ColdIsStored(cfg: Config, s: State, th: Thread, c: Candle)
    requires cfg.dataDir && th.RangeDone? && RangeOk(cfg, s, th) && c in th.cold
    ensures EscapeSymbol(th.q.sym) in s.cold && StoredIn(s.cold[EscapeSymbol(th.q.sym)], c)
  {
    var j :| 0 <= j < |th.cold| && th.cold[j] == c;
    assert StoredIn(th.files, c);
    StoredKept(th.files, DirOf(s.cold, th.q.sym), c);
    NothingInEmpty(c);
  }

  /**
   A range query invents nothing: starting from empty cold storage, and if no other symbol shares
   the directory, every candle of its answer was pushed for the symbol asked about.
   */
  lemma RangeInventsNothing(cfg: Config, run: seq<State>, who: seq<nat>, moves: seq<Move>, i: nat, u: nat, c: Candle)
    requires cfg.cap > 0 && cfg.dataDir && IsRun(cfg, run, who, moves) && i < |run| && u < |run[i].threads|
    requires run[0].cold == map[] && run[i].threads[u].RangeDone? && EscapesApart(run[i], run[i].threads[u].q.sym)
    requires c in run[i].threads[u].out
    ensures PushedFor(run[i], run[i].threads[u].q.sym, c)
  {
    var th := run[i].threads[u];
    RunKeepsThread(cfg, run, who, moves, i, u);
    AnswerIsHotOrCold(cfg, run[i], th, c);
    if c in th.h.hot {
      HotIsPushed(cfg, run[i], th, c);
    } else {
      ColdIsStored(cfg, run[i], th, c);
      ColdComesFromPushes(cfg, run, who, moves, i, EscapeSymbol(th.q.sym), c);
      PushedApart(run[i], th.q.sym, c);
    }
  }

  lemma AnswerIsHotOrCold(cfg: Config, s: State, th: Thread, c: Candle)
    requires cfg.dataDir && th.RangeDone? && RangeOk(cfg, s, th) && c in th.out
    ensures c in th.h.hot || c in th.cold
  {
    if th.cold != [] && th.h.hot != [] { MergeInventsNothing(th.cold, th.h.hot, c); }
  }

  lemma PushedApart(s: State, sym: string, c: Candle)
    requires EscapesApart(s, sym) && PushedUnder(s, EscapeSymbol(sym), c)
    ensures PushedFor(s, sym, c)
  {
    var e: nat :| e < |s.entries| && EscapeSymbol(s.entries[e].sym) == EscapeSymbol(sym) && c in s.entries[e].hist;
    assert s.entries[e].sym == sym;
  }

  lemma StoredKept(a: Dir, b: Dir, c: Candle)
    requires SubDir(a, b) && StoredIn(a, c)
    ensures StoredIn(b, c)
  {
    var name :| HoldsCandle(a, name, c);
    assert HoldsCandle(b, name, c);
  }
}
