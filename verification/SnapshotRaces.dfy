/** Runs in which a snapshot under-reports by any number: signals that fall between its two loads. */
module SnapshotRaces {
  import opened Candles
  import opened StoreProtocol

  ghost predicate EndsIn(cfg: Config, run: seq<State>, who: seq<nat>, moves: seq<Move>, s: State) {
    IsRun(cfg, run, who, moves) && run[|run| - 1] == s
  }

  ghost predicate Reachable(cfg: Config, s: State) {
    exists run, who, moves :: EndsIn(cfg, run, who, moves, s)
  }

  lemma InitIsReachable(cfg: Config, s: State)
    requires Init(cfg, s)
    ensures Reachable(cfg, s)
  {
    assert EndsIn(cfg, [s], [], [], s);
  }

  lemma StepIsReachable(cfg: Config, s: State, t: nat, m: Move, s2: State)
    requires Reachable(cfg, s) && Step(cfg, s, t, m, s2)
    ensures Reachable(cfg, s2)
  {
    var run, who, moves :| EndsIn(cfg, run, who, moves, s);
    var run2, who2, moves2 := run + [s2], who + [t], moves + [m];
    forall i: nat | i < |moves|
      ensures StepAt(cfg, run2, who2, moves2, i)
    {
      StepStays(cfg, run, who, moves, t, m, s2, i);
    }
    StepIsLast(cfg, run, who, moves, t, m, s2);
    assert EndsIn(cfg, run2, who2, moves2, s2);
  }

  lemma StepStays(cfg: Config, run: seq<State>, who: seq<nat>, moves: seq<Move>, t: nat, m: Move, s2: State, i: nat)
    requires |run| == |moves| + 1 && |who| == |moves| && i < |moves| && StepAt(cfg, run, who, moves, i)
    ensures StepAt(cfg, run + [s2], who + [t], moves + [m], i)
  {
  }

  lemma StepIsLast(cfg: Config, run: seq<State>, who: seq<nat>, moves: seq<Move>, t: nat, m: Move, s2: State)
    requires |run| == |moves| + 1 && |who| == |moves| && Step(cfg, run[|moves|], t, m, s2)
    ensures StepAt(cfg, run + [s2], who + [t], moves + [m], |moves|)
  {
  }

  lemma GoTwice(s: State, t: nat, x: Thread, y: Thread)
    requires t < |s.threads|
    ensures Go(Go(s, t, x), t, y) == Go(s, t, y)
  {
    assert s.threads[t := x][t := y] == s.threads[t := y];
  }

  lemma GoBack(s: State, t: nat, x: Thread)
    requires t < |s.threads|
    ensures Go(Go(s, t, x), t, s.threads[t]) == s
  {
    assert s.threads[t := x][t := s.threads[t]] == s.threads;
  }

  // ----- an append to a new symbol that meets nobody -----

  lemma AppendToLookup(cfg: Config, s: State, t: nat, sym: string, c: Candle)
    requires Reachable(cfg, s) && t < |s.threads| && s.threads[t].Idle? && c.IsValid()
    ensures Reachable(cfg, Go(s, t, NeedLookup(Call(sym, c, s.tick, s.attempts, 0, 1))).(tick := s.tick + 1))
  {
    var a, b := Call(sym, c, 0, s.attempts, 0, 0), Call(sym, c, s.tick, s.attempts, 0, 1);
    StepIsReachable(cfg, s, t, BeginAppend(sym, c), Go(s, t, NeedTick(a)));
    GoTwice(s, t, NeedTick(a), NeedLookup(b));
    StepIsReachable(cfg, Go(s, t, NeedTick(a)), t, TakeTick, Go(s, t, NeedLookup(b)).(tick := s.tick + 1));
  }

  lemma LookupToMap(cfg: Config, s: State, t: nat, a: Call)
    requires t < |s.threads| && s.mapOwner.None? && a.sym !in s.hot && Reachable(cfg, Go(s, t, NeedLookup(a)))
    ensures Reachable(cfg, Go(s, t, HaveMap(Did(Did(a)))).(mapOwner := Some(t)))
  {
    GoTwice(s, t, NeedLookup(a), NeedMap(Did(a)));
    StepIsReachable(cfg, Go(s, t, NeedLookup(a)), t, Lookup, Go(s, t, NeedMap(Did(a))));
    GoTwice(s, t, NeedMap(Did(a)), HaveMap(Did(Did(a))));
    StepIsReachable(cfg, Go(s, t, NeedMap(Did(a))), t, TakeMap,
                    Go(s, t, HaveMap(Did(Did(a)))).(mapOwner := Some(t)));
  }

  /** The state with a new entry that holds one candle, pushed by thread `t`. */
  function WithEntry(s: State, t: nat, a: Call, fate: Fate): State {
    s.(entries := s.entries + [Entry(a.sym, [a.c], [fate], false, None, a.tick)], hot := s.hot[a.sym := |s.entries|])
  }

  lemma MapToInsert(cfg: Config, s: State, t: nat, a: Call)
    requires t < |s.threads| && a.sym !in s.hot && |s.hot| < cfg.maxSymbols && Reachable(cfg, Go(s, t, HaveMap(a)))
    ensures Reachable(cfg, Go(WithEntry(s, t, a, InFlight(t)), t, Inserted(Did(Did(a)), |s.entries|)))
  {
    var b := Did(a);
    GoTwice(s, t, HaveMap(a), NeedInsert(b));
    StepIsReachable(cfg, Go(s, t, HaveMap(a)), t, NoVictim, Go(s, t, NeedInsert(b)));
    GoTwice(s, t, NeedInsert(b), Inserted(Did(b), |s.entries|));
    StepIsReachable(cfg, Go(s, t, NeedInsert(b)), t, Insert,
                    Go(WithEntry(s, t, a, InFlight(t)), t, Inserted(Did(b), |s.entries|)));
  }

  lemma InsertToBump(cfg: Config, s: State, t: nat, a: Call)
    requires t < |s.threads| && s.threads[t].Idle? && s.mapOwner.None?
    requires Reachable(cfg, Go(WithEntry(s, t, a, InFlight(t)), t, Inserted(a, |s.entries|)).(mapOwner := Some(t)))
    ensures Reachable(cfg, WithEntry(s, t, a, Acked(|s.acked|))
                           .(version := s.version + 1, acked := s.acked + [Ack(a.sym, a.c, |s.entries|, 0)]))
  {
    var e := |s.entries|;
    var w := WithEntry(s, t, a, InFlight(t));
    GoTwice(w, t, Inserted(a, e), MustBump(Did(a), e, 0));
    StepIsReachable(cfg, Go(w, t, Inserted(a, e)).(mapOwner := Some(t)), t, DropMap, Go(w, t, MustBump(Did(a), e, 0)));
    GoBack(w, t, MustBump(Did(a), e, 0));
    var acked := s.acked + [Ack(a.sym, a.c, e, 0)];
    var s2 := WithEntry(s, t, a, Acked(|s.acked|)).(version := s.version + 1, acked := acked);
    assert [InFlight(t)][0 := Acked(|s.acked|)] == [Acked(|s.acked|)];
    assert w.entries[e := w.entries[e].(fate := [Acked(|s.acked|)])] == s2.entries;
    StepIsReachable(cfg, Go(w, t, MustBump(Did(a), e, 0)), t, Bump, s2);
  }

  /** Nobody is doing anything, `n` symbols are mapped, and as many appends were acknowledged. */
  ghost predicate Quiet(cfg: Config, s: State, n: nat) {
    && Reachable(cfg, s) && s.threads == [Idle, Idle] && s.mapOwner.None? && |s.hot| == n
    && (forall sym :: sym in s.hot ==> |sym| < n)
    && |s.acked| == n && s.version == n && s.signals == 0
  }

  lemma AppendOne(cfg: Config, s: State, sym: string, c: Candle) returns (s2: State)
    requires Quiet(cfg, s, |sym|) && |sym| < cfg.maxSymbols && c.IsValid()
    ensures Quiet(cfg, s2, |sym| + 1)
  {
    var a := Call(sym, c, s.tick, s.attempts, 0, 1);
    AppendToLookup(cfg, s, 0, sym, c);
    var w := s.(tick := s.tick + 1);
    LookupToMap(cfg, w, 0, a);
    var m := w.(mapOwner := Some(0));
    MapToInsert(cfg, m, 0, Did(Did(a)));
    a := Did(Did(Did(Did(a))));
    InsertToBump(cfg, w, 0, a);
    var acked := s.acked + [Ack(sym, c, |s.entries|, 0)];
    s2 := WithEntry(w, 0, a, Acked(|s.acked|)).(version := s.version + 1, acked := acked);
    assert s2.hot.Keys == s.hot.Keys + {sym} && |s2.hot| == |s2.hot.Keys| == |s.hot.Keys| + 1;
  }

  lemma {:induction false} AppendMany(cfg: Config, n: nat, c: Candle) returns (s: State)
    requires n <= cfg.maxSymbols && c.IsValid()
    ensures Quiet(cfg, s, n)
  {
    if n == 0 {
      s := State(map[], [], map[], [Idle, Idle], None, 0, 0, 0, 0, 0, 0, []);
      InitIsReachable(cfg, s);
    } else {
      s := AppendMany(cfg, n - 1, c);
      s := AppendOne(cfg, s, seq(n - 1, _ => 'a'), c);
    }
  }

  // ----- signals between the two loads -----

  lemma SignalOnce(cfg: Config, s: State)
    requires Reachable(cfg, s) && |s.threads| == 2 && s.threads[1].Idle?
    ensures Reachable(cfg, s.(version := s.version + 1, signals := s.signals + 1, published := s.published + 1))
  {
    var s1 := Go(s, 1, Signalling).(signals := s.signals + 1);
    StepIsReachable(cfg, s, 1, Signal, s1);
    GoBack(s, 1, Signalling);
    StepIsReachable(cfg, s1, 1, PublishSignal,
                    s.(version := s.version + 1, signals := s.signals + 1, published := s.published + 1));
  }

  lemma {:induction false} SignalMany(cfg: Config, s: State, n: nat)
    requires Reachable(cfg, s) && |s.threads| == 2 && s.threads[1].Idle?
    ensures Reachable(cfg, s.(version := s.version + n, signals := s.signals + n, published := s.published + n))
  {
    if n == 0 {
      assert s == s.(version := s.version + n, signals := s.signals + n, published := s.published + n);
    } else {
      SignalMany(cfg, s, n - 1);
      SignalOnce(cfg, s.(version := s.version + n - 1, signals := s.signals + n - 1, published := s.published + n - 1));
    }
  }

  /** For every `n` there is a run whose snapshot reports none of the `n` appends that returned before it began. */
  lemma SnapshotMissesAny(cap: nat, n: nat, c: Candle) returns (s: State)
    requires cap > 0 && c.IsValid()
    ensures Reachable(Config(cap, n, false), s) && |s.acked| == n
    ensures s.threads == [SnapshotDone(0, n), Idle]
  {
    var cfg := Config(cap, n, false);
    var q := AppendMany(cfg, n, c);
    var r := Go(q, 0, VersionRead(n, n));
    StepIsReachable(cfg, q, 0, ReadVersion, r);
    SignalMany(cfg, r, n);
    r := r.(version := r.version + n, signals := n, published := r.published + n);
    s := Go(r, 0, SnapshotDone(0, n));
    StepIsReachable(cfg, r, 0, ReadSignals, s);
  }
}
