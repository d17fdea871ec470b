/**
 Freedom from deadlock: the lock order is map before ring, and no ring lock is ever held while
 waiting for the map, so some append can always make a step.
 */
module StoreDeadlock {
  import opened Candles
  import opened StoreProtocol
  import opened StoreInvariant
  import opened StoreHistory
  import opened StoreTheorems

  /** Some step of thread `t` is enabled. */
  ghost predicate CanStep(cfg: Config, s: State, t: nat) {
    exists m: Move, s2: State :: Step(cfg, s, t, m, s2)
  }

  lemma AppendCan(cfg: Config, s: State, t: nat, m: Move, s2: State)
    requires AppendStep(cfg, s, t, m, s2)
    ensures CanStep(cfg, s, t)
  {
    assert Step(cfg, s, t, m, s2);
  }

  lemma MapCan(cfg: Config, s: State, t: nat, m: Move, s2: State)
    requires MapStep(cfg, s, t, m, s2)
    ensures CanStep(cfg, s, t)
  {
    assert Step(cfg, s, t, m, s2);
  }

  lemma VictimCan(cfg: Config, s: State, t: nat, m: Move, s2: State)
    requires VictimStep(cfg, s, t, m, s2)
    ensures CanStep(cfg, s, t)
  {
    assert Step(cfg, s, t, m, s2);
  }

  lemma DataCan(cfg: Config, s: State, t: nat, m: Move, s2: State)
    requires DataStep(cfg, s, t, m, s2)
    ensures CanStep(cfg, s, t)
  {
    assert Step(cfg, s, t, m, s2);
  }

  lemma CountCan(cfg: Config, s: State, t: nat, m: Move, s2: State)
    requires CountStep(cfg, s, t, m, s2)
    ensures CanStep(cfg, s, t)
  {
    assert Step(cfg, s, t, m, s2);
  }

  lemma AppenderCanStep(cfg: Config, s: State, t: nat)
    requires t < |s.threads| && TargetOk(s, s.threads[t]) && BufHeld(s.threads[t]).Some? && Target(s.threads[t]).Some?
    ensures CanStep(cfg, s, t)
  {
    match s.threads[t] {
      case HaveBuf(a, e, at) =>
        AppendCan(cfg, s, t, CheckFlag,
            Go(s, t, if s.entries[e].removed then MustRetry(Did(a), e, at) else MayPush(Did(a), e)));
      case MayPush(a, e) =>
        var x := s.entries[e];
        DataCan(cfg, s, t, Push,
            SetEntry(Go(s, t, Pushed(Did(a), e, |x.hist|)), e,
                x.(hist := x.hist + [a.c], fate := x.fate + [InFlight(t)])));
      case Pushed(a, e, i) =>
        AppendCan(cfg, s, t, DropBuf, SetEntry(Go(s, t, MustBump(Did(a), e, i)), e, s.entries[e].(owner := None)));
      case MustRetry(a, e, at) =>
        AppendCan(cfg, s, t, Retry,
            SetEntry(Go(s, t, NeedMap(Did(a).(retries := a.retries + 1))), e, s.entries[e].(owner := None)));
    }
  }

  lemma EvictorCanStep(cfg: Config, s: State, t: nat)
    requires t < |s.threads| && BufHeld(s.threads[t]).Some? && Victim(s.threads[t]).Some? &&
             Victim(s.threads[t]).value < |s.entries|
    ensures CanStep(cfg, s, t)
  {
    match s.threads[t] {
      case HaveVictim(a, k, v) =>
        DataCan(cfg, s, t, Flag,
            SetEntry(Go(s, t, Flagged(Did(a), k, v)), v, s.entries[v].(removed := true)).(attempts := s.attempts + 1));
      case Flagged(a, k, v) =>
        VictimCan(cfg, s, t, Snap, Go(s, t, Snapped(Did(a), k, v, Window(cfg, s.entries[v]))));
      case Snapped(a, k, v, snap) =>
        VictimCan(cfg, s, t, DropVictim,
                    SetEntry(Go(s, t, if snap != [] && cfg.dataDir then NeedSpill(Did(a), k, v, snap)
                                      else NeedRemove(Did(a), k, v)),
                             v, s.entries[v].(owner := None)));
    }
  }

  /** A thread that holds a ring lock is never blocked. */
  lemma RingHolderCanStep(cfg: Config, s: State, t: nat)
    requires t < |s.threads| && BufHeld(s.threads[t]).Some? && ThreadOk(cfg, s, s.threads[t])
    ensures CanStep(cfg, s, t)
  {
    if Target(s.threads[t]).Some? { AppenderCanStep(cfg, s, t); } else { EvictorCanStep(cfg, s, t); }
  }

  /** The ring lock a thread is waiting for. */
  function WaitsForRing(th: Thread): Option<nat> {
    match th
    case NeedBuf(_, e, _) => Some(e)
    case NeedVictim(_, _, v) => Some(v)
    case _ => None
  }

  predicate WaitsForMap(th: Thread) { th.NeedLookup? || th.NeedMap? }

  lemma SpillerCanStep(cfg: Config, s: State, t: nat)
    requires t < |s.threads| && VictimOk(cfg, s, s.threads[t])
    requires s.threads[t].NeedSpill? || s.threads[t].SpillFailed? || s.threads[t].Rejecting?
    ensures CanStep(cfg, s, t)
  {
    match s.threads[t] {
      case NeedSpill(a, k, v, snap) => DataCan(cfg, s, t, SpillErr(None), Go(s, t, SpillFailed(Did(a), k, v)));
      case SpillFailed(a, k, v) =>
        DataCan(cfg, s, t, ClearFlag, SetEntry(Go(s, t, Rejecting(Did(a))), v, s.entries[v].(removed := false)));
      case Rejecting(a) => MapCan(cfg, s, t, Reject, Go(s, t, Idle).(mapOwner := None));
    }
  }

  lemma InserterCanStep(cfg: Config, s: State, t: nat)
    requires t < |s.threads| && (s.threads[t].NeedRemove? || s.threads[t].NeedInsert? || s.threads[t].Inserted?)
    ensures CanStep(cfg, s, t)
  {
    match s.threads[t] {
      case NeedRemove(a, k, v) =>
        DataCan(cfg, s, t, Remove, Go(s, t, NeedInsert(Did(a))).(hot := s.hot - {k}, evictions := s.evictions + 1));
      case NeedInsert(a) =>
        DataCan(cfg, s, t, Insert,
                    Go(s, t, Inserted(Did(a), |s.entries|))
                    .(entries := s.entries + [Entry(a.sym, [a.c], [InFlight(t)], false, None, a.tick)],
                      hot := s.hot[a.sym := |s.entries|]));
      case Inserted(a, e) => MapCan(cfg, s, t, DropMap, Go(s, t, MustBump(Did(a), e, 0)).(mapOwner := None));
    }
  }

  lemma LooseCanStep(cfg: Config, s: State, t: nat)
    requires t < |s.threads| && TargetOk(s, s.threads[t]) && FlightOk(s, t)
    requires s.threads[t].NeedTick? || s.threads[t].NeedTouch? || s.threads[t].MustBump?
    ensures CanStep(cfg, s, t)
  {
    match s.threads[t] {
      case NeedTick(a) =>
        CountCan(cfg, s, t, TakeTick, Go(s, t, NeedLookup(Did(a).(tick := s.tick))).(tick := s.tick + 1));
      case NeedTouch(a, e, at) =>
        AppendCan(cfg, s, t, Touch, SetEntry(Go(s, t, NeedBuf(Did(a), e, at)), e, s.entries[e].(lastAccess := a.tick)));
      case MustBump(a, e, i) =>
        var x := s.entries[e];
        AppendCan(cfg, s, t, Bump,
                    SetEntry(Go(s, t, Idle), e, x.(fate := x.fate[i := Acked(|s.acked|)]))
                    .(version := s.version + 1, acked := s.acked + [Ack(a.sym, a.c, e, i)]));
    }
  }

  /** An append that neither holds nor waits for a ring lock and does not wait for the map can go on. */
  lemma UnblockedCanStep(cfg: Config, s: State, t: nat)
    requires t < |s.threads| && CallOf(s.threads[t]).Some? && ThreadOk(cfg, s, s.threads[t]) && FlightOk(s, t)
    requires BufHeld(s.threads[t]).None? && WaitsForRing(s.threads[t]).None? && !WaitsForMap(s.threads[t])
    ensures CanStep(cfg, s, t)
  {
    if s.threads[t].HaveMap? {
      MapHolderCanChoose(cfg, s, t);
    } else if s.threads[t].NeedSpill? || s.threads[t].SpillFailed? || s.threads[t].Rejecting? {
      SpillerCanStep(cfg, s, t);
    } else if HoldsMap(s.threads[t]) {
      InserterCanStep(cfg, s, t);
    } else {
      LooseCanStep(cfg, s, t);
    }
  }

  lemma MapHolderCanChoose(cfg: Config, s: State, t: nat)
    requires t < |s.threads| && s.threads[t].HaveMap?
    ensures CanStep(cfg, s, t)
  {
    var a := s.threads[t].a;
    if a.sym in s.hot {
      MapCan(cfg, s, t, FoundInMap, Go(s, t, NeedTouch(Did(a), s.hot[a.sym], s.attempts)).(mapOwner := None));
    } else if |s.hot| < cfg.maxSymbols || |s.hot| == 0 {
      MapCan(cfg, s, t, NoVictim, Go(s, t, NeedInsert(Did(a))));
    } else {
      var k :| k in s.hot;
      MapCan(cfg, s, t, PickVictim(k), Go(s, t, NeedVictim(Did(a), k, s.hot[k])));
    }
  }

  /** Whoever waits for a ring lock either gets it or waits for a thread that is not blocked. */
  lemma RingWaiterLeadsOn(cfg: Config, s: State, t: nat) returns (u: nat)
    requires Core(cfg, s) && t < |s.threads| && WaitsForRing(s.threads[t]).Some?
    ensures u < |s.threads| && CallOf(s.threads[u]).Some? && CanStep(cfg, s, u)
  {
    var th, e := s.threads[t], WaitsForRing(s.threads[t]).value;
    assert ThreadOk(cfg, s, th);
    if s.entries[e].owner.Some? {
      u := s.entries[e].owner.value;
      assert BufHeld(s.threads[u]) == Some(e);
      RingHolderCanStep(cfg, s, u);
    } else {
      u := t;
      FreeRingCanBeTaken(cfg, s, t, e);
    }
  }

  lemma FreeRingCanBeTaken(cfg: Config, s: State, t: nat, e: nat)
    requires t < |s.threads| && WaitsForRing(s.threads[t]) == Some(e) && e < |s.entries| && s.entries[e].owner.None?
    ensures CanStep(cfg, s, t) && CallOf(s.threads[t]).Some?
  {
    match s.threads[t] {
      case NeedBuf(a, _, at) =>
        AppendCan(cfg, s, t, TakeBuf, SetEntry(Go(s, t, HaveBuf(Did(a), e, at)), e, s.entries[e].(owner := Some(t))));
      case NeedVictim(a, k, _) =>
        VictimCan(cfg, s, t, TakeVictim,
            SetEntry(Go(s, t, HaveVictim(Did(a), k, e)), e, s.entries[e].(owner := Some(t))));
    }
  }

  lemma AnyoneLeadsOn(cfg: Config, s: State, t: nat) returns (u: nat)
    requires Core(cfg, s) && FatesOk(s) && t < |s.threads| && CallOf(s.threads[t]).Some? && !WaitsForMap(s.threads[t])
    ensures u < |s.threads| && CallOf(s.threads[u]).Some? && CanStep(cfg, s, u)
  {
    u := t;
    if BufHeld(s.threads[t]).Some? {
      RingHolderCanStep(cfg, s, t);
    } else if WaitsForRing(s.threads[t]).Some? {
      u := RingWaiterLeadsOn(cfg, s, t);
    } else {
      assert FlightOk(s, t);
      UnblockedCanStep(cfg, s, t);
    }
  }

  lemma MapHolderIsAppending(th: Thread)
    requires HoldsMap(th)
    ensures CallOf(th).Some? && !WaitsForMap(th)
  {
  }

  /** While any append is running, some append can make a step. */
  lemma NoDeadlock(cfg: Config, run: seq<State>, who: seq<nat>, moves: seq<Move>, i: nat, t: nat) returns (u: nat)
    requires cfg.cap > 0 && IsRun(cfg, run, who, moves) && i < |run| && t < |run[i].threads|
    requires CallOf(run[i].threads[t]).Some?
    ensures u < |run[i].threads| && CallOf(run[i].threads[u]).Some? && CanStep(cfg, run[i], u)
  {
    RunKeepsCore(cfg, run, who, moves, i);
    RunKeepsFates(cfg, run, who, moves, i);
    var s := run[i];
    if !WaitsForMap(s.threads[t]) {
      u := AnyoneLeadsOn(cfg, s, t);
    } else if s.mapOwner.Some? {
      MapHolderIsAppending(s.threads[s.mapOwner.value]);
      u := AnyoneLeadsOn(cfg, s, s.mapOwner.value);
    } else {
      u := t;
      FreeMapCanBeTaken(cfg, s, t);
    }
  }

  lemma FreeMapCanBeTaken(cfg: Config, s: State, t: nat)
    requires t < |s.threads| && WaitsForMap(s.threads[t]) && s.mapOwner.None?
    ensures CanStep(cfg, s, t)
  {
    var a := s.threads[t].a;
    if s.threads[t].NeedMap? {
      MapCan(cfg, s, t, TakeMap, Go(s, t, HaveMap(Did(a))).(mapOwner := Some(t)));
    } else {
      AppendCan(cfg, s, t, Lookup,
                  Go(s, t, if a.sym in s.hot then NeedTouch(Did(a), s.hot[a.sym], s.attempts) else NeedMap(Did(a))));
    }
  }
}
