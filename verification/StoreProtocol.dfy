/**
 The append / evict / spill / read protocol of the candle store as a step machine.

 Threads share the symbol map (one outer lock), the entries it points to (one ring lock and one
 `removed` flag each), the cold directories and the atomic counters. Every lock acquisition,
 flag access, ring operation, file operation and counter update is a step of its own; a critical
 section that only reads under a read lock is one step, taken when no writer holds the lock.
 Locks and atomics are sequentially consistent here.

 Besides the program state the machine carries history: everything ever pushed into each ring,
 the acknowledged appends, and for each append how many steps and retries it has made.
 */
module StoreProtocol {
  import opened Candles
  import opened RingBuffers
  import opened ColdNames
  import opened ColdStore
  import opened HotColdMerge

  datatype Config = Config(cap: nat, maxSymbols: nat, dataDir: bool)

  /** What became of one push: its append has not returned yet, or it is acknowledgement `n`. */
  datatype Fate = InFlight(thread: nat) | Acked(n: nat)

  /** One symbol's ring. `hist` is every push; the ring holds its last `cap` elements. */
  datatype Entry = Entry(sym: string, hist: seq<Candle>, fate: seq<Fate>, removed: bool, owner: Option<nat>,
                         lastAccess: nat)

  /** An append returned `Ok`: its candle is push `i` of entry `e`. */
  datatype Ack = Ack(sym: string, c: Candle, e: nat, i: nat)

  /** A running `try_append`; `born` is the number of eviction attempts when it was called. */
  datatype Call = Call(sym: string, c: Candle, tick: nat, born: nat, retries: nat, steps: nat)

  /** A running `range`; `since` is the number of acknowledgements when it was called. */
  datatype Query = Query(sym: string, from: I64, to: I64, since: nat)

  /** What a `range` read from RAM: the entry it found, and its history length at the read. */
  datatype HotRead = HotRead(e: Option<nat>, seen: nat, hot: seq<Candle>)

  datatype Thread =
    | Idle
    // try_append, fast path; `at` is the number of eviction attempts at the lookup
    | NeedTick(a: Call)
    | NeedLookup(a: Call)
    | NeedTouch(a: Call, e: nat, at: nat)
    | NeedBuf(a: Call, e: nat, at: nat)
    | HaveBuf(a: Call, e: nat, at: nat)
    | MayPush(a: Call, e: nat)
    | Pushed(a: Call, e: nat, i: nat)
    | MustBump(a: Call, e: nat, i: nat)
    | MustRetry(a: Call, e: nat, at: nat)
    // try_insert_new; `k` is the victim's symbol and `v` its entry
    | NeedMap(a: Call)
    | HaveMap(a: Call)
    | NeedVictim(a: Call, k: string, v: nat)
    | HaveVictim(a: Call, k: string, v: nat)
    | Flagged(a: Call, k: string, v: nat)
    | Snapped(a: Call, k: string, v: nat, snap: seq<Candle>)
    | NeedSpill(a: Call, k: string, v: nat, snap: seq<Candle>)
    | SpillFailed(a: Call, k: string, v: nat)
    | Rejecting(a: Call)
    | NeedRemove(a: Call, k: string, v: nat)
    | NeedInsert(a: Call)
    | Inserted(a: Call, e: nat)
    // signal_waiters and snapshot
    | Signalling
    | VersionRead(v: nat, acks: nat)
    | SnapshotDone(total: nat, acks: nat)
    // range
    | RangeLookup(q: Query)
    | RangeHot(q: Query, found: Option<nat>)
    | RangeCold(q: Query, h: HotRead)
    | RangeFiles(q: Query, h: HotRead, base: Dir)
    | RangeDone(q: Query, h: HotRead, files: Dir, cold: seq<Candle>, out: seq<Candle>)

  datatype State = State(
    hot: map<string, nat>, entries: seq<Entry>, cold: map<string, Dir>, threads: seq<Thread>,
    mapOwner: Option<nat>,
    version: nat, signals: nat, tick: nat, evictions: nat,
    published: nat, attempts: nat, acked: seq<Ack>)

  /** The ring contents of an entry. */
  function Window(cfg: Config, e: Entry): seq<Candle> { LastN(e.hist, cfg.cap) }

  /** The map points to entry `e`. */
  predicate Live(s: State, e: nat) {
    e < |s.entries| && s.entries[e].sym in s.hot && s.hot[s.entries[e].sym] == e
  }

  ghost predicate Init(cfg: Config, s: State) {
    && s.hot == map[] && s.entries == [] && s.mapOwner == None
    && (forall t :: 0 <= t < |s.threads| ==> s.threads[t] == Idle)
    && (forall d :: d in s.cold ==> HonestDir(s.cold[d]))
    && s.version == s.signals == s.tick == s.evictions == s.published == s.attempts == 0
    && s.acked == []
  }

  // ----- steps -----

  datatype Move =
    | BeginAppend(sym: string, c: Candle) | TakeTick | Lookup | Touch
    | TakeBuf | CheckFlag | Push | DropBuf | Bump | Retry
    | TakeMap | FoundInMap | PickVictim(k: string) | NoVictim | TakeVictim | Flag | Snap | DropVictim
    | SpillOk(dir: Dir) | SpillErr(left: Option<Dir>) | ClearFlag | Reject | Remove | Insert | DropMap
    | Signal | PublishSignal | ReadVersion | ReadSignals
    | BeginRange(sym: string, from: I64, to: I64) | FindEntry | ReadHot | SkipCold | ListFiles
    | ReadCold(files: Dir, cold: seq<Candle>) | End

  function Go(s: State, t: nat, th: Thread): State
    requires t < |s.threads|
  {
    s.(threads := s.threads[t := th])
  }

  function SetEntry(s: State, e: nat, x: Entry): State
    requires e < |s.entries|
  {
    s.(entries := s.entries[e := x])
  }

  /** The call after one more step of its own. */
  function Did(a: Call): Call { a.(steps := a.steps + 1) }

  // try_append: validation, tick, lookup under the map read lock

  ghost predicate DoBeginAppend(s: State, t: nat, sym: string, c: Candle, s2: State) {
    t < |s.threads| && s.threads[t].Idle? &&
    s2 == if c.IsValid() then Go(s, t, NeedTick(Call(sym, c, 0, s.attempts, 0, 0))) else s
  }

  ghost predicate DoTakeTick(s: State, t: nat, s2: State) {
    t < |s.threads| && s.threads[t].NeedTick? &&
    s2 == Go(s, t, NeedLookup(Did(s.threads[t].a).(tick := s.tick))).(tick := s.tick + 1)
  }

  ghost predicate DoLookup(s: State, t: nat, s2: State) {
    t < |s.threads| && s.threads[t].NeedLookup? && s.mapOwner.None? &&
    var a := s.threads[t].a;
    s2 == Go(s, t, if a.sym in s.hot then NeedTouch(Did(a), s.hot[a.sym], s.attempts) else NeedMap(Did(a)))
  }

  ghost predicate DoTouch(s: State, t: nat, s2: State) {
    t < |s.threads| && s.threads[t].NeedTouch? && s.threads[t].e < |s.entries| &&
    var th := s.threads[t];
    s2 == SetEntry(Go(s, t, NeedBuf(Did(th.a), th.e, th.at)), th.e, s.entries[th.e].(lastAccess := th.a.tick))
  }

  // push_and_publish

  ghost predicate DoTakeBuf(s: State, t: nat, s2: State) {
    t < |s.threads| && s.threads[t].NeedBuf? && s.threads[t].e < |s.entries| &&
    var th := s.threads[t];
    s.entries[th.e].owner.None? &&
    s2 == SetEntry(Go(s, t, HaveBuf(Did(th.a), th.e, th.at)), th.e, s.entries[th.e].(owner := Some(t)))
  }

  ghost predicate DoCheckFlag(s: State, t: nat, s2: State) {
    t < |s.threads| && s.threads[t].HaveBuf? && s.threads[t].e < |s.entries| &&
    var th := s.threads[t];
    s2 == Go(s, t, if s.entries[th.e].removed then MustRetry(Did(th.a), th.e, th.at) else MayPush(Did(th.a), th.e))
  }

  ghost predicate DoPush(s: State, t: nat, s2: State) {
    t < |s.threads| && s.threads[t].MayPush? && s.threads[t].e < |s.entries| &&
    var th := s.threads[t];
    var x := s.entries[th.e];
    s2 == SetEntry(Go(s, t, Pushed(Did(th.a), th.e, |x.hist|)), th.e,
                   x.(hist := x.hist + [th.a.c], fate := x.fate + [InFlight(t)]))
  }

  ghost predicate DoDropBuf(s: State, t: nat, s2: State) {
    t < |s.threads| && s.threads[t].Pushed? && s.threads[t].e < |s.entries| &&
    var th := s.threads[t];
    s2 == SetEntry(Go(s, t, MustBump(Did(th.a), th.e, th.i)), th.e, s.entries[th.e].(owner := None))
  }

  ghost predicate DoBump(s: State, t: nat, s2: State) {
    t < |s.threads| && s.threads[t].MustBump? && s.threads[t].e < |s.entries| &&
    var th := s.threads[t];
    var x := s.entries[th.e];
    th.i < |x.fate| &&
    s2 == SetEntry(Go(s, t, Idle), th.e, x.(fate := x.fate[th.i := Acked(|s.acked|)]))
          .(version := s.version + 1, acked := s.acked + [Ack(th.a.sym, th.a.c, th.e, th.i)])
  }

  ghost predicate DoRetry(s: State, t: nat, s2: State) {
    t < |s.threads| && s.threads[t].MustRetry? && s.threads[t].e < |s.entries| &&
    var th := s.threads[t];
    s2 == SetEntry(Go(s, t, NeedMap(Did(th.a).(retries := th.a.retries + 1))), th.e, s.entries[th.e].(owner := None))
  }

  // try_insert_new: race check under the map write lock, choice of a victim

  ghost predicate DoTakeMap(s: State, t: nat, s2: State) {
    t < |s.threads| && s.threads[t].NeedMap? && s.mapOwner.None? &&
    s2 == Go(s, t, HaveMap(Did(s.threads[t].a))).(mapOwner := Some(t))
  }

  ghost predicate DoFoundInMap(s: State, t: nat, s2: State) {
    t < |s.threads| && s.threads[t].HaveMap? &&
    var a := s.threads[t].a;
    a.sym in s.hot && s2 == Go(s, t, NeedTouch(Did(a), s.hot[a.sym], s.attempts)).(mapOwner := None)
  }

  /** The minimum scan races with `last_access` stores, so any mapped symbol may come out of it. */
  ghost predicate DoPickVictim(cfg: Config, s: State, t: nat, k: string, s2: State) {
    t < |s.threads| && s.threads[t].HaveMap? &&
    var a := s.threads[t].a;
    a.sym !in s.hot && |s.hot| >= cfg.maxSymbols && k in s.hot && s2 == Go(s, t, NeedVictim(Did(a), k, s.hot[k]))
  }

  ghost predicate DoNoVictim(cfg: Config, s: State, t: nat, s2: State) {
    t < |s.threads| && s.threads[t].HaveMap? &&
    var a := s.threads[t].a;
    a.sym !in s.hot && (|s.hot| < cfg.maxSymbols || |s.hot| == 0) && s2 == Go(s, t, NeedInsert(Did(a)))
  }

  // eviction: flag and snapshot under one ring lock, spill, then remove

  ghost predicate DoTakeVictim(s: State, t: nat, s2: State) {
    t < |s.threads| && s.threads[t].NeedVictim? && s.threads[t].v < |s.entries| &&
    var th := s.threads[t];
    s.entries[th.v].owner.None? &&
    s2 == SetEntry(Go(s, t, HaveVictim(Did(th.a), th.k, th.v)), th.v, s.entries[th.v].(owner := Some(t)))
  }

  ghost predicate DoFlag(s: State, t: nat, s2: State) {
    t < |s.threads| && s.threads[t].HaveVictim? && s.threads[t].v < |s.entries| &&
    var th := s.threads[t];
    s2 == SetEntry(Go(s, t, Flagged(Did(th.a), th.k, th.v)), th.v, s.entries[th.v].(removed := true))
          .(attempts := s.attempts + 1)
  }

  ghost predicate DoSnap(cfg: Config, s: State, t: nat, s2: State) {
    t < |s.threads| && s.threads[t].Flagged? && s.threads[t].v < |s.entries| &&
    var th := s.threads[t];
    s2 == Go(s, t, Snapped(Did(th.a), th.k, th.v, Window(cfg, s.entries[th.v])))
  }

  ghost predicate DoDropVictim(cfg: Config, s: State, t: nat, s2: State) {
    t < |s.threads| && s.threads[t].Snapped? && s.threads[t].v < |s.entries| &&
    var th := s.threads[t];
    s2 == SetEntry(Go(s, t, if th.snap != [] && cfg.dataDir then NeedSpill(Did(th.a), th.k, th.v, th.snap)
                            else NeedRemove(Did(th.a), th.k, th.v)), th.v, s.entries[th.v].(owner := None))
  }

  ghost predicate DoSpillOk(s: State, t: nat, dir: Dir, s2: State) {
    t < |s.threads| && s.threads[t].NeedSpill? &&
    var th := s.threads[t];
    Spilled(DirOf(s.cold, th.k), th.snap, dir) &&
    s2 == Go(s, t, NeedRemove(Did(th.a), th.k, th.v)).(cold := s.cold[EscapeSymbol(th.k) := dir])
  }

  /** A failing spill may leave its file behind, with or without a footer, under a name that was free. */
  ghost predicate DoSpillErr(s: State, t: nat, left: Option<Dir>, s2: State) {
    t < |s.threads| && s.threads[t].NeedSpill? &&
    var th := s.threads[t];
    (left.Some? ==> LeftBehind(DirOf(s.cold, th.k), th.snap, left.value)) &&
    s2 == Go(s, t, SpillFailed(Did(th.a), th.k, th.v))
          .(cold := if left.None? then s.cold else s.cold[EscapeSymbol(th.k) := left.value])
  }

  ghost predicate DoClearFlag(s: State, t: nat, s2: State) {
    t < |s.threads| && s.threads[t].SpillFailed? && s.threads[t].v < |s.entries| &&
    var th := s.threads[t];
    s2 == SetEntry(Go(s, t, Rejecting(Did(th.a))), th.v, s.entries[th.v].(removed := false))
  }

  ghost predicate DoReject(s: State, t: nat, s2: State) {
    t < |s.threads| && s.threads[t].Rejecting? && s2 == Go(s, t, Idle).(mapOwner := None)
  }

  ghost predicate DoRemove(s: State, t: nat, s2: State) {
    t < |s.threads| && s.threads[t].NeedRemove? &&
    var th := s.threads[t];
    s2 == Go(s, t, NeedInsert(Did(th.a))).(hot := s.hot - {th.k}, evictions := s.evictions + 1)
  }

  ghost predicate DoInsert(s: State, t: nat, s2: State) {
    t < |s.threads| && s.threads[t].NeedInsert? &&
    var a := s.threads[t].a;
    s2 == Go(s, t, Inserted(Did(a), |s.entries|))
          .(entries := s.entries + [Entry(a.sym, [a.c], [InFlight(t)], false, None, a.tick)],
            hot := s.hot[a.sym := |s.entries|])
  }

  ghost predicate DoDropMap(s: State, t: nat, s2: State) {
    t < |s.threads| && s.threads[t].Inserted? &&
    s2 == Go(s, t, MustBump(Did(s.threads[t].a), s.threads[t].e, 0)).(mapOwner := None)
  }

  // signal_waiters, snapshot

  ghost predicate DoSignal(s: State, t: nat, s2: State) {
    t < |s.threads| && s.threads[t].Idle? && s2 == Go(s, t, Signalling).(signals := s.signals + 1)
  }

  ghost predicate DoPublishSignal(s: State, t: nat, s2: State) {
    t < |s.threads| && s.threads[t].Signalling? &&
    s2 == Go(s, t, Idle).(version := s.version + 1, published := s.published + 1)
  }

  ghost predicate DoReadVersion(s: State, t: nat, s2: State) {
    t < |s.threads| && s.threads[t].Idle? && s2 == Go(s, t, VersionRead(s.version, |s.acked|))
  }

  ghost predicate DoReadSignals(s: State, t: nat, s2: State) {
    t < |s.threads| && s.threads[t].VersionRead? &&
    var th := s.threads[t];
    s2 == Go(s, t, SnapshotDone(if th.v >= s.signals then th.v - s.signals else 0, th.acks))
  }

  ghost predicate DoEnd(s: State, t: nat, s2: State) {
    t < |s.threads| && (s.threads[t].SnapshotDone? || s.threads[t].RangeDone?) && s2 == Go(s, t, Idle)
  }

  // range

  ghost predicate DoBeginRange(s: State, t: nat, sym: string, from: I64, to: I64, s2: State) {
    t < |s.threads| && s.threads[t].Idle? && s2 == Go(s, t, RangeLookup(Query(sym, from, to, |s.acked|)))
  }

  ghost predicate DoFindEntry(s: State, t: nat, s2: State) {
    t < |s.threads| && s.threads[t].RangeLookup? && s.mapOwner.None? &&
    var q := s.threads[t].q;
    s2 == Go(s, t, RangeHot(q, if q.sym in s.hot then Some(s.hot[q.sym]) else None))
  }

  ghost predicate DoReadHot(cfg: Config, s: State, t: nat, s2: State) {
    t < |s.threads| && s.threads[t].RangeHot? &&
    var q, found := s.threads[t].q, s.threads[t].found;
    (found.Some? ==> found.value < |s.entries| && s.entries[found.value].owner.None?) &&
    s2 == Go(s, t, RangeCold(q, if found.None? then HotRead(None, 0, []) else
                                var x := s.entries[found.value];
                                HotRead(found, |x.hist|, RangeBlock(Window(cfg, x), q.from, q.to))))
  }

  ghost predicate DoSkipCold(cfg: Config, s: State, t: nat, s2: State) {
    t < |s.threads| && s.threads[t].RangeCold? && !cfg.dataDir &&
    var th := s.threads[t];
    s2 == Go(s, t, RangeDone(th.q, th.h, map[], [], th.h.hot))
  }

  ghost predicate DoListFiles(cfg: Config, s: State, t: nat, s2: State) {
    t < |s.threads| && s.threads[t].RangeCold? && cfg.dataDir &&
    var th := s.threads[t];
    s2 == Go(s, t, RangeFiles(th.q, th.h, DirOf(s.cold, th.q.sym)))
  }

  /** A listing shows every file that was there when it began, and perhaps some added since. */
  ghost predicate DoReadCold(s: State, t: nat, files: Dir, cold: seq<Candle>, s2: State) {
    t < |s.threads| && s.threads[t].RangeFiles? &&
    var th := s.threads[t];
    SubDir(th.base, files) && SubDir(files, DirOf(s.cold, th.q.sym)) &&
    IsColdAnswer(files, th.q.from, th.q.to, cold) &&
    s2 == Go(s, t, RangeDone(th.q, th.h, files, cold, Combine(cold, th.h.hot)))
  }

  // the steps in groups

  predicate IsAppendMove(m: Move) {
    m.Lookup? || m.Touch? || m.TakeBuf? || m.CheckFlag? || m.DropBuf? || m.Bump? || m.Retry?
  }

  predicate IsMapMove(m: Move) {
    m.TakeMap? || m.FoundInMap? || m.PickVictim? || m.NoVictim? || m.Reject? || m.DropMap?
  }

  predicate IsVictimMove(m: Move) {
    m.TakeVictim? || m.Snap? || m.DropVictim?
  }

  predicate IsDataMove(m: Move) {
    m.Push? || m.Flag? || m.ClearFlag? || m.SpillOk? || m.SpillErr? || m.Remove? || m.Insert?
  }

  predicate IsCountMove(m: Move) {
    m.BeginAppend? || m.TakeTick? || m.Signal? || m.PublishSignal? || m.ReadVersion? || m.ReadSignals? || m.End?
  }

  predicate IsRangeMove(m: Move) {
    m.BeginRange? || m.FindEntry? || m.ReadHot? || m.SkipCold? || m.ListFiles? || m.ReadCold?
  }

  /** Steps that have to do with appends on their way to a ring, and back. */
  ghost predicate AppendStep(cfg: Config, s: State, t: nat, m: Move, s2: State) {
    match m
    case Lookup => DoLookup(s, t, s2)
    case Touch => DoTouch(s, t, s2)
    case TakeBuf => DoTakeBuf(s, t, s2)
    case CheckFlag => DoCheckFlag(s, t, s2)
    case DropBuf => DoDropBuf(s, t, s2)
    case Bump => DoBump(s, t, s2)
    case Retry => DoRetry(s, t, s2)
    case _ => false
  }

  /** Steps that have to do with the map lock. */
  ghost predicate MapStep(cfg: Config, s: State, t: nat, m: Move, s2: State) {
    match m
    case TakeMap => DoTakeMap(s, t, s2)
    case FoundInMap => DoFoundInMap(s, t, s2)
    case PickVictim(k) => DoPickVictim(cfg, s, t, k, s2)
    case NoVictim => DoNoVictim(cfg, s, t, s2)
    case Reject => DoReject(s, t, s2)
    case DropMap => DoDropMap(s, t, s2)
    case _ => false
  }

  /** Steps that have to do with the victim's ring lock. */
  ghost predicate VictimStep(cfg: Config, s: State, t: nat, m: Move, s2: State) {
    match m
    case TakeVictim => DoTakeVictim(s, t, s2)
    case Snap => DoSnap(cfg, s, t, s2)
    case DropVictim => DoDropVictim(cfg, s, t, s2)
    case _ => false
  }

  /** Steps that have to do with changes of rings, flags, files and the map. */
  ghost predicate DataStep(cfg: Config, s: State, t: nat, m: Move, s2: State) {
    match m
    case Push => DoPush(s, t, s2)
    case Flag => DoFlag(s, t, s2)
    case ClearFlag => DoClearFlag(s, t, s2)
    case SpillOk(dir) => DoSpillOk(s, t, dir, s2)
    case SpillErr(left) => DoSpillErr(s, t, left, s2)
    case Remove => DoRemove(s, t, s2)
    case Insert => DoInsert(s, t, s2)
    case _ => false
  }

  /** Steps that have to do with beginning, ending, ticking, signalling and counting. */
  ghost predicate CountStep(cfg: Config, s: State, t: nat, m: Move, s2: State) {
    match m
    case BeginAppend(sym, c) => DoBeginAppend(s, t, sym, c, s2)
    case TakeTick => DoTakeTick(s, t, s2)
    case Signal => DoSignal(s, t, s2)
    case PublishSignal => DoPublishSignal(s, t, s2)
    case ReadVersion => DoReadVersion(s, t, s2)
    case ReadSignals => DoReadSignals(s, t, s2)
    case End => DoEnd(s, t, s2)
    case _ => false
  }

  /** Steps that have to do with range queries. */
  ghost predicate RangeStep(cfg: Config, s: State, t: nat, m: Move, s2: State) {
    match m
    case BeginRange(sym, from, to) => DoBeginRange(s, t, sym, from, to, s2)
    case FindEntry => DoFindEntry(s, t, s2)
    case ReadHot => DoReadHot(cfg, s, t, s2)
    case SkipCold => DoSkipCold(cfg, s, t, s2)
    case ListFiles => DoListFiles(cfg, s, t, s2)
    case ReadCold(files, cold) => DoReadCold(s, t, files, cold, s2)
    case _ => false
  }

  ghost predicate Step(cfg: Config, s: State, t: nat, m: Move, s2: State) {
    if IsAppendMove(m) then AppendStep(cfg, s, t, m, s2)
    else if IsMapMove(m) then MapStep(cfg, s, t, m, s2)
    else if IsVictimMove(m) then VictimStep(cfg, s, t, m, s2)
    else if IsDataMove(m) then DataStep(cfg, s, t, m, s2)
    else if IsCountMove(m) then CountStep(cfg, s, t, m, s2)
    else RangeStep(cfg, s, t, m, s2)
  }

  /** Move `i` of the run leads from its state `i` to its state `i + 1`. */
  ghost predicate StepAt(cfg: Config, run: seq<State>, who: seq<nat>, moves: seq<Move>, i: nat)
    requires |run| == |moves| + 1 && |who| == |moves| && i < |moves|
  {
    Step(cfg, run[i], who[i], moves[i], run[i + 1])
  }

  ghost predicate IsRun(cfg: Config, run: seq<State>, who: seq<nat>, moves: seq<Move>) {
    && |run| == |moves| + 1 && |who| == |moves| && Init(cfg, run[0])
    && forall i: nat :: i < |moves| ==> StepAt(cfg, run, who, moves, i)
  }
}
