/** What every step of the store protocol keeps. */
module StoreInvariant {
  import opened Candles
  import opened RingBuffers
  import opened ColdNames
  import opened ColdStore
  import opened StoreProtocol

  // ----- locks -----

  predicate HoldsMap(th: Thread) {
    th.HaveMap? || th.NeedVictim? || th.HaveVictim? || th.Flagged? || th.Snapped? || th.NeedSpill? ||
    th.SpillFailed? || th.Rejecting? || th.NeedRemove? || th.NeedInsert? || th.Inserted?
  }

  /** The entry whose ring lock the thread holds. */
  function BufHeld(th: Thread): Option<nat> {
    match th
    case HaveBuf(_, e, _) => Some(e)
    case MayPush(_, e) => Some(e)
    case Pushed(_, e, _) => Some(e)
    case MustRetry(_, e, _) => Some(e)
    case HaveVictim(_, _, v) => Some(v)
    case Flagged(_, _, v) => Some(v)
    case Snapped(_, _, v, _) => Some(v)
    case _ => None
  }

  /** Each lock is held by exactly the thread whose program counter says so. */
  ghost predicate LocksOk(s: State) {
    && (forall t: nat :: t < |s.threads| ==> (HoldsMap(s.threads[t]) <==> s.mapOwner == Some(t)))
    && (s.mapOwner.Some? ==> s.mapOwner.value < |s.threads|)
    && (forall t: nat, e: nat :: t < |s.threads| && e < |s.entries| ==>
          (BufHeld(s.threads[t]) == Some(e) <==> s.entries[e].owner == Some(t)))
    && (forall e: nat :: e < |s.entries| && s.entries[e].owner.Some? ==> s.entries[e].owner.value < |s.threads|)
    && (forall t: nat :: t < |s.threads| && BufHeld(s.threads[t]).Some? ==> BufHeld(s.threads[t]).value < |s.entries|)
  }

  /** Only thread `t` changed its program counter. */
  ghost predicate Moved(s: State, t: nat, s2: State) {
    && t < |s.threads| == |s2.threads|
    && forall u: nat :: u < |s.threads| && u != t ==> s2.threads[u] == s.threads[u]
  }

  /** Entries `s` had keep their ring-lock owners, apart from `except`; new ones are unlocked. */
  ghost predicate SameOwners(s: State, s2: State, except: Option<nat>) {
    && |s.entries| <= |s2.entries|
    && (forall e: nat :: e < |s.entries| && except != Some(e) ==> s2.entries[e].owner == s.entries[e].owner)
    && (forall e: nat :: |s.entries| <= e < |s2.entries| ==> s2.entries[e].owner.None?)
  }

  lemma NoLockMoved(s: State, t: nat, s2: State)
    requires LocksOk(s) && Moved(s, t, s2) && SameOwners(s, s2, None) && s2.mapOwner == s.mapOwner
    requires HoldsMap(s2.threads[t]) == HoldsMap(s.threads[t]) && BufHeld(s2.threads[t]) == BufHeld(s.threads[t])
    ensures LocksOk(s2)
  {
  }

  lemma MapLockMoved(s: State, t: nat, s2: State)
    requires LocksOk(s) && Moved(s, t, s2) && SameOwners(s, s2, None) && |s2.entries| == |s.entries|
    requires s.mapOwner == None || s.mapOwner == Some(t)
    requires s2.mapOwner == if HoldsMap(s2.threads[t]) then Some(t) else None
    requires BufHeld(s2.threads[t]) == BufHeld(s.threads[t])
    ensures LocksOk(s2)
  {
  }

  lemma BufLockMoved(s: State, t: nat, e: nat, s2: State)
    requires LocksOk(s) && Moved(s, t, s2) && SameOwners(s, s2, Some(e)) && e < |s.entries| == |s2.entries|
    requires s2.mapOwner == s.mapOwner && HoldsMap(s2.threads[t]) == HoldsMap(s.threads[t])
    requires s.entries[e].owner == None || s.entries[e].owner == Some(t)
    requires BufHeld(s.threads[t]) == None || BufHeld(s.threads[t]) == Some(e)
    requires BufHeld(s2.threads[t]) == None || BufHeld(s2.threads[t]) == Some(e)
    requires s2.entries[e].owner == if BufHeld(s2.threads[t]) == Some(e) then Some(t) else None
    ensures LocksOk(s2)
  {
  }

  // ----- map, flags and files -----

  /** The entry a thread is evicting, from the flag until the removal or the cleared flag. */
  function Evicting(th: Thread): Option<nat> {
    match th
    case Flagged(_, _, v) => Some(v)
    case Snapped(_, _, v, _) => Some(v)
    case NeedSpill(_, _, v, _) => Some(v)
    case SpillFailed(_, _, v) => Some(v)
    case NeedRemove(_, _, v) => Some(v)
    case _ => None
  }

  /** The entry being evicted by whoever holds the map lock. */
  function EvictedNow(s: State): Option<nat> {
    if s.mapOwner.Some? && s.mapOwner.value < |s.threads| then Evicting(s.threads[s.mapOwner.value]) else None
  }

  /** The ring contents of entry `e` are in one cold file of its symbol. */
  ghost predicate Archived(cfg: Config, s: State, e: nat)
    requires e < |s.entries|
  {
    HasFile(DirOf(s.cold, s.entries[e].sym), Window(cfg, s.entries[e]))
  }

  ghost predicate EntriesOk(cfg: Config, s: State) {
    && (forall k :: k in s.hot ==> s.hot[k] < |s.entries| && s.entries[s.hot[k]].sym == k)
    && (forall e: nat :: e < |s.entries| ==> |s.entries[e].hist| > 0)
    // an entry that left the map is flagged for good and its contents are on disk
    && (forall e: nat :: e < |s.entries| && !Live(s, e) ==>
          s.entries[e].removed && (cfg.dataDir ==> Archived(cfg, s, e)))
    // a mapped entry is flagged only while it is being evicted
    && (forall e: nat :: e < |s.entries| && Live(s, e) && s.entries[e].removed ==> EvictedNow(s) == Some(e))
  }

  ghost predicate SizeOk(cfg: Config, s: State) {
    && |s.hot| <= (if cfg.maxSymbols == 0 then 1 else cfg.maxSymbols)
    && |s.entries| == |s.hot| + s.evictions
  }

  ghost predicate ColdOk(s: State) {
    forall d :: d in s.cold ==> HonestDir(s.cold[d])
  }

  /** The entry an append is working on: the one it found, or the one it inserted. */
  function Target(th: Thread): Option<nat> {
    match th
    case NeedTouch(_, e, _) => Some(e)
    case NeedBuf(_, e, _) => Some(e)
    case HaveBuf(_, e, _) => Some(e)
    case MustRetry(_, e, _) => Some(e)
    case MayPush(_, e) => Some(e)
    case Pushed(_, e, _) => Some(e)
    case MustBump(_, e, _) => Some(e)
    case Inserted(_, e) => Some(e)
    case _ => None
  }

  /** The number of eviction attempts when an append that has not yet pushed looked its entry up. */
  function LookedUpAt(th: Thread): Option<nat> {
    match th
    case NeedTouch(_, _, at) => Some(at)
    case NeedBuf(_, _, at) => Some(at)
    case HaveBuf(_, _, at) => Some(at)
    case MustRetry(_, _, at) => Some(at)
    case _ => None
  }

  /** The position of a push whose append has not returned yet. */
  function PushedAt(th: Thread): Option<nat> {
    match th
    case Pushed(_, _, i) => Some(i)
    case MustBump(_, _, i) => Some(i)
    case Inserted(_, _) => Some(0)
    case _ => None
  }

  /** The chosen victim, from the choice until its removal or the failed spill. */
  function Victim(th: Thread): Option<nat> {
    match th
    case NeedVictim(_, _, v) => Some(v)
    case HaveVictim(_, _, v) => Some(v)
    case _ => Evicting(th)
  }

  ghost predicate TargetOk(s: State, th: Thread) {
    Target(th).Some? ==>
      var e := Target(th).value;
      && e < |s.entries| && s.entries[e].sym == th.a.sym
      // a flag seen after the lookup was set after the lookup
      && (LookedUpAt(th).Some? ==>
            LookedUpAt(th).value <= s.attempts - (if s.entries[e].removed || th.MustRetry? then 1 else 0))
      && (th.MayPush? ==> !s.entries[e].removed)
      && (PushedAt(th).Some? ==>
            PushedAt(th).value < |s.entries[e].hist| && s.entries[e].hist[PushedAt(th).value] == th.a.c)
  }

  ghost predicate VictimOk(cfg: Config, s: State, th: Thread) {
    Victim(th).Some? ==>
      var v := Victim(th).value;
      && v < |s.entries| && th.k in s.hot && s.hot[th.k] == v && th.a.sym !in s.hot && |s.hot| >= cfg.maxSymbols
      && (s.entries[v].removed <==> Evicting(th).Some?)
      && (th.Snapped? || th.NeedSpill? ==> th.snap == Window(cfg, s.entries[v]))
      && (th.NeedRemove? && cfg.dataDir ==> Archived(cfg, s, v))
  }

  ghost predicate ThreadOk(cfg: Config, s: State, th: Thread) {
    && TargetOk(s, th) && VictimOk(cfg, s, th)
    && (th.NeedSpill? ==> cfg.dataDir)
    && (th.NeedInsert? ==> th.a.sym !in s.hot && (|s.hot| < cfg.maxSymbols || |s.hot| == 0))
  }

  ghost predicate Core(cfg: Config, s: State) {
    && LocksOk(s) && EntriesOk(cfg, s) && SizeOk(cfg, s) && ColdOk(s)
    && forall t: nat :: t < |s.threads| ==> ThreadOk(cfg, s, s.threads[t])
  }

  lemma InitCore(cfg: Config, s: State)
    requires cfg.cap > 0 && Init(cfg, s)
    ensures Core(cfg, s)
  {
  }

  // ----- frames: what a change of shared state means for everyone else -----

  /** Nothing the protocol invariant looks at changed in map, rings, flags or files. */
  ghost predicate SameView(s: State, s2: State) {
    && s2.hot == s.hot && s2.cold == s.cold && s2.attempts == s.attempts && |s2.entries| == |s.entries|
    && forall e: nat :: e < |s.entries| ==>
         s2.entries[e].sym == s.entries[e].sym && s2.entries[e].hist == s.entries[e].hist &&
         s2.entries[e].removed == s.entries[e].removed
  }

  lemma SameViewThread(cfg: Config, s: State, s2: State, th: Thread)
    requires SameView(s, s2) && ThreadOk(cfg, s, th)
    ensures ThreadOk(cfg, s2, th)
  {
  }

  lemma SameViewEntries(cfg: Config, s: State, s2: State)
    requires SameView(s, s2) && EntriesOk(cfg, s) && EvictedNow(s2) == EvictedNow(s)
    ensures EntriesOk(cfg, s2)
  {
    forall e: nat | e < |s2.entries|
      ensures Live(s2, e) <==> Live(s, e)
      ensures Archived(cfg, s2, e) <==> Archived(cfg, s, e)
    {
    }
  }

  /** A step that moves only locks, counters and its own program counter. */
  ghost predicate Quiet(cfg: Config, s: State, t: nat, s2: State) {
    && Moved(s, t, s2) && SameView(s, s2) && s2.evictions == s.evictions
    && LocksOk(s2) && EvictedNow(s2) == EvictedNow(s) && ThreadOk(cfg, s2, s2.threads[t])
  }

  lemma QuietKeepsCore(cfg: Config, s: State, t: nat, s2: State)
    requires Core(cfg, s) && Quiet(cfg, s, t, s2)
    ensures Core(cfg, s2)
  {
    SameViewEntries(cfg, s, s2);
    forall u: nat | u < |s2.threads|
      ensures ThreadOk(cfg, s2, s2.threads[u])
    {
      if u != t { SameViewThread(cfg, s, s2, s2.threads[u]); }
    }
  }

  /** What the map says of `k` whenever nobody is evicting. */
  ghost predicate MappedOk(s: State, k: string) {
    k in s.hot ==> s.hot[k] < |s.entries| && s.entries[s.hot[k]].sym == k && !s.entries[s.hot[k]].removed
  }

  lemma MappedIsOk(cfg: Config, s: State, k: string)
    requires EntriesOk(cfg, s) && EvictedNow(s).None?
    ensures MappedOk(s, k)
  {
    assert k in s.hot ==> Live(s, s.hot[k]);
  }

  // ----- quiet steps -----

  lemma LookupLocks(cfg: Config, s: State, t: nat, s2: State)
    requires DoLookup(s, t, s2) && LocksOk(s)
    ensures LocksOk(s2) && EvictedNow(s2) == EvictedNow(s)
  {
    NoLockMoved(s, t, s2);
  }

  lemma LookupIsQuiet(cfg: Config, s: State, t: nat, s2: State)
    requires DoLookup(s, t, s2) && LocksOk(s) && ThreadOk(cfg, s, s.threads[t])
    requires MappedOk(s, s.threads[t].a.sym)
    ensures Quiet(cfg, s, t, s2)
  {
    assert SameView(s, s2);
    LookupLocks(cfg, s, t, s2);
  }

  lemma SameEviction(s: State, t: nat, s2: State)
    requires Moved(s, t, s2) && s2.mapOwner == s.mapOwner && Evicting(s2.threads[t]) == Evicting(s.threads[t])
    ensures EvictedNow(s2) == EvictedNow(s)
  {
  }

  lemma TouchLocks(s: State, t: nat, s2: State)
    requires DoTouch(s, t, s2) && LocksOk(s)
    ensures LocksOk(s2) && EvictedNow(s2) == EvictedNow(s)
  {
    NoLockMoved(s, t, s2);
  }

  lemma TouchIsQuiet(cfg: Config, s: State, t: nat, s2: State)
    requires DoTouch(s, t, s2) && LocksOk(s) && ThreadOk(cfg, s, s.threads[t])
    ensures Quiet(cfg, s, t, s2)
  {
    assert SameView(s, s2);
    TouchLocks(s, t, s2);
  }

  lemma TakeBufLocks(cfg: Config, s: State, t: nat, s2: State)
    requires DoTakeBuf(s, t, s2) && LocksOk(s)
    ensures LocksOk(s2) && EvictedNow(s2) == EvictedNow(s)
  {
    BufLockMoved(s, t, s.threads[t].e, s2);
  }

  lemma TakeBufIsQuiet(cfg: Config, s: State, t: nat, s2: State)
    requires DoTakeBuf(s, t, s2) && LocksOk(s) && ThreadOk(cfg, s, s.threads[t])
    ensures Quiet(cfg, s, t, s2)
  {
    assert SameView(s, s2);
    TakeBufLocks(cfg, s, t, s2);
  }

  lemma CheckFlagLocks(s: State, t: nat, s2: State)
    requires DoCheckFlag(s, t, s2) && LocksOk(s)
    ensures LocksOk(s2) && EvictedNow(s2) == EvictedNow(s)
  {
    NoLockMoved(s, t, s2);
    SameEviction(s, t, s2);
  }

  lemma CheckFlagIsQuiet(cfg: Config, s: State, t: nat, s2: State)
    requires DoCheckFlag(s, t, s2) && LocksOk(s) && ThreadOk(cfg, s, s.threads[t])
    ensures Quiet(cfg, s, t, s2)
  {
    CheckFlagLocks(s, t, s2);
  }

  lemma DropBufLocks(cfg: Config, s: State, t: nat, s2: State)
    requires DoDropBuf(s, t, s2) && LocksOk(s)
    ensures LocksOk(s2) && EvictedNow(s2) == EvictedNow(s)
  {
    BufLockMoved(s, t, s.threads[t].e, s2);
  }

  lemma DropBufIsQuiet(cfg: Config, s: State, t: nat, s2: State)
    requires DoDropBuf(s, t, s2) && LocksOk(s) && ThreadOk(cfg, s, s.threads[t])
    ensures Quiet(cfg, s, t, s2)
  {
    assert SameView(s, s2);
    DropBufLocks(cfg, s, t, s2);
  }

  lemma BumpLocks(cfg: Config, s: State, t: nat, s2: State)
    requires DoBump(s, t, s2) && LocksOk(s)
    ensures LocksOk(s2) && EvictedNow(s2) == EvictedNow(s)
  {
    NoLockMoved(s, t, s2);
  }

  lemma BumpIsQuiet(cfg: Config, s: State, t: nat, s2: State)
    requires DoBump(s, t, s2) && LocksOk(s) && ThreadOk(cfg, s, s.threads[t])
    ensures Quiet(cfg, s, t, s2)
  {
    assert SameView(s, s2);
    BumpLocks(cfg, s, t, s2);
  }

  lemma RetryLocks(cfg: Config, s: State, t: nat, s2: State)
    requires DoRetry(s, t, s2) && LocksOk(s)
    ensures LocksOk(s2) && EvictedNow(s2) == EvictedNow(s)
  {
    BufLockMoved(s, t, s.threads[t].e, s2);
  }

  lemma RetryIsQuiet(cfg: Config, s: State, t: nat, s2: State)
    requires DoRetry(s, t, s2) && LocksOk(s) && ThreadOk(cfg, s, s.threads[t])
    ensures Quiet(cfg, s, t, s2)
  {
    assert SameView(s, s2);
    RetryLocks(cfg, s, t, s2);
  }

  lemma TakeMapLocks(cfg: Config, s: State, t: nat, s2: State)
    requires DoTakeMap(s, t, s2) && LocksOk(s)
    ensures LocksOk(s2) && EvictedNow(s2) == EvictedNow(s)
  {
    MapLockMoved(s, t, s2);
  }

  lemma TakeMapIsQuiet(cfg: Config, s: State, t: nat, s2: State)
    requires DoTakeMap(s, t, s2) && LocksOk(s) && ThreadOk(cfg, s, s.threads[t])
    ensures Quiet(cfg, s, t, s2)
  {
    assert SameView(s, s2);
    TakeMapLocks(cfg, s, t, s2);
  }

  lemma FoundInMapLocks(cfg: Config, s: State, t: nat, s2: State)
    requires DoFoundInMap(s, t, s2) && LocksOk(s)
    ensures LocksOk(s2) && EvictedNow(s2) == EvictedNow(s)
  {
    MapLockMoved(s, t, s2);
  }

  lemma FoundInMapIsQuiet(cfg: Config, s: State, t: nat, s2: State)
    requires DoFoundInMap(s, t, s2) && LocksOk(s) && ThreadOk(cfg, s, s.threads[t])
    requires MappedOk(s, s.threads[t].a.sym)
    ensures Quiet(cfg, s, t, s2)
  {
    assert SameView(s, s2);
    FoundInMapLocks(cfg, s, t, s2);
  }

  lemma PickVictimLocks(cfg: Config, s: State, t: nat, k: string, s2: State)
    requires DoPickVictim(cfg, s, t, k, s2) && LocksOk(s)
    ensures LocksOk(s2) && EvictedNow(s2) == EvictedNow(s)
  {
    NoLockMoved(s, t, s2);
  }

  lemma PickVictimIsQuiet(cfg: Config, s: State, t: nat, k: string, s2: State)
    requires DoPickVictim(cfg, s, t, k, s2) && LocksOk(s) && ThreadOk(cfg, s, s.threads[t]) && MappedOk(s, k)
    ensures Quiet(cfg, s, t, s2)
  {
    assert SameView(s, s2);
    PickVictimLocks(cfg, s, t, k, s2);
  }

  lemma NoVictimLocks(cfg: Config, s: State, t: nat, s2: State)
    requires DoNoVictim(cfg, s, t, s2) && LocksOk(s)
    ensures LocksOk(s2) && EvictedNow(s2) == EvictedNow(s)
  {
    NoLockMoved(s, t, s2);
  }

  lemma NoVictimIsQuiet(cfg: Config, s: State, t: nat, s2: State)
    requires DoNoVictim(cfg, s, t, s2) && LocksOk(s) && ThreadOk(cfg, s, s.threads[t])
    ensures Quiet(cfg, s, t, s2)
  {
    assert SameView(s, s2);
    NoVictimLocks(cfg, s, t, s2);
  }

  lemma TakeVictimLocks(cfg: Config, s: State, t: nat, s2: State)
    requires DoTakeVictim(s, t, s2) && LocksOk(s)
    ensures LocksOk(s2) && EvictedNow(s2) == EvictedNow(s)
  {
    BufLockMoved(s, t, s.threads[t].v, s2);
  }

  lemma TakeVictimIsQuiet(cfg: Config, s: State, t: nat, s2: State)
    requires DoTakeVictim(s, t, s2) && LocksOk(s) && ThreadOk(cfg, s, s.threads[t])
    ensures Quiet(cfg, s, t, s2)
  {
    assert SameView(s, s2);
    TakeVictimLocks(cfg, s, t, s2);
  }

  lemma SnapLocks(cfg: Config, s: State, t: nat, s2: State)
    requires DoSnap(cfg, s, t, s2) && LocksOk(s)
    ensures LocksOk(s2) && EvictedNow(s2) == EvictedNow(s)
  {
    NoLockMoved(s, t, s2);
    SameEviction(s, t, s2);
  }

  lemma SnapIsQuiet(cfg: Config, s: State, t: nat, s2: State)
    requires DoSnap(cfg, s, t, s2) && LocksOk(s) && ThreadOk(cfg, s, s.threads[t])
    ensures Quiet(cfg, s, t, s2)
  {
    assert SameView(s, s2);
    SnapLocks(cfg, s, t, s2);
  }

  lemma DropVictimLocks(cfg: Config, s: State, t: nat, s2: State)
    requires DoDropVictim(cfg, s, t, s2) && LocksOk(s)
    ensures LocksOk(s2) && EvictedNow(s2) == EvictedNow(s)
  {
    assert s.entries[s.threads[t].v].owner == Some(t);
    BufLockMoved(s, t, s.threads[t].v, s2);
    SameEviction(s, t, s2);
  }

  /** The snapshot of a live ring is never empty, so with a data directory it is always spilled. */
  lemma DropVictimIsQuiet(cfg: Config, s: State, t: nat, s2: State)
    requires DoDropVictim(cfg, s, t, s2) && LocksOk(s) && ThreadOk(cfg, s, s.threads[t]) && |s.threads[t].snap| > 0
    ensures Quiet(cfg, s, t, s2)
  {
    assert SameView(s, s2);
    DropVictimLocks(cfg, s, t, s2);
  }

  lemma RejectLocks(cfg: Config, s: State, t: nat, s2: State)
    requires DoReject(s, t, s2) && LocksOk(s)
    ensures LocksOk(s2) && EvictedNow(s2) == EvictedNow(s)
  {
    MapLockMoved(s, t, s2);
  }

  lemma RejectIsQuiet(cfg: Config, s: State, t: nat, s2: State)
    requires DoReject(s, t, s2) && LocksOk(s) && ThreadOk(cfg, s, s.threads[t])
    ensures Quiet(cfg, s, t, s2)
  {
    assert SameView(s, s2);
    RejectLocks(cfg, s, t, s2);
  }

  lemma DropMapLocks(cfg: Config, s: State, t: nat, s2: State)
    requires DoDropMap(s, t, s2) && LocksOk(s)
    ensures LocksOk(s2) && EvictedNow(s2) == EvictedNow(s)
  {
    MapLockMoved(s, t, s2);
  }

  lemma DropMapIsQuiet(cfg: Config, s: State, t: nat, s2: State)
    requires DoDropMap(s, t, s2) && LocksOk(s) && ThreadOk(cfg, s, s.threads[t])
    ensures Quiet(cfg, s, t, s2)
  {
    assert SameView(s, s2);
    DropMapLocks(cfg, s, t, s2);
  }

  /** Program counters that hold no lock and of which the protocol invariant says nothing. */
  predicate Unbound(th: Thread) {
    !HoldsMap(th) && BufHeld(th).None? && Target(th).None? && Victim(th).None?
  }

  /** Steps between such program counters that touch at most a counter. */
  lemma UnboundIsQuiet(cfg: Config, s: State, t: nat, s2: State)
    requires LocksOk(s) && Moved(s, t, s2) && Unbound(s.threads[t]) && Unbound(s2.threads[t])
    requires Untouched(s, s2)
    ensures Quiet(cfg, s, t, s2)
  {
    NoLockMoved(s, t, s2);
  }

  // ----- pushing -----

  /** Ring `e` grew by a candle while it was not flagged. */
  ghost predicate Grew(s: State, e: nat, c: Candle, s2: State) {
    && s2.hot == s.hot && s2.cold == s.cold && s2.attempts == s.attempts && e < |s2.entries| == |s.entries|
    && !s.entries[e].removed
    && s2.entries[e].sym == s.entries[e].sym && s2.entries[e].hist == s.entries[e].hist + [c] && !s2.entries[e].removed
    && forall f: nat :: f < |s.entries| && f != e ==> s2.entries[f] == s.entries[f]
  }

  lemma GrewThread(cfg: Config, s: State, e: nat, c: Candle, s2: State, th: Thread)
    requires Grew(s, e, c, s2) && ThreadOk(cfg, s, th)
    ensures ThreadOk(cfg, s2, th)
  {
  }

  lemma GrewEntries(cfg: Config, s: State, e: nat, c: Candle, s2: State)
    requires Grew(s, e, c, s2) && EntriesOk(cfg, s) && EvictedNow(s2) == EvictedNow(s)
    ensures EntriesOk(cfg, s2)
  {
    forall f: nat | f < |s2.entries|
      ensures Live(s2, f) <==> Live(s, f)
      ensures f != e ==> (Archived(cfg, s2, f) <==> Archived(cfg, s, f))
    {
    }
  }

  lemma PushLanded(cfg: Config, s: State, t: nat, s2: State)
    requires DoPush(s, t, s2) && LocksOk(s) && ThreadOk(cfg, s, s.threads[t])
    ensures Moved(s, t, s2) && Grew(s, s.threads[t].e, s.threads[t].a.c, s2) && LocksOk(s2)
    ensures EvictedNow(s2) == EvictedNow(s) && ThreadOk(cfg, s2, s2.threads[t])
  {
    NoLockMoved(s, t, s2);
  }

  /** A push lands only in a ring that is not flagged, hence in one that is still mapped. */
  lemma PushKeepsCore(cfg: Config, s: State, t: nat, s2: State)
    requires Core(cfg, s) && DoPush(s, t, s2)
    ensures Core(cfg, s2)
  {
    var e, c := s.threads[t].e, s.threads[t].a.c;
    PushLanded(cfg, s, t, s2);
    GrewEntries(cfg, s, e, c, s2);
    forall u: nat | u < |s2.threads|
      ensures ThreadOk(cfg, s2, s2.threads[u])
    {
      if u != t { GrewThread(cfg, s, e, c, s2, s2.threads[u]); }
    }
  }

  // ----- flagging -----

  /** Flag `v` was set to `value` by thread `t`, which holds the map lock. */
  ghost predicate Reflagged(s: State, v: nat, value: bool, s2: State) {
    && s2.hot == s.hot && s2.cold == s.cold && v < |s2.entries| == |s.entries|
    && s2.entries[v] == s.entries[v].(removed := value)
    && s2.attempts == s.attempts + (if value then 1 else 0)
    && forall f: nat :: f < |s.entries| && f != v ==> s2.entries[f] == s.entries[f]
  }

  lemma ReflaggedThread(cfg: Config, s: State, v: nat, value: bool, s2: State, th: Thread)
    requires Reflagged(s, v, value, s2) && ThreadOk(cfg, s, th) && !HoldsMap(th)
    requires value ==> BufHeld(th) != Some(v)
    ensures ThreadOk(cfg, s2, th)
  {
  }

  lemma ReflaggedEntries(cfg: Config, s: State, v: nat, value: bool, s2: State)
    requires Reflagged(s, v, value, s2) && EntriesOk(cfg, s) && Live(s, v)
    requires EvictedNow(s) == (if value then None else Some(v)) && EvictedNow(s2) == (if value then Some(v) else None)
    ensures EntriesOk(cfg, s2)
  {
    forall f: nat | f < |s2.entries|
      ensures Live(s2, f) <==> Live(s, f)
      ensures Archived(cfg, s2, f) <==> Archived(cfg, s, f)
    {
    }
  }

  /** Thread `t`, holding the map lock, set the flag of the mapped entry `v`, or cleared it. */
  ghost predicate Reflag(cfg: Config, s: State, t: nat, v: nat, value: bool, s2: State) {
    && Moved(s, t, s2) && Reflagged(s, v, value, s2) && s2.evictions == s.evictions
    && s2.mapOwner == s.mapOwner == Some(t) && Live(s, v) && LocksOk(s2)
    && (value ==> s.entries[v].owner == Some(t))
    && EvictedNow(s) == (if value then None else Some(v)) && EvictedNow(s2) == (if value then Some(v) else None)
    && ThreadOk(cfg, s2, s2.threads[t])
  }

  lemma ReflagKeepsCore(cfg: Config, s: State, t: nat, v: nat, value: bool, s2: State)
    requires Core(cfg, s) && Reflag(cfg, s, t, v, value, s2)
    ensures Core(cfg, s2)
  {
    ReflaggedEntries(cfg, s, v, value, s2);
    forall u: nat | u < |s2.threads|
      ensures ThreadOk(cfg, s2, s2.threads[u])
    {
      if u != t {
        assert !HoldsMap(s.threads[u]);
        ReflaggedThread(cfg, s, v, value, s2, s2.threads[u]);
      }
    }
  }

  lemma FlagLocks(s: State, t: nat, s2: State)
    requires DoFlag(s, t, s2) && LocksOk(s)
    ensures LocksOk(s2) && s2.mapOwner == s.mapOwner == Some(t)
  {
    NoLockMoved(s, t, s2);
  }

  lemma ClearFlagLocks(s: State, t: nat, s2: State)
    requires DoClearFlag(s, t, s2) && LocksOk(s)
    ensures LocksOk(s2) && s2.mapOwner == s.mapOwner == Some(t)
  {
    NoLockMoved(s, t, s2);
  }

  lemma FlagReflags(cfg: Config, s: State, t: nat, s2: State)
    requires DoFlag(s, t, s2) && LocksOk(s) && ThreadOk(cfg, s, s.threads[t])
    requires s.entries[s.threads[t].v].sym == s.threads[t].k
    ensures Reflag(cfg, s, t, s.threads[t].v, true, s2)
  {
    FlagLocks(s, t, s2);
  }

  lemma ClearFlagReflags(cfg: Config, s: State, t: nat, s2: State)
    requires DoClearFlag(s, t, s2) && LocksOk(s) && ThreadOk(cfg, s, s.threads[t])
    requires s.entries[s.threads[t].v].sym == s.threads[t].k
    ensures Reflag(cfg, s, t, s.threads[t].v, false, s2)
  {
    ClearFlagLocks(s, t, s2);
  }

  lemma FlagKeepsCore(cfg: Config, s: State, t: nat, s2: State)
    requires Core(cfg, s) && DoFlag(s, t, s2)
    ensures Core(cfg, s2)
  {
    FlagReflags(cfg, s, t, s2);
    ReflagKeepsCore(cfg, s, t, s.threads[t].v, true, s2);
  }

  lemma ClearFlagKeepsCore(cfg: Config, s: State, t: nat, s2: State)
    requires Core(cfg, s) && DoClearFlag(s, t, s2)
    ensures Core(cfg, s2)
  {
    ClearFlagReflags(cfg, s, t, s2);
    ReflagKeepsCore(cfg, s, t, s.threads[t].v, false, s2);
  }

  // ----- spilling -----

  /** Cold directories gained files and lost none. */
  ghost predicate Spilling(s: State, s2: State) {
    && s2.hot == s.hot && s2.entries == s.entries && s2.attempts == s.attempts && s2.mapOwner == s.mapOwner
    && s2.evictions == s.evictions
    && forall d :: d in s.cold ==> d in s2.cold && SubDir(s.cold[d], s2.cold[d])
  }

  lemma HasFileKept(a: Dir, b: Dir, candles: seq<Candle>)
    requires SubDir(a, b) && HasFile(a, candles)
    ensures HasFile(b, candles)
  {
    var name := FileIn(a, candles);
    assert name in FilesHolding(b, candles);
  }

  lemma SpillingArchived(cfg: Config, s: State, s2: State, e: nat)
    requires Spilling(s, s2) && e < |s.entries| && Archived(cfg, s, e)
    ensures Archived(cfg, s2, e)
  {
    var sym := s.entries[e].sym;
    HasFileKept(DirOf(s.cold, sym), DirOf(s2.cold, sym), Window(cfg, s.entries[e]));
  }

  lemma SpillingThread(cfg: Config, s: State, s2: State, th: Thread)
    requires Spilling(s, s2) && ThreadOk(cfg, s, th)
    ensures ThreadOk(cfg, s2, th)
  {
    if th.NeedRemove? && cfg.dataDir { SpillingArchived(cfg, s, s2, th.v); }
  }

  lemma SpillingKeepsCore(cfg: Config, s: State, t: nat, s2: State)
    requires Core(cfg, s) && Moved(s, t, s2) && Spilling(s, s2) && ColdOk(s2) && LocksOk(s2)
    requires EvictedNow(s2) == EvictedNow(s) && ThreadOk(cfg, s2, s2.threads[t])
    ensures Core(cfg, s2)
  {
    forall e: nat | e < |s2.entries|
      ensures Live(s2, e) <==> Live(s, e)
      ensures Archived(cfg, s, e) ==> Archived(cfg, s2, e)
    {
      if Archived(cfg, s, e) { SpillingArchived(cfg, s, s2, e); }
    }
    forall u: nat | u < |s2.threads|
      ensures ThreadOk(cfg, s2, s2.threads[u])
    {
      if u != t { SpillingThread(cfg, s, s2, s2.threads[u]); }
    }
  }

  /** A spill that succeeded has put the ring contents into one cold file of the victim. */
  lemma SpillOkKeepsCore(cfg: Config, s: State, t: nat, dir: Dir, s2: State)
    requires Core(cfg, s) && DoSpillOk(s, t, dir, s2)
    ensures Core(cfg, s2)
  {
    var th := s.threads[t];
    SpillOnlyAdds(DirOf(s.cold, th.k), th.snap, dir);
    SpillOkLanded(cfg, s, t, dir, s2);
    SpillingKeepsCore(cfg, s, t, s2);
  }

  lemma SpillOkGrows(s: State, t: nat, dir: Dir, s2: State)
    requires DoSpillOk(s, t, dir, s2) && ColdOk(s) && SubDir(DirOf(s.cold, s.threads[t].k), dir)
    requires HonestDir(DirOf(s.cold, s.threads[t].k)) ==> HonestDir(dir)
    ensures Spilling(s, s2) && ColdOk(s2) && DirOf(s2.cold, s.threads[t].k) == dir
  {
    EmptyDirIsHonest();
  }

  lemma SpillOkThread(cfg: Config, s: State, t: nat, dir: Dir, s2: State)
    requires DoSpillOk(s, t, dir, s2) && ThreadOk(cfg, s, s.threads[t]) && DirOf(s2.cold, s.threads[t].k) == dir
    requires s.entries[s.threads[t].v].sym == s.threads[t].k && HasFile(dir, s.threads[t].snap)
    ensures ThreadOk(cfg, s2, s2.threads[t])
  {
    assert Archived(cfg, s2, s.threads[t].v);
  }

  lemma SpillLocks(s: State, t: nat, s2: State)
    requires LocksOk(s) && Moved(s, t, s2) && s2.entries == s.entries && s2.mapOwner == s.mapOwner
    requires s.threads[t].NeedSpill? && (s2.threads[t].NeedRemove? || s2.threads[t].SpillFailed?)
    ensures LocksOk(s2)
  {
    NoLockMoved(s, t, s2);
  }

  lemma SpillOkLanded(cfg: Config, s: State, t: nat, dir: Dir, s2: State)
    requires DoSpillOk(s, t, dir, s2) && LocksOk(s) && ThreadOk(cfg, s, s.threads[t]) && ColdOk(s)
    requires s.entries[s.threads[t].v].sym == s.threads[t].k
    requires SubDir(DirOf(s.cold, s.threads[t].k), dir) && HasFile(dir, s.threads[t].snap)
    requires HonestDir(DirOf(s.cold, s.threads[t].k)) ==> HonestDir(dir)
    ensures Moved(s, t, s2) && Spilling(s, s2) && ColdOk(s2) && LocksOk(s2)
    ensures EvictedNow(s2) == EvictedNow(s) && ThreadOk(cfg, s2, s2.threads[t])
  {
    SpillOkGrows(s, t, dir, s2);
    SpillOkThread(cfg, s, t, dir, s2);
    SpillLocks(s, t, s2);
    SameEviction(s, t, s2);
  }

  lemma SpillErrGrows(s: State, t: nat, left: Option<Dir>, s2: State)
    requires DoSpillErr(s, t, left, s2) && ColdOk(s)
    requires left.Some? ==> SubDir(DirOf(s.cold, s.threads[t].k), left.value)
    requires left.Some? && HonestDir(DirOf(s.cold, s.threads[t].k)) ==> HonestDir(left.value)
    ensures Spilling(s, s2) && ColdOk(s2)
  {
    EmptyDirIsHonest();
  }

  lemma SpillErrThread(cfg: Config, s: State, t: nat, left: Option<Dir>, s2: State)
    requires DoSpillErr(s, t, left, s2) && ThreadOk(cfg, s, s.threads[t])
    ensures ThreadOk(cfg, s2, s2.threads[t])
  {
  }

  lemma SpillErrLanded(cfg: Config, s: State, t: nat, left: Option<Dir>, s2: State)
    requires DoSpillErr(s, t, left, s2) && LocksOk(s) && ThreadOk(cfg, s, s.threads[t]) && ColdOk(s)
    ensures Moved(s, t, s2) && Spilling(s, s2) && ColdOk(s2) && LocksOk(s2)
    ensures EvictedNow(s2) == EvictedNow(s) && ThreadOk(cfg, s2, s2.threads[t])
  {
    if left.Some? { LeftBehindOnlyAdds(DirOf(s.cold, s.threads[t].k), s.threads[t].snap, left.value); }
    SpillErrGrows(s, t, left, s2);
    SpillErrThread(cfg, s, t, left, s2);
    SpillLocks(s, t, s2);
    SameEviction(s, t, s2);
  }

  lemma EmptyDirIsHonest()
    ensures HonestDir(map[])
  {
  }

  lemma SpillErrKeepsCore(cfg: Config, s: State, t: nat, left: Option<Dir>, s2: State)
    requires Core(cfg, s) && DoSpillErr(s, t, left, s2)
    ensures Core(cfg, s2)
  {
    SpillErrLanded(cfg, s, t, left, s2);
    SpillingKeepsCore(cfg, s, t, s2);
  }

  // ----- removing and inserting -----

  lemma RemovedThread(cfg: Config, s: State, k: string, s2: State, th: Thread)
    requires s2.hot == s.hot - {k} && s2.entries == s.entries && s2.cold == s.cold && s2.attempts == s.attempts
    requires ThreadOk(cfg, s, th) && !HoldsMap(th)
    ensures ThreadOk(cfg, s2, th)
  {
  }

  lemma RemovedEntries(cfg: Config, s: State, k: string, v: nat, s2: State)
    requires s2.hot == s.hot - {k} && s2.entries == s.entries && s2.cold == s.cold
    requires EntriesOk(cfg, s) && k in s.hot && s.hot[k] == v && s.entries[v].removed
    requires cfg.dataDir ==> Archived(cfg, s, v)
    requires EvictedNow(s) == Some(v) && EvictedNow(s2) == None
    ensures EntriesOk(cfg, s2)
  {
    forall e: nat | e < |s2.entries|
      ensures Live(s2, e) <==> Live(s, e) && e != v
      ensures Archived(cfg, s2, e) <==> Archived(cfg, s, e)
    {
    }
  }

  lemma RemoveKeepsCore(cfg: Config, s: State, t: nat, s2: State)
    requires Core(cfg, s) && DoRemove(s, t, s2)
    ensures Core(cfg, s2)
  {
    var k, v := s.threads[t].k, s.threads[t].v;
    RemoveLanded(cfg, s, t, s2);
    RemovedEntries(cfg, s, k, v, s2);
    forall u: nat | u < |s2.threads|
      ensures ThreadOk(cfg, s2, s2.threads[u])
    {
      if u != t {
        assert !HoldsMap(s.threads[u]);
        RemovedThread(cfg, s, k, s2, s2.threads[u]);
      }
    }
  }

  lemma RemoveSize(cfg: Config, s: State, t: nat, s2: State)
    requires DoRemove(s, t, s2) && SizeOk(cfg, s) && s.threads[t].k in s.hot && |s.hot| >= cfg.maxSymbols
    ensures SizeOk(cfg, s2) && (|s2.hot| < cfg.maxSymbols || |s2.hot| == 0)
  {
    assert s2.hot.Keys == s.hot.Keys - {s.threads[t].k};
    assert |s2.hot.Keys| == |s.hot.Keys| - 1;
  }

  lemma RemoveLocks(s: State, t: nat, s2: State)
    requires DoRemove(s, t, s2) && LocksOk(s)
    ensures Moved(s, t, s2) && LocksOk(s2) && EvictedNow(s) == Some(s.threads[t].v) && EvictedNow(s2) == None
  {
    NoLockMoved(s, t, s2);
  }

  lemma RemoveLanded(cfg: Config, s: State, t: nat, s2: State)
    requires DoRemove(s, t, s2) && LocksOk(s) && ThreadOk(cfg, s, s.threads[t]) && SizeOk(cfg, s)
    ensures Moved(s, t, s2) && LocksOk(s2) && SizeOk(cfg, s2)
    ensures EvictedNow(s) == Some(s.threads[t].v) && EvictedNow(s2) == None && ThreadOk(cfg, s2, s2.threads[t])
  {
    RemoveLocks(s, t, s2);
    RemoveSize(cfg, s, t, s2);
  }

  /** A fresh entry was mapped under `sym`, which was not mapped. */
  ghost predicate Gained(s: State, sym: string, s2: State) {
    && sym !in s.hot && s2.hot == s.hot[sym := |s.entries|] && s2.cold == s.cold && s2.attempts == s.attempts
    && |s2.entries| == |s.entries| + 1
    && (forall e: nat :: e < |s.entries| ==> s2.entries[e] == s.entries[e])
    && var x := s2.entries[|s.entries|]; x.sym == sym && |x.hist| > 0 && !x.removed
  }

  lemma GainedThread(cfg: Config, s: State, sym: string, s2: State, th: Thread)
    requires Gained(s, sym, s2) && ThreadOk(cfg, s, th) && !HoldsMap(th)
    ensures ThreadOk(cfg, s2, th)
  {
  }

  lemma GainedEntries(cfg: Config, s: State, sym: string, s2: State)
    requires Gained(s, sym, s2) && EntriesOk(cfg, s) && EvictedNow(s) == None
    ensures EntriesOk(cfg, s2)
  {
    forall e: nat | e < |s2.entries|
      ensures Live(s2, e) <==> e == |s.entries| || Live(s, e)
      ensures e < |s.entries| ==> (Archived(cfg, s2, e) <==> Archived(cfg, s, e))
    {
    }
  }

  lemma InsertLocks(s: State, t: nat, s2: State)
    requires DoInsert(s, t, s2) && LocksOk(s)
    ensures Moved(s, t, s2) && LocksOk(s2) && EvictedNow(s) == None
  {
    NoLockMoved(s, t, s2);
  }

  lemma InsertLanded(cfg: Config, s: State, t: nat, s2: State)
    requires DoInsert(s, t, s2) && LocksOk(s) && ThreadOk(cfg, s, s.threads[t]) && SizeOk(cfg, s)
    ensures Moved(s, t, s2) && Gained(s, s.threads[t].a.sym, s2) && LocksOk(s2) && SizeOk(cfg, s2)
    ensures EvictedNow(s) == None && ThreadOk(cfg, s2, s2.threads[t])
  {
    InsertLocks(s, t, s2);
  }

  lemma InsertKeepsCore(cfg: Config, s: State, t: nat, s2: State)
    requires Core(cfg, s) && DoInsert(s, t, s2)
    ensures Core(cfg, s2)
  {
    var sym := s.threads[t].a.sym;
    InsertLanded(cfg, s, t, s2);
    GainedEntries(cfg, s, sym, s2);
    forall u: nat | u < |s2.threads|
      ensures ThreadOk(cfg, s2, s2.threads[u])
    {
      if u != t {
        assert !HoldsMap(s.threads[u]);
        GainedThread(cfg, s, sym, s2, s2.threads[u]);
      }
    }
  }

  // ----- every step -----

  lemma AppendStepKeepsCore(cfg: Config, s: State, t: nat, m: Move, s2: State)
    requires Core(cfg, s) && AppendStep(cfg, s, t, m, s2)
    ensures Core(cfg, s2)
  {
    match m {
      case Lookup => MappedIsOk(cfg, s, s.threads[t].a.sym); LookupIsQuiet(cfg, s, t, s2);
      case Touch => TouchIsQuiet(cfg, s, t, s2);
      case TakeBuf => TakeBufIsQuiet(cfg, s, t, s2);
      case CheckFlag => CheckFlagIsQuiet(cfg, s, t, s2);
      case DropBuf => DropBufIsQuiet(cfg, s, t, s2);
      case Bump => BumpIsQuiet(cfg, s, t, s2);
      case Retry => RetryIsQuiet(cfg, s, t, s2);
    }
    QuietKeepsCore(cfg, s, t, s2);
  }

  lemma NobodyElseEvicts(s: State, t: nat)
    requires LocksOk(s) && t < |s.threads| && HoldsMap(s.threads[t])
    ensures EvictedNow(s) == Evicting(s.threads[t])
  {
  }

  lemma MapStepKeepsCore(cfg: Config, s: State, t: nat, m: Move, s2: State)
    requires Core(cfg, s) && MapStep(cfg, s, t, m, s2)
    ensures Core(cfg, s2)
  {
    match m {
      case TakeMap => TakeMapIsQuiet(cfg, s, t, s2);
      case FoundInMap =>
        NobodyElseEvicts(s, t);
        MappedIsOk(cfg, s, s.threads[t].a.sym);
        FoundInMapIsQuiet(cfg, s, t, s2);
      case PickVictim(k) =>
        NobodyElseEvicts(s, t);
        MappedIsOk(cfg, s, k);
        PickVictimIsQuiet(cfg, s, t, k, s2);
      case NoVictim => NoVictimIsQuiet(cfg, s, t, s2);
      case Reject => RejectIsQuiet(cfg, s, t, s2);
      case DropMap => DropMapIsQuiet(cfg, s, t, s2);
    }
    QuietKeepsCore(cfg, s, t, s2);
  }

  lemma VictimStepKeepsCore(cfg: Config, s: State, t: nat, m: Move, s2: State)
    requires cfg.cap > 0 && Core(cfg, s) && VictimStep(cfg, s, t, m, s2)
    ensures Core(cfg, s2)
  {
    match m {
      case TakeVictim => TakeVictimIsQuiet(cfg, s, t, s2);
      case Snap => SnapIsQuiet(cfg, s, t, s2);
      case DropVictim => DropVictimIsQuiet(cfg, s, t, s2);
    }
    QuietKeepsCore(cfg, s, t, s2);
  }

  lemma DataStepKeepsCore(cfg: Config, s: State, t: nat, m: Move, s2: State)
    requires Core(cfg, s) && DataStep(cfg, s, t, m, s2)
    ensures Core(cfg, s2)
  {
    match m {
      case Push => PushKeepsCore(cfg, s, t, s2);
      case Flag => FlagKeepsCore(cfg, s, t, s2);
      case ClearFlag => ClearFlagKeepsCore(cfg, s, t, s2);
      case SpillOk(dir) => SpillOkKeepsCore(cfg, s, t, dir, s2);
      case SpillErr(left) => SpillErrKeepsCore(cfg, s, t, left, s2);
      case Remove => RemoveKeepsCore(cfg, s, t, s2);
      case Insert => InsertKeepsCore(cfg, s, t, s2);
    }
  }

  /** Map, rings, flags and files are as they were, and so are the locks. */
  ghost predicate Untouched(s: State, s2: State) {
    && s2.entries == s.entries && s2.hot == s.hot && s2.cold == s.cold && s2.attempts == s.attempts
    && s2.mapOwner == s.mapOwner && s2.evictions == s.evictions
  }

  lemma CountStepIsUnbound(cfg: Config, s: State, t: nat, m: Move, s2: State)
    requires CountStep(cfg, s, t, m, s2)
    ensures Untouched(s, s2)
    ensures s2 == s || (Moved(s, t, s2) && Unbound(s.threads[t]) && Unbound(s2.threads[t]))
  {
  }

  lemma HotReadIsUnbound(cfg: Config, s: State, t: nat, m: Move, s2: State)
    requires RangeStep(cfg, s, t, m, s2) && (m.BeginRange? || m.FindEntry? || m.ReadHot?)
    ensures Untouched(s, s2) && Moved(s, t, s2) && Unbound(s.threads[t]) && Unbound(s2.threads[t])
  {
  }

  lemma ColdReadIsUnbound(cfg: Config, s: State, t: nat, m: Move, s2: State)
    requires RangeStep(cfg, s, t, m, s2) && (m.SkipCold? || m.ListFiles? || m.ReadCold?)
    ensures Untouched(s, s2) && Moved(s, t, s2) && Unbound(s.threads[t]) && Unbound(s2.threads[t])
  {
  }

  lemma RangeStepIsUnbound(cfg: Config, s: State, t: nat, m: Move, s2: State)
    requires RangeStep(cfg, s, t, m, s2)
    ensures Untouched(s, s2) && Moved(s, t, s2) && Unbound(s.threads[t]) && Unbound(s2.threads[t])
  {
    if m.BeginRange? || m.FindEntry? || m.ReadHot? {
      HotReadIsUnbound(cfg, s, t, m, s2);
    } else {
      ColdReadIsUnbound(cfg, s, t, m, s2);
    }
  }

  lemma OtherStepKeepsCore(cfg: Config, s: State, t: nat, m: Move, s2: State)
    requires Core(cfg, s) && (CountStep(cfg, s, t, m, s2) || RangeStep(cfg, s, t, m, s2))
    ensures Core(cfg, s2)
  {
    if s2 != s {
      if IsCountMove(m) { CountStepIsUnbound(cfg, s, t, m, s2); } else { RangeStepIsUnbound(cfg, s, t, m, s2); }
      UnboundIsQuiet(cfg, s, t, s2);
      QuietKeepsCore(cfg, s, t, s2);
    }
  }

  lemma StepKeepsCore(cfg: Config, s: State, t: nat, m: Move, s2: State)
    requires cfg.cap > 0 && Core(cfg, s) && Step(cfg, s, t, m, s2)
    ensures Core(cfg, s2)
  {
    if IsAppendMove(m) {
      AppendStepKeepsCore(cfg, s, t, m, s2);
    } else if IsMapMove(m) {
      MapStepKeepsCore(cfg, s, t, m, s2);
    } else if IsVictimMove(m) {
      VictimStepKeepsCore(cfg, s, t, m, s2);
    } else if IsDataMove(m) {
      DataStepKeepsCore(cfg, s, t, m, s2);
    } else {
      OtherStepKeepsCore(cfg, s, t, m, s2);
    }
  }
}
