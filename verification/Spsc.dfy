/**
 The single-producer single-consumer ring as a step machine: every load, slot access and store of
 either side is a step of its own, so each side may act on a stale copy of the other's cursor.
 The heap ring and the shared-memory ring run the same algorithm; the shared-memory header adds
 the ready/capacity handshake before the reader may attach.
 */
module Spsc {
  import opened Candles
  import opened Cursors

  const READY_MAGIC: nat := 0x00CA_FECA_1D1E_5748

  /** The capacities the two processes were started with; the handshake must make them agree. */
  datatype Config = Config(writerCap: nat, readerCap: nat)

  /** Where the producer is. A cursor value held here is a `u64` in a local variable. */
  datatype Writer<T> =
    | Creating                                    // about to store the header's capacity
    | CapStored                                   // about to zero head
    | HeadZeroed                                  // about to zero tail
    | TailZeroed                                  // about to publish READY_MAGIC
    | WIdle
    | HeadLoaded(item: T, h: nat)                 // loaded its own head; about to load tail
    | TailLoaded(item: T, h: nat, t: nat, seen: nat)  // about to compare; `seen` = pops at the load
    | MayWrite(item: T, h: nat)                   // there was room; about to write the slot
    | Written(item: T, h: nat)                    // about to store head + 1

  /** Where the consumer is. */
  datatype Reader<T> =
    | Opening                                     // spinning on the ready word
    | SawReady                                    // about to compare capacities
    | Refused
    | RIdle
    | RTailLoaded(t: nat)                         // loaded its own tail; about to load head
    | RHeadLoaded(t: nat, h: nat, seen: nat)      // about to compare; `seen` = pushes at the load
    | MayRead(t: nat)                             // there was data; about to read the slot
    | HaveItem(t: nat, item: T)                   // about to store tail + 1

  /** Shared memory, both sides, and the histories of completed pushes and pops. */
  datatype State<T> = State(
    ready: nat, capacity: nat, head: nat, tail: nat, slots: seq<T>,
    writer: Writer<T>, reader: Reader<T>,
    pushed: seq<T>, popped: seq<T>)

  ghost predicate ValidConfig(cfg: Config) {
    IsCapacity(cfg.writerCap) && IsCapacity(cfg.readerCap)
  }

  /** A fresh segment: anything but the ready word, and nothing pushed or popped. */
  ghost predicate Init<T>(cfg: Config, s: State<T>) {
    && s.ready != READY_MAGIC && |s.slots| == cfg.writerCap
    && s.writer == Creating && s.reader == Opening
    && s.pushed == [] && s.popped == []
  }

  datatype Move<T> =
    | StoreCapacity | ZeroHead | ZeroTail | PublishReady
    | LoadOwnHead(item: T) | LoadTail | CompareRoom | WriteSlot | StoreHead
    | LoadReady | CompareCapacity
    | LoadOwnTail | LoadHead | CompareData | ReadSlot | StoreTail

  ghost predicate Step<T>(cfg: Config, s: State<T>, m: Move<T>, s2: State<T>)
    requires ValidConfig(cfg)
  {
    match m
    // create_inner
    case StoreCapacity => s.writer.Creating? && s2 == s.(capacity := cfg.writerCap, writer := CapStored)
    case ZeroHead => s.writer.CapStored? && s2 == s.(head := 0, writer := HeadZeroed)
    case ZeroTail => s.writer.HeadZeroed? && s2 == s.(tail := 0, writer := TailZeroed)
    case PublishReady => s.writer.TailZeroed? && s2 == s.(ready := READY_MAGIC, writer := WIdle)
    // try_push
    case LoadOwnHead(item) => s.writer.WIdle? && s2 == s.(writer := HeadLoaded(item, s.head))
    case LoadTail => s.writer.HeadLoaded? &&
      s2 == s.(writer := TailLoaded(s.writer.item, s.writer.h, s.tail, |s.popped|))
    case CompareRoom => s.writer.TailLoaded? &&
      s2 == s.(writer := if WrapSub(s.writer.h, s.writer.t) >= cfg.writerCap then WIdle
                         else MayWrite(s.writer.item, s.writer.h))
    case WriteSlot => s.writer.MayWrite? &&
      var i := BitAnd(s.writer.h, cfg.writerCap - 1);
      i < |s.slots| && s2 == s.(slots := s.slots[i := s.writer.item], writer := Written(s.writer.item, s.writer.h))
    case StoreHead => s.writer.Written? &&
      s2 == s.(head := WrapNext(s.writer.h), writer := WIdle, pushed := s.pushed + [s.writer.item])
    // open
    case LoadReady => s.reader.Opening? && s.ready == READY_MAGIC && s2 == s.(reader := SawReady)
    case CompareCapacity => s.reader.SawReady? &&
      s2 == s.(reader := if s.capacity == cfg.readerCap then RIdle else Refused)
    // try_pop
    case LoadOwnTail => s.reader.RIdle? && s2 == s.(reader := RTailLoaded(s.tail))
    case LoadHead => s.reader.RTailLoaded? &&
      s2 == s.(reader := RHeadLoaded(s.reader.t, s.head, |s.pushed|))
    case CompareData => s.reader.RHeadLoaded? &&
      s2 == s.(reader := if s.reader.h == s.reader.t then RIdle else MayRead(s.reader.t))
    case ReadSlot => s.reader.MayRead? &&
      var i := BitAnd(s.reader.t, cfg.readerCap - 1);
      i < |s.slots| && s2 == s.(reader := HaveItem(s.reader.t, s.slots[i]))
    case StoreTail =>
      && s.reader.HaveItem?
      && s2 == s.(tail := WrapNext(s.reader.t), reader := RIdle, popped := s.popped + [s.reader.item])
  }

  // ----- the invariant -----

  predicate Published<T>(w: Writer<T>) {
    !(w.Creating? || w.CapStored? || w.HeadZeroed? || w.TailZeroed?)
  }

  predicate Attached<T>(r: Reader<T>) {
    !(r.Opening? || r.SawReady? || r.Refused?)
  }

  ghost predicate HandshakeOk<T>(cfg: Config, s: State<T>) {
    && (s.ready == READY_MAGIC <==> Published(s.writer))
    && (!s.writer.Creating? ==> s.capacity == cfg.writerCap)
    && (!s.reader.Opening? ==> Published(s.writer))
    && (Attached(s.reader) ==> cfg.readerCap == cfg.writerCap)
    && (s.reader.Refused? ==> cfg.readerCap != cfg.writerCap)
  }

  /** The unbounded cursors are the history lengths; memory holds them wrapped. */
  ghost predicate CursorsOk<T>(cfg: Config, s: State<T>) {
    && (s.writer.HeadZeroed? || s.writer.TailZeroed? || Published(s.writer) ==> s.head == Wrap(|s.pushed|))
    && (s.writer.TailZeroed? || Published(s.writer) ==> s.tail == Wrap(|s.popped|))
    && (!Published(s.writer) ==> s.pushed == [])
    && |s.popped| <= |s.pushed| <= |s.popped| + cfg.writerCap
  }

  ghost predicate SlotsOk<T>(cfg: Config, s: State<T>)
    requires cfg.writerCap > 0
  {
    && |s.slots| == cfg.writerCap
    && (forall k: nat :: |s.popped| <= k < |s.pushed| ==> s.slots[Slot(k, cfg.writerCap)] == s.pushed[k])
    && s.popped <= s.pushed
  }

  ghost predicate WriterOk<T>(cfg: Config, s: State<T>)
    requires cfg.writerCap > 0 && |s.slots| == cfg.writerCap
  {
    match s.writer
    case HeadLoaded(_, h) => h == Wrap(|s.pushed|)
    case TailLoaded(_, h, t, seen) =>
      h == Wrap(|s.pushed|) && t == Wrap(seen) && seen <= |s.popped| && |s.pushed| <= seen + cfg.writerCap
    case MayWrite(_, h) => h == Wrap(|s.pushed|) && |s.pushed| < |s.popped| + cfg.writerCap
    case Written(item, h) =>
      h == Wrap(|s.pushed|) && |s.pushed| < |s.popped| + cfg.writerCap &&
      s.slots[Slot(|s.pushed|, cfg.writerCap)] == item
    case _ => true
  }

  ghost predicate ReaderOk<T>(cfg: Config, s: State<T>) {
    match s.reader
    case RTailLoaded(t) => t == Wrap(|s.popped|)
    case RHeadLoaded(t, h, seen) =>
      t == Wrap(|s.popped|) && h == Wrap(seen) && |s.popped| <= seen <= |s.pushed|
    case MayRead(t) => t == Wrap(|s.popped|) && |s.popped| < |s.pushed|
    case HaveItem(t, item) => t == Wrap(|s.popped|) && |s.popped| < |s.pushed| && item == s.pushed[|s.popped|]
    case _ => true
  }

  ghost predicate Inv<T>(cfg: Config, s: State<T>)
    requires ValidConfig(cfg)
  {
    CapacityBound(cfg.writerCap);
    && HandshakeOk(cfg, s) && CursorsOk(cfg, s) && SlotsOk(cfg, s)
    && WriterOk(cfg, s) && ReaderOk(cfg, s)
  }

  lemma InitInv<T>(cfg: Config, s: State<T>)
    requires ValidConfig(cfg) && Init(cfg, s)
    ensures Inv(cfg, s)
  {
    CapacityBound(cfg.writerCap);
  }

  lemma SetupStepKeepsInv<T>(cfg: Config, s: State<T>, m: Move<T>, s2: State<T>)
    requires ValidConfig(cfg) && Inv(cfg, s) && Step(cfg, s, m, s2)
    requires m.StoreCapacity? || m.ZeroHead? || m.ZeroTail? || m.PublishReady? || m.LoadReady? || m.CompareCapacity?
    ensures Inv(cfg, s2)
  {
    CapacityBound(cfg.writerCap);
  }

  lemma LoadStepKeepsInv<T>(cfg: Config, s: State<T>, m: Move<T>, s2: State<T>)
    requires ValidConfig(cfg) && Inv(cfg, s) && Step(cfg, s, m, s2)
    requires m.LoadOwnHead? || m.LoadTail? || m.CompareRoom? || m.LoadOwnTail? || m.LoadHead? || m.CompareData?
    ensures Inv(cfg, s2)
  {
    CapacityBound(cfg.writerCap);
    if m.CompareRoom? {
      WrapSubOf(|s.pushed|, s.writer.seen);
    }
    if m.CompareData? {
      WrapSubOf(s.reader.seen, |s.popped|);
    }
  }

  /** The slot written belongs to no unread item. */
  lemma WriteSlotKeepsInv<T>(cfg: Config, s: State<T>, s2: State<T>)
    requires ValidConfig(cfg) && Inv(cfg, s) && Step(cfg, s, WriteSlot, s2)
    ensures Inv(cfg, s2)
  {
    CapacityBound(cfg.writerCap);
    SlotOfCursor(|s.pushed|, cfg.writerCap);
    forall k: nat | |s.popped| <= k < |s.pushed|
      ensures s2.slots[Slot(k, cfg.writerCap)] == s.pushed[k]
    {
      SlotsDiffer(k, |s.pushed|, cfg.writerCap);
    }
  }

  lemma StoreHeadKeepsInv<T>(cfg: Config, s: State<T>, s2: State<T>)
    requires ValidConfig(cfg) && Inv(cfg, s) && Step(cfg, s, StoreHead, s2)
    ensures Inv(cfg, s2)
  {
    CapacityBound(cfg.writerCap);
    WrapNextOf(|s.pushed|);
  }

  lemma ReadSlotKeepsInv<T>(cfg: Config, s: State<T>, s2: State<T>)
    requires ValidConfig(cfg) && Inv(cfg, s) && Step(cfg, s, ReadSlot, s2)
    ensures Inv(cfg, s2)
  {
    CapacityBound(cfg.writerCap);
    SlotOfCursor(|s.popped|, cfg.writerCap);
  }

  lemma StoreTailKeepsInv<T>(cfg: Config, s: State<T>, s2: State<T>)
    requires ValidConfig(cfg) && Inv(cfg, s) && Step(cfg, s, StoreTail, s2)
    ensures Inv(cfg, s2)
  {
    CapacityBound(cfg.writerCap);
    WrapNextOf(|s.popped|);
  }

  lemma StepKeepsInv<T>(cfg: Config, s: State<T>, m: Move<T>, s2: State<T>)
    requires ValidConfig(cfg) && Inv(cfg, s) && Step(cfg, s, m, s2)
    ensures Inv(cfg, s2)
  {
    match m {
      case WriteSlot => WriteSlotKeepsInv(cfg, s, s2);
      case StoreHead => StoreHeadKeepsInv(cfg, s, s2);
      case ReadSlot => ReadSlotKeepsInv(cfg, s, s2);
      case StoreTail => StoreTailKeepsInv(cfg, s, s2);
      case LoadOwnHead(_) => LoadStepKeepsInv(cfg, s, m, s2);
      case LoadTail => LoadStepKeepsInv(cfg, s, m, s2);
      case CompareRoom => LoadStepKeepsInv(cfg, s, m, s2);
      case LoadOwnTail => LoadStepKeepsInv(cfg, s, m, s2);
      case LoadHead => LoadStepKeepsInv(cfg, s, m, s2);
      case CompareData => LoadStepKeepsInv(cfg, s, m, s2);
      case _ => SetupStepKeepsInv(cfg, s, m, s2);
    }
  }

  // ----- whole runs -----

  ghost predicate IsRun<T>(cfg: Config, run: seq<State<T>>, moves: seq<Move<T>>)
    requires ValidConfig(cfg)
  {
    && |run| == |moves| + 1 && Init(cfg, run[0])
    && forall i :: 0 <= i < |moves| ==> Step(cfg, run[i], moves[i], run[i + 1])
  }

  lemma {:induction false} RunKeepsInv<T>(cfg: Config, run: seq<State<T>>, moves: seq<Move<T>>, n: nat)
    requires ValidConfig(cfg) && IsRun(cfg, run, moves) && n < |run|
    ensures Inv(cfg, run[n])
  {
    if n == 0 {
      InitInv(cfg, run[0]);
    } else {
      RunKeepsInv(cfg, run, moves, n - 1);
      StepKeepsInv(cfg, run[n - 1], moves[n - 1], run[n]);
    }
  }

  /**
   In every run, whatever the interleaving and however often the cursors wrap: what was popped is
   a prefix of what was pushed, at most `capacity` items are in between, and the memory cursors
   are those counts modulo `2^64`.
   */
  lemma PoppedIsPrefixOfPushed<T>(cfg: Config, run: seq<State<T>>, moves: seq<Move<T>>, n: nat)
    requires ValidConfig(cfg) && IsRun(cfg, run, moves) && n < |run|
    ensures run[n].popped <= run[n].pushed
    ensures |run[n].pushed| - |run[n].popped| <= cfg.writerCap
    ensures Published(run[n].writer) ==>
              run[n].head == Wrap(|run[n].pushed|) && run[n].tail == Wrap(|run[n].popped|)
  {
    RunKeepsInv(cfg, run, moves, n);
  }

  /** The producer never writes the slot the consumer is reading, and both stay inside the array. */
  lemma NoSlotRace<T>(cfg: Config, run: seq<State<T>>, moves: seq<Move<T>>, n: nat)
    requires ValidConfig(cfg) && IsRun(cfg, run, moves) && n < |run|
    ensures run[n].writer.MayWrite? ==> BitAnd(run[n].writer.h, cfg.writerCap - 1) < |run[n].slots|
    ensures run[n].reader.MayRead? ==> BitAnd(run[n].reader.t, cfg.readerCap - 1) < |run[n].slots|
    ensures run[n].writer.MayWrite? && run[n].reader.MayRead? ==>
              BitAnd(run[n].writer.h, cfg.writerCap - 1) != BitAnd(run[n].reader.t, cfg.readerCap - 1)
  {
    RunKeepsInv(cfg, run, moves, n);
    var s := run[n];
    SlotOfCursor(|s.pushed|, cfg.writerCap);
    SlotOfCursor(|s.popped|, cfg.writerCap);
    if s.writer.MayWrite? && s.reader.MayRead? {
      SlotsDiffer(|s.popped|, |s.pushed|, cfg.writerCap);
    }
  }

  /**
   A refusal is exact at the instant of the load it rests on: `try_push` fails only if the ring
   was full when it loaded `tail`, `try_pop` only if it was empty when it loaded `head`.
   */
  lemma RefusalsAreExact<T>(cfg: Config, run: seq<State<T>>, moves: seq<Move<T>>, n: nat)
    requires ValidConfig(cfg) && IsRun(cfg, run, moves) && n < |run|
    ensures run[n].writer.TailLoaded? ==>
              (WrapSub(run[n].writer.h, run[n].writer.t) >= cfg.writerCap <==>
               |run[n].pushed| - run[n].writer.seen == cfg.writerCap)
    ensures run[n].reader.RHeadLoaded? ==>
              (run[n].reader.h == run[n].reader.t <==> run[n].reader.seen == |run[n].popped|)
  {
    RunKeepsInv(cfg, run, moves, n);
    var s := run[n];
    CapacityBound(cfg.writerCap);
    if s.writer.TailLoaded? { WrapSubOf(|s.pushed|, s.writer.seen); }
    if s.reader.RHeadLoaded? { WrapSubOf(s.reader.seen, |s.popped|); }
  }

  /**
   Which way each comparison goes, in the queue's own terms: a push is refused exactly when the ring was full at
   its load of `tail`, a pop exactly when it was empty at its load of `head`, and an accepted one goes on with
   the item and the cursor it had.
   */
  lemma BranchesAreExact<T>(cfg: Config, run: seq<State<T>>, moves: seq<Move<T>>, n: nat)
    requires ValidConfig(cfg) && IsRun(cfg, run, moves) && n < |moves|
    ensures moves[n].CompareRoom? ==>
              && run[n].writer.TailLoaded?
              && (run[n + 1].writer.WIdle? <==> |run[n].pushed| - run[n].writer.seen == cfg.writerCap)
              && (!run[n + 1].writer.WIdle? ==> run[n + 1].writer == MayWrite(run[n].writer.item, run[n].writer.h))
    ensures moves[n].CompareData? ==>
              && run[n].reader.RHeadLoaded?
              && (run[n + 1].reader.RIdle? <==> run[n].reader.seen == |run[n].popped|)
              && (!run[n + 1].reader.RIdle? ==> run[n + 1].reader == MayRead(run[n].reader.t))
    ensures moves[n].CompareCapacity? ==>
              && (run[n + 1].reader.RIdle? <==> cfg.readerCap == cfg.writerCap)
              && (run[n + 1].reader.Refused? <==> cfg.readerCap != cfg.writerCap)
  {
    RunKeepsInv(cfg, run, moves, n);
    RefusalsAreExact(cfg, run, moves, n);
    assert Step(cfg, run[n], moves[n], run[n + 1]);
  }

  /** The loads themselves: what a side saw is what was there. */
  lemma LoadsAreCurrent<T>(cfg: Config, run: seq<State<T>>, moves: seq<Move<T>>, n: nat)
    requires ValidConfig(cfg) && IsRun(cfg, run, moves) && n < |moves|
    ensures moves[n].LoadTail? ==> run[n + 1].writer.TailLoaded? && run[n + 1].writer.seen == |run[n].popped|
    ensures moves[n].LoadHead? ==> run[n + 1].reader.RHeadLoaded? && run[n + 1].reader.seen == |run[n].pushed|
  {
    assert Step(cfg, run[n], moves[n], run[n + 1]);
  }

  function ItemOf<T>(w: Writer<T>): Option<T> {
    match w
    case HeadLoaded(item, _) => Some(item)
    case TailLoaded(item, _, _, _) => Some(item)
    case MayWrite(item, _) => Some(item)
    case Written(item, _) => Some(item)
    case _ => None
  }

  /** Move `j` began the push that is under way after `n` moves. */
  ghost predicate PushBegan<T>(moves: seq<Move<T>>, j: nat, n: nat, item: T)
    requires n <= |moves|
  {
    j < n && moves[j] == LoadOwnHead(item) && forall k :: j < k < n ==> !moves[k].LoadOwnHead?
  }

  lemma StepKeepsItem<T>(cfg: Config, s: State<T>, m: Move<T>, s2: State<T>)
    requires ValidConfig(cfg) && Step(cfg, s, m, s2) && ItemOf(s2.writer).Some?
    ensures if m.LoadOwnHead? then ItemOf(s2.writer) == Some(m.item) else ItemOf(s2.writer) == ItemOf(s.writer)
  {
  }

  lemma {:induction false} ItemHasOrigin<T>(cfg: Config, run: seq<State<T>>, moves: seq<Move<T>>, n: nat)
      returns (j: nat)
    requires ValidConfig(cfg) && IsRun(cfg, run, moves) && n < |run| && ItemOf(run[n].writer).Some?
    ensures PushBegan(moves, j, n, ItemOf(run[n].writer).value)
  {
    assert n > 0;
    assert Step(cfg, run[n - 1], moves[n - 1], run[n]);
    StepKeepsItem(cfg, run[n - 1], moves[n - 1], run[n]);
    if moves[n - 1].LoadOwnHead? {
      j := n - 1;
    } else {
      j := ItemHasOrigin(cfg, run, moves, n - 1);
    }
  }

  /** What is pushed is what the caller of that push gave. */
  lemma PushedIsGiven<T>(cfg: Config, run: seq<State<T>>, moves: seq<Move<T>>, n: nat) returns (j: nat, item: T)
    requires ValidConfig(cfg) && IsRun(cfg, run, moves) && n < |moves| && moves[n].StoreHead?
    ensures PushBegan(moves, j, n, item) && run[n + 1].pushed == run[n].pushed + [item]
  {
    assert Step(cfg, run[n], moves[n], run[n + 1]);
    item := run[n].writer.item;
    j := ItemHasOrigin(cfg, run, moves, n);
  }

  /**
   The handshake: a reader attaches only to an initialised segment of its own capacity, and is
   refused only when the capacities differ.
   */
  lemma HandshakeIsSafe<T>(cfg: Config, run: seq<State<T>>, moves: seq<Move<T>>, n: nat)
    requires ValidConfig(cfg) && IsRun(cfg, run, moves) && n < |run|
    ensures Attached(run[n].reader) ==>
              cfg.readerCap == cfg.writerCap == |run[n].slots| && Published(run[n].writer) &&
              run[n].capacity == cfg.readerCap
    ensures run[n].reader.Refused? ==> cfg.readerCap != cfg.writerCap
    ensures run[n].popped != [] ==> cfg.readerCap == cfg.writerCap
  {
    RunKeepsInv(cfg, run, moves, n);
    NothingPoppedUnlessAttached(cfg, run, moves, n);
  }

  lemma {:induction false} NothingPoppedUnlessAttached<T>(cfg: Config, run: seq<State<T>>, moves: seq<Move<T>>, n: nat)
    requires ValidConfig(cfg) && IsRun(cfg, run, moves) && n < |run|
    ensures run[n].popped != [] ==> Attached(run[n].reader)
  {
    if n > 0 {
      NothingPoppedUnlessAttached(cfg, run, moves, n - 1);
      assert Step(cfg, run[n - 1], moves[n - 1], run[n]);
    }
  }

  // ----- refinement of an unbounded-cursor FIFO -----

  /** The abstract queue: pushed and not yet popped. */
  function Queue<T>(s: State<T>): seq<T>
    requires |s.popped| <= |s.pushed|
  {
    s.pushed[|s.popped|..]
  }

  ghost predicate FifoStep<T>(cap: nat, q: seq<T>, m: Move<T>, s: State<T>, q2: seq<T>) {
    match m
    case StoreHead => s.writer.Written? && |q| < cap && q2 == q + [s.writer.item]
    case StoreTail => s.reader.HaveItem? && |q| > 0 && s.reader.item == q[0] && q2 == q[1..]
    case _ => q2 == q
  }

  /**
   The `u64` machine refines a bounded FIFO: storing `head` is an enqueue into a queue that has
   room, storing `tail` is a dequeue of the oldest item, and every other step is invisible.
   */
  lemma RefinesFifo<T>(cfg: Config, run: seq<State<T>>, moves: seq<Move<T>>, n: nat)
    requires ValidConfig(cfg) && IsRun(cfg, run, moves) && n < |moves|
    ensures |run[n].popped| <= |run[n].pushed| && |run[n + 1].popped| <= |run[n + 1].pushed|
    ensures FifoStep(cfg.writerCap, Queue(run[n]), moves[n], run[n], Queue(run[n + 1]))
  {
    RunKeepsInv(cfg, run, moves, n);
    RunKeepsInv(cfg, run, moves, n + 1);
    assert Step(cfg, run[n], moves[n], run[n + 1]);
    var s, s2 := run[n], run[n + 1];
    if moves[n].StoreHead? {
      assert Queue(s2) == Queue(s) + [s.writer.item];
    } else if moves[n].StoreTail? {
      assert Queue(s2) == Queue(s)[1..];
    }
  }

  // ----- the ring as an object, used by one thread at a time -----

  class SpscRing<T> {
    const capacity: nat
    const slots: array<T>
    var head: nat   // u64 producer cursor
    var tail: nat   // u64 consumer cursor
    ghost var pushed: seq<T>
    ghost var popped: nat

    ghost predicate Valid()
      reads this, slots
    {
      && IsCapacity(capacity) && capacity > 0 && slots.Length == capacity
      && popped <= |pushed| <= popped + capacity
      && head == Wrap(|pushed|) && tail == Wrap(popped)
      && forall k: nat :: popped <= k < |pushed| ==> slots[Slot(k, capacity)] == pushed[k]
    }

    ghost function Contents(): seq<T>
      reads this
      requires popped <= |pushed|
    {
      pushed[popped..]
    }

    constructor (capacity: nat, blank: T)
      requires IsCapacity(capacity)
      ensures Valid() && this.capacity == capacity && Contents() == [] && fresh(slots)
    {
      CapacityBound(capacity);
      this.capacity := capacity;
      slots := new T[capacity](_ => blank);
      head, tail, pushed, popped := 0, 0, [], 0;
    }

    method TryPush(item: T) returns (ok: bool)
      requires Valid()
      modifies this, slots
      ensures Valid() && popped == old(popped)
      ensures ok <==> |old(Contents())| < capacity
      ensures Contents() == if ok then old(Contents()) + [item] else old(Contents())
    {
      CapacityBound(capacity);
      WrapSubOf(|pushed|, popped);
      if WrapSub(head, tail) >= capacity { return false; }
      SlotOfCursor(|pushed|, capacity);
      var slot := BitAnd(head, capacity - 1);
      forall k: nat | popped <= k < |pushed|
        ensures Slot(k, capacity) != slot
      {
        SlotsDiffer(k, |pushed|, capacity);
      }
      slots[slot] := item;
      WrapNextOf(|pushed|);
      head := WrapNext(head);
      pushed := pushed + [item];
      return true;
    }

    method TryPop() returns (r: Option<T>)
      requires Valid()
      modifies this
      ensures Valid() && pushed == old(pushed)
      ensures r == if old(Contents()) == [] then None else Some(old(Contents())[0])
      ensures Contents() == if r.None? then old(Contents()) else old(Contents())[1..]
    {
      CapacityBound(capacity);
      WrapSubOf(|pushed|, popped);
      if head == tail { return None; }
      SlotOfCursor(popped, capacity);
      var slot := BitAnd(tail, capacity - 1);
      r := Some(slots[slot]);
      WrapNextOf(popped);
      tail := WrapNext(tail);
      popped := popped + 1;
    }
  }
}
