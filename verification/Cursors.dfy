/** Arithmetic of the ring cursors: wrapping `u64` counters indexing a power-of-two slot array. */
module Cursors {

  const U64_COUNT: nat := 0x1_0000_0000_0000_0000

  function Pow2(k: nat): (r: nat)
    ensures r > 0
  {
    if k == 0 then 1 else Pow2(k - 1) + Pow2(k - 1)
  }

  /** A capacity the factory accepts: a power of two that fits a 64-bit `usize`. */
  ghost predicate IsCapacity(cap: nat) {
    exists k: nat :: k <= 63 && cap == Pow2(k)
  }

  /** `u64::wrapping_add(1)`. */
  function WrapNext(x: nat): nat { (x + 1) % 0x1_0000_0000_0000_0000 }

  /** `u64::wrapping_sub`. */
  function WrapSub(x: nat, y: nat): nat { (x - y) % 0x1_0000_0000_0000_0000 }

  /** The `u64` that holds an unbounded cursor. */
  function Wrap(x: nat): nat { x % 0x1_0000_0000_0000_0000 }

  /** Bitwise and. */
  function BitAnd(x: nat, y: nat): nat {
    if x == 0 || y == 0 then 0
    else (if x % 2 == 1 && y % 2 == 1 then 1 else 0) + 2 * BitAnd(x / 2, y / 2)
  }

  /** The slot an unbounded cursor falls on in a ring of `n` slots: laps taken off one by one. */
  function Slot(x: nat, n: nat): (r: nat)
    requires n > 0
    ensures r < n
  {
    if x < n then x else Slot(x - n, n)
  }

  lemma {:induction false} SlotDoubled(x: nat, p: nat)
    requires p > 0
    ensures Slot(x, p + p) == x % 2 + 2 * Slot(x / 2, p)
  {
    if x >= p + p {
      SlotDoubled(x - p - p, p);
      assert (x - p - p) / 2 == x / 2 - p;
    }
  }

  /** Masking with `2^k - 1` finds the slot of a ring of `2^k` slots. */
  lemma {:induction false} MaskIsSlot(x: nat, k: nat)
    ensures BitAnd(x, Pow2(k) - 1) == Slot(x, Pow2(k))
    decreases k
  {
    if k == 0 {
      SlotOfOne(x);
    } else {
      var p := Pow2(k - 1);
      MaskIsSlot(x / 2, k - 1);
      SlotDoubled(x, p);
      assert (p + p - 1) / 2 == p - 1 && (p + p - 1) % 2 == 1;
    }
  }

  lemma {:induction false} SlotOfOne(x: nat)
    ensures Slot(x, 1) == 0
  {
    if x >= 1 { SlotOfOne(x - 1); }
  }

  /** Adding a larger power of two is a whole number of laps. */
  lemma {:induction false} SlotSkipsLaps(x: nat, k: nat, j: nat)
    requires k <= j
    ensures Slot(x + Pow2(j), Pow2(k)) == Slot(x, Pow2(k))
    decreases j
  {
    if k < j {
      SlotSkipsLaps(x, k, j - 1);
      SlotSkipsLaps(x + Pow2(j - 1), k, j - 1);
    }
  }

  lemma {:induction false} Pow2Adds(a: nat, b: nat)
    ensures Pow2(a + b) == Pow2(a) * Pow2(b)
  {
    if a > 0 {
      Pow2Adds(a - 1, b);
      assert (Pow2(a - 1) + Pow2(a - 1)) * Pow2(b) == Pow2(a - 1) * Pow2(b) + Pow2(a - 1) * Pow2(b);
    }
  }

  lemma Pow2Of64()
    ensures Pow2(64) == U64_COUNT
  {
    assert Pow2(8) == 256;
    Pow2Adds(8, 8);
    Pow2Adds(16, 16);
    Pow2Adds(32, 32);
  }

  lemma {:induction false} Pow2Grows(k: nat, j: nat)
    requires k <= j
    ensures Pow2(k) <= Pow2(j)
  {
    if k < j { Pow2Grows(k, j - 1); }
  }

  lemma CapacityBound(cap: nat)
    requires IsCapacity(cap)
    ensures 0 < cap < U64_COUNT
  {
    var k: nat :| k <= 63 && cap == Pow2(k);
    Pow2Grows(k, 63);
    Pow2Of64();
    assert Pow2(64) == Pow2(63) + Pow2(63);
  }

  lemma {:induction false} SlotNests(h: nat, k: nat, j: nat)
    requires k <= j
    ensures Slot(Slot(h, Pow2(j)), Pow2(k)) == Slot(h, Pow2(k))
    decreases h
  {
    var lap := Pow2(j);
    if h >= lap {
      SlotNests(h - lap, k, j);
      SlotSkipsLaps(h - lap, k, j);
    }
  }

  lemma {:induction false} WrapIsSlot(h: nat)
    ensures Wrap(h) == Slot(h, U64_COUNT)
  {
    if h >= U64_COUNT {
      WrapIsSlot(h - U64_COUNT);
    }
  }

  /** Masking the wrapped cursor finds the slot of the unbounded one: the capacity divides `2^64`. */
  lemma SlotOfCursor(h: nat, cap: nat)
    requires IsCapacity(cap)
    ensures cap > 0 && BitAnd(Wrap(h), cap - 1) == Slot(h, cap)
  {
    var k: nat :| k <= 63 && cap == Pow2(k);
    MaskIsSlot(Wrap(h), k);
    WrapIsSlot(h);
    Pow2Of64();
    SlotNests(h, k, 64);
  }

  /** Two cursors less than a lap apart use different slots. */
  lemma {:induction false} SlotsDiffer(a: nat, b: nat, n: nat)
    requires a < b < a + n
    ensures Slot(a, n) != Slot(b, n)
  {
    if a >= n {
      SlotsDiffer(a - n, b - n, n);
    }
  }

  lemma WrapNextOf(h: nat)
    ensures WrapNext(Wrap(h)) == Wrap(h + 1)
  {
  }

  /** Wrapped cursors subtract exactly while they are less than `2^64` apart. */
  lemma WrapSubOf(h: nat, t: nat)
    requires t <= h < t + U64_COUNT
    ensures WrapSub(Wrap(h), Wrap(t)) == h - t
    ensures Wrap(h) == Wrap(t) <==> h == t
  {
  }
}
