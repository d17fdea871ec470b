/**
 The fixed-capacity candle ring: a wrap-around array whose range query is two binary searches,
 proved against "the last `capacity` candles pushed" and against the linear filter.
 */
module RingBuffers {
  import opened Candles

  /** `PushOutcome`: the candle is stored either way. */
  datatype PushOutcome = Ok | OutOfOrder(prevTs: I64, thisTs: I64)

  // ----- specification -----

  /** What one push does to the logical contents of a ring of capacity `cap`. */
  function PushWindow(w: seq<Candle>, c: Candle, cap: nat): seq<Candle> {
    LastN(w + [c], cap)
  }

  lemma PushWindowLength(w: seq<Candle>, c: Candle, cap: nat)
    requires cap > 0
    ensures 0 < |PushWindow(w, c, cap)| <= cap
  {
  }

  /** The logical contents after pushing all of `pushes` into an empty ring. */
  function WindowAfter(pushes: seq<Candle>, cap: nat): seq<Candle> {
    if pushes == [] then []
    else PushWindow(WindowAfter(pushes[..|pushes| - 1], cap), pushes[|pushes| - 1], cap)
  }

  /** The outcome reported for the `i`-th push of a run. */
  function OutcomeOf(pushes: seq<Candle>, i: nat): PushOutcome
    requires i < |pushes|
  {
    if i > 0 && pushes[i].ts < pushes[i - 1].ts
    then OutOfOrder(pushes[i - 1].ts, pushes[i].ts) else Ok
  }

  /** The value the lower-bound loop computes from the interval [lo, hi). */
  function LowerSearch(s: seq<Candle>, threshold: int, lo: nat, hi: nat): (r: nat)
    requires lo <= hi <= |s|
    ensures lo <= r <= hi
    decreases hi - lo
  {
    if lo == hi then lo
    else
      var mid := lo + (hi - lo) / 2;
      if s[mid].ts < threshold then LowerSearch(s, threshold, mid + 1, hi)
      else LowerSearch(s, threshold, lo, mid)
  }

  /** The value the upper-bound loop computes from the interval [lo, hi). */
  function UpperSearch(s: seq<Candle>, threshold: int, lo: nat, hi: nat): (r: nat)
    requires lo <= hi <= |s|
    ensures lo <= r <= hi
    decreases hi - lo
  {
    if lo == hi then lo
    else
      var mid := lo + (hi - lo) / 2;
      if s[mid].ts <= threshold then UpperSearch(s, threshold, mid + 1, hi)
      else UpperSearch(s, threshold, lo, mid)
  }

  ghost predicate LowerFinds(s: seq<Candle>, threshold: int, lo: nat, hi: nat, r: nat) {
    lo <= hi <= |s| && LowerSearch(s, threshold, lo, hi) == r
  }

  lemma LowerSearchStep(s: seq<Candle>, threshold: int, lo: nat, hi: nat, r: nat)
    requires lo < hi && LowerFinds(s, threshold, lo, hi, r)
    ensures var mid := lo + (hi - lo) / 2;
            && lo <= mid < hi
            && if s[mid].ts < threshold then LowerFinds(s, threshold, mid + 1, hi, r)
               else LowerFinds(s, threshold, lo, mid, r)
  {
  }

  ghost predicate UpperFinds(s: seq<Candle>, threshold: int, lo: nat, hi: nat, r: nat) {
    lo <= hi <= |s| && UpperSearch(s, threshold, lo, hi) == r
  }

  lemma UpperSearchStep(s: seq<Candle>, threshold: int, lo: nat, hi: nat, r: nat)
    requires lo < hi && UpperFinds(s, threshold, lo, hi, r)
    ensures var mid := lo + (hi - lo) / 2;
            && lo <= mid < hi
            && if s[mid].ts <= threshold then UpperFinds(s, threshold, mid + 1, hi, r)
               else UpperFinds(s, threshold, lo, mid, r)
  {
  }

  /** The block of logical contents a range query returns, on contents in any order. */
  function RangeBlock(s: seq<Candle>, from: int, to: int): seq<Candle> {
    if s == [] || from > to then []
    else
      BoundsNeverCross(s, from, to, 0, |s|);
      s[LowerSearch(s, from, 0, |s|)..UpperSearch(s, to, 0, |s|)]
  }

  /**
   The two searches run in lockstep until they part, and they part only outwards: whatever the
   order of the contents, the lower bound never ends past the upper bound.
   */
  lemma {:induction false} BoundsNeverCross(s: seq<Candle>, from: int, to: int, lo: nat, hi: nat)
    requires lo <= hi <= |s| && from <= to
    ensures LowerSearch(s, from, lo, hi) <= UpperSearch(s, to, lo, hi)
    decreases hi - lo
  {
    if lo < hi {
      var mid := lo + (hi - lo) / 2;
      if s[mid].ts < from {
        BoundsNeverCross(s, from, to, mid + 1, hi);
      } else if s[mid].ts > to {
        BoundsNeverCross(s, from, to, lo, mid);
      }
    }
  }

  ghost predicate LowerSplitsAt(s: seq<Candle>, threshold: int, r: nat) {
    && r <= |s|
    && (forall i :: 0 <= i < r ==> s[i].ts < threshold)
    && (forall i :: r <= i < |s| ==> s[i].ts >= threshold)
  }

  /** On sorted contents the lower-bound search finds the first timestamp not below the threshold. */
  lemma {:induction false} LowerSearchSplits(s: seq<Candle>, threshold: int, r: nat, lo: nat, hi: nat)
    requires LowerSplitsAt(s, threshold, r)
    requires lo <= r <= hi <= |s|
    ensures LowerSearch(s, threshold, lo, hi) == r
    decreases hi - lo
  {
    if lo < hi {
      var mid := lo + (hi - lo) / 2;
      if s[mid].ts < threshold {
        LowerSearchSplits(s, threshold, r, mid + 1, hi);
      } else {
        LowerSearchSplits(s, threshold, r, lo, mid);
      }
    }
  }

  lemma {:induction false} LowerSplitExists(s: seq<Candle>, threshold: int) returns (r: nat)
    requires SortedByTs(s)
    ensures LowerSplitsAt(s, threshold, r)
  {
    r := |s|;
    while r > 0 && !(s[r - 1].ts < threshold)
      invariant r <= |s|
      invariant forall i :: r <= i < |s| ==> s[i].ts >= threshold
    {
      r := r - 1;
    }
    assert r > 0 ==> forall i :: 0 <= i < r - 1 ==> s[i].ts <= s[r - 1].ts;
  }

  ghost predicate UpperSplitsAt(s: seq<Candle>, threshold: int, r: nat) {
    && r <= |s|
    && (forall i :: 0 <= i < r ==> s[i].ts <= threshold)
    && (forall i :: r <= i < |s| ==> s[i].ts > threshold)
  }

  /** On sorted contents the upper-bound search finds the first timestamp above the threshold. */
  lemma {:induction false} UpperSearchSplits(s: seq<Candle>, threshold: int, r: nat, lo: nat, hi: nat)
    requires UpperSplitsAt(s, threshold, r)
    requires lo <= r <= hi <= |s|
    ensures UpperSearch(s, threshold, lo, hi) == r
    decreases hi - lo
  {
    if lo < hi {
      var mid := lo + (hi - lo) / 2;
      if s[mid].ts <= threshold {
        UpperSearchSplits(s, threshold, r, mid + 1, hi);
      } else {
        UpperSearchSplits(s, threshold, r, lo, mid);
      }
    }
  }

  lemma {:induction false} UpperSplitExists(s: seq<Candle>, threshold: int) returns (r: nat)
    requires SortedByTs(s)
    ensures UpperSplitsAt(s, threshold, r)
  {
    r := |s|;
    while r > 0 && !(s[r - 1].ts <= threshold)
      invariant r <= |s|
      invariant forall i :: r <= i < |s| ==> s[i].ts > threshold
    {
      r := r - 1;
    }
    assert r > 0 ==> forall i :: 0 <= i < r - 1 ==> s[i].ts <= s[r - 1].ts;
  }

  lemma FilterOfSplit(s: seq<Candle>, from: int, to: int, lo: nat, hi: nat)
    requires lo <= hi <= |s|
    requires forall i :: 0 <= i < |s| ==> (InWindow(s[i], from, to) <==> lo <= i < hi)
    ensures Filter(s, from, to) == s[lo..hi]
  {
    var a, b, c := s[..lo], s[lo..hi], s[hi..];
    assert s == a + (b + c);
    FilterAppend(a, b + c, from, to);
    FilterAppend(b, c, from, to);
    FilterKeepsNone(a, from, to);
    FilterKeepsAll(b, from, to);
    FilterKeepsNone(c, from, to);
  }

  /** On sorted contents a range query is the linear filter. */
  lemma RangeBlockIsFilter(s: seq<Candle>, from: int, to: int)
    requires SortedByTs(s)
    ensures RangeBlock(s, from, to) == Filter(s, from, to)
  {
    if s == [] || from > to {
      FilterKeepsNone(s, from, to);
    } else {
      BoundsNeverCross(s, from, to, 0, |s|);
      var lo := LowerSplitExists(s, from);
      LowerSearchSplits(s, from, lo, 0, |s|);
      var hi := UpperSplitExists(s, to);
      UpperSearchSplits(s, to, hi, 0, |s|);
      FilterOfSplit(s, from, to, lo, hi);
    }
  }

  lemma BlockIsSorted(s: seq<Candle>, from: int, to: int)
    requires SortedByTs(s)
    ensures SortedByTs(RangeBlock(s, from, to))
  {
    if s != [] && from <= to {
      BoundsNeverCross(s, from, to, 0, |s|);
      SliceIsSorted(s, LowerSearch(s, from, 0, |s|), UpperSearch(s, to, 0, |s|));
    }
  }

  lemma {:induction false} LowestThresholdFindsStart(s: seq<Candle>, lo: nat, hi: nat)
    requires lo <= hi <= |s|
    ensures LowerSearch(s, I64_MIN, lo, hi) == lo
    decreases hi - lo
  {
    if lo < hi {
      LowestThresholdFindsStart(s, lo, lo + (hi - lo) / 2);
    }
  }

  /** If the filter keeps exactly a prefix, the window splits the list there. */
  lemma FilterIsPrefix(s: seq<Candle>, from: int, to: int, k: nat)
    requires k <= |s| && Filter(s, from, to) == s[..k]
    ensures forall i :: 0 <= i < |s| ==> (InWindow(s[i], from, to) <==> i < k)
  {
    var a, b := s[..k], s[k..];
    forall i | 0 <= i < k
      ensures InWindow(s[i], from, to)
    {
      assert a[i] in a;
      FilterMember(s, from, to, a[i]);
    }
    FilterKeepsAll(a, from, to);
    FilterAppend(a, b, from, to);
    assert a + b == s;
    assert |Filter(b, from, to)| == 0;
    forall i | k <= i < |s|
      ensures !InWindow(s[i], from, to)
    {
      assert b[i - k] in b;
      FilterMember(b, from, to, b[i - k]);
    }
  }

  /** A query open to the left that is exact splits the contents at its end. */
  lemma ExactPrefixSplits(s: seq<Candle>, to: I64)
    requires RangeBlock(s, I64_MIN, to) == Filter(s, I64_MIN, to)
    ensures forall i, j :: 0 <= i < j < |s| && s[j].ts <= to ==> s[i].ts <= to
  {
    if s != [] {
      LowestThresholdFindsStart(s, 0, |s|);
      FilterIsPrefix(s, I64_MIN, to, UpperSearch(s, to, 0, |s|));
    }
  }

  /** The binary search answers every window exactly if and only if the contents are sorted. */
  lemma RangeExactIffSorted(s: seq<Candle>)
    ensures (forall from: I64, to: I64 :: RangeBlock(s, from, to) == Filter(s, from, to)) <==> SortedByTs(s)
  {
    if SortedByTs(s) {
      forall from: I64, to: I64
        ensures RangeBlock(s, from, to) == Filter(s, from, to)
      {
        RangeBlockIsFilter(s, from, to);
      }
    } else if forall from: I64, to: I64 :: RangeBlock(s, from, to) == Filter(s, from, to) {
      var i, j :| 0 <= i < j < |s| && s[i].ts > s[j].ts;
      ExactPrefixSplits(s, s[j].ts);
      assert false;
    }
  }

  /** The smallest failing input: two candles out of order, asked for the later one's timestamp alone. */
  lemma UnsortedRingAnswersWrongly(a: Candle, b: Candle)
    requires a.ts == 2 && b.ts == 1
    ensures RangeBlock([a, b], 1, 1) == [a, b] && Filter([a, b], 1, 1) == [b]
  {
    var s := [a, b];
    assert LowerSearch(s, 1, 0, 2) == LowerSearch(s, 1, 0, 1) == LowerSearch(s, 1, 0, 0) == 0;
    assert UpperSearch(s, 1, 0, 2) == UpperSearch(s, 1, 2, 2) == 2;
    assert s[1..] == [b] && [b][1..] == [];
    assert Filter([b], 1, 1) == [b] + [] == [b];
  }

  // ----- whole runs of pushes -----

  /** After any run of pushes the ring holds exactly the last `cap` candles, oldest first. */
  lemma {:induction false} WindowIsLastPushes(pushes: seq<Candle>, cap: nat)
    ensures WindowAfter(pushes, cap) == LastN(pushes, cap)
  {
    if pushes != [] {
      var before := pushes[..|pushes| - 1];
      WindowIsLastPushes(before, cap);
      LastNOfPush(before, pushes[|pushes| - 1], cap);
      assert before + [pushes[|pushes| - 1]] == pushes;
    }
  }

  lemma LastNOfPush(s: seq<Candle>, c: Candle, cap: nat)
    ensures LastN(LastN(s, cap) + [c], cap) == LastN(s + [c], cap)
  {
    if |s| > cap {
      assert (s[|s| - cap..] + [c])[1..] == (s + [c])[|s| + 1 - cap..];
    }
  }

  /** If the pushes after the first in the window all reported `Ok`, the window is sorted. */
  lemma {:induction false} InOrderPushesSortWindow(pushes: seq<Candle>, first: nat)
    requires first <= |pushes|
    requires forall i :: first < i < |pushes| ==> OutcomeOf(pushes, i) == Ok
    ensures SortedByTs(pushes[first..])
    decreases |pushes| - first
  {
    if first < |pushes| {
      InOrderPushesSortWindow(pushes, first + 1);
      var s := pushes[first..];
      assert s[1..] == pushes[first + 1..];
      forall i, j | 0 <= i < j < |s|
        ensures s[i].ts <= s[j].ts
      {
        assert OutcomeOf(pushes, first + 1) == Ok;
        if i > 0 {
          assert s[1..][i - 1].ts <= s[1..][j - 1].ts;
        } else if j > 1 {
          assert s[1..][0].ts <= s[1..][j - 1].ts;
        }
      }
    }
  }

  /** The window is in order exactly when no push after the first one still held was reported out of order. */
  lemma WindowSortedIffReported(pushes: seq<Candle>, cap: nat)
    ensures SortedByTs(WindowAfter(pushes, cap)) <==>
            forall i :: |pushes| - |LastN(pushes, cap)| < i < |pushes| ==> OutcomeOf(pushes, i) == Ok
  {
    WindowIsLastPushes(pushes, cap);
    var w := LastN(pushes, cap);
    var first := |pushes| - |w|;
    assert pushes[first..] == w;
    if forall i :: first < i < |pushes| ==> OutcomeOf(pushes, i) == Ok {
      InOrderPushesSortWindow(pushes, first);
    } else {
      var i :| first < i < |pushes| && OutcomeOf(pushes, i) != Ok;
      assert w[i - first - 1] == pushes[i - 1] && w[i - first] == pushes[i];
    }
  }

  /**
   A run whose pushes, after the first one still held, were all reported `Ok` answers every
   range query like the linear filter over the last `cap` pushes.
   */
  lemma RangeExactAfterInOrderRun(pushes: seq<Candle>, cap: nat, from: int, to: int)
    requires forall i :: |pushes| - |LastN(pushes, cap)| < i < |pushes| ==> OutcomeOf(pushes, i) == Ok
    ensures RangeBlock(WindowAfter(pushes, cap), from, to) == Filter(LastN(pushes, cap), from, to)
  {
    WindowIsLastPushes(pushes, cap);
    var w := LastN(pushes, cap);
    InOrderPushesSortWindow(pushes, |pushes| - |w|);
    assert pushes[|pushes| - |w|..] == w;
    RangeBlockIsFilter(w, from, to);
  }

  // ----- the ring itself -----

  /** Physical index of logical position `i`: oldest first, wrapping at `head` once full. */
  function Physical(cap: nat, head: nat, len: nat, i: nat): nat {
    var raw := (if len < cap then 0 else head) + i;
    if raw >= cap then raw - cap else raw
  }

  /** The fields of a ring represent exactly the last `|b|` of `pushes`. */
  ghost predicate Represents<T>(b: seq<T>, head: nat, len: nat, pushes: seq<T>) {
    && len == (if |pushes| < |b| then |pushes| else |b|)
    && (if |b| == 0 then head == 0 else head < |b|)
    && (len < |b| ==> head == len)
    && forall i: nat :: i < len ==> b[Physical(|b|, head, len, i)] == pushes[|pushes| - len + i]
  }

  lemma NextIndex(head: nat, cap: nat)
    requires head < cap
    ensures (head + 1) % cap == if head + 1 < cap then head + 1 else 0
  {
  }

  /** One push, in terms of the fields only: head advances, the window moves on by `c`. */
  lemma PushKeepsLayout<T>(b: seq<T>, head: nat, len: nat, pushes: seq<T>, c: T)
    requires Represents(b, head, len, pushes) && |b| > 0
    ensures Represents(b[head := c], if head + 1 < |b| then head + 1 else 0,
                       if len < |b| then len + 1 else len, pushes + [c])
  {
    var head2, len2 := if head + 1 < |b| then head + 1 else 0, if len < |b| then len + 1 else len;
    forall i: nat | i < len2
      ensures b[head := c][Physical(|b|, head2, len2, i)] == (pushes + [c])[|pushes| + 1 - len2 + i]
    {
      if i + 1 < len2 {
        var was := if len < |b| then i else i + 1;
        assert b[Physical(|b|, head, len, was)] == pushes[|pushes| - len + was];
      }
    }
  }

  lemma OutcomeOfLast(pushes: seq<Candle>, c: Candle)
    ensures OutcomeOf(pushes + [c], |pushes|) ==
            if pushes != [] && c.ts < pushes[|pushes| - 1].ts then OutOfOrder(pushes[|pushes| - 1].ts, c.ts) else Ok
  {
  }

  class RingBuffer {
    var buf: array<Candle>
    var head: nat          // next write position
    var len: nat           // current count
    var lastTs: Option<I64>
    ghost var pushes: seq<Candle>  // everything ever pushed

    /** The logical contents: the last `capacity` pushes, oldest first. */
    ghost function Contents(): seq<Candle>
      reads this
    {
      LastN(pushes, buf.Length)
    }

    ghost predicate Valid()
      reads this, buf
    {
      && Represents(buf[..], head, len, pushes)
      && lastTs == (if pushes == [] then None else Some(pushes[|pushes| - 1].ts))
    }

    constructor (capacity: nat)
      ensures Valid() && fresh(buf) && buf.Length == capacity && pushes == []
    {
      var blank := Candle(0, Finite(0.0), Finite(0.0), Finite(0.0), Finite(0.0), Finite(0.0));
      buf := new Candle[capacity](_ => blank);
      head, len, lastTs, pushes := 0, 0, None, [];
    }

    /** A zero-capacity ring panics on its first push, so a caller owes a positive capacity. */
    method Push(c: Candle) returns (outcome: PushOutcome)
      requires Valid() && buf.Length > 0
      modifies this, buf
      ensures Valid() && buf == old(buf)
      ensures pushes == old(pushes) + [c]
      ensures outcome == OutcomeOf(pushes, |pushes| - 1)
    {
      ghost var b := buf[..];
      PushKeepsLayout(b, head, len, pushes, c);
      NextIndex(head, buf.Length);
      OutcomeOfLast(pushes, c);
      match lastTs {
        case Some(prev) => outcome := if c.ts < prev then OutOfOrder(prev, c.ts) else Ok;
        case None => outcome := Ok;
      }
      buf[head] := c;
      head := (head + 1) % buf.Length;
      if len < buf.Length { len := len + 1; }
      lastTs := Some(c.ts);
      pushes := pushes + [c];
      assert buf[..] == b[old(head) := c];
    }

    function PhysicalIdx(i: nat): (p: nat)
      reads this, buf
      requires Valid() && i < len
      ensures p < buf.Length && buf[p] == Contents()[i]
    {
      assert buf[..][Physical(buf.Length, head, len, i)] == pushes[|pushes| - len + i];
      Physical(buf.Length, head, len, i)
    }

    method TsAt(i: nat) returns (ts: I64)
      requires Valid() && i < len
      ensures |Contents()| == len && ts == Contents()[i].ts
    {
      ts := buf[PhysicalIdx(i)].ts;
    }

    method LowerBoundIdx(threshold: I64) returns (r: nat)
      requires Valid()
      ensures r == LowerSearch(Contents(), threshold, 0, len)
    {
      ghost var s := Contents();
      var lo: nat, hi: nat := 0, len;
      ghost var found := LowerSearch(s, threshold, 0, |s|);
      while lo < hi
        invariant lo <= hi <= |s| == len && LowerFinds(s, threshold, lo, hi, found)
      {
        LowerSearchStep(s, threshold, lo, hi, found);
        var mid := lo + (hi - lo) / 2;
        var ts := TsAt(mid);
        if ts < threshold { lo := mid + 1; } else { hi := mid; }
      }
      return lo;
    }

    method UpperBoundIdx(threshold: I64) returns (r: nat)
      requires Valid()
      ensures r == UpperSearch(Contents(), threshold, 0, len)
    {
      ghost var s := Contents();
      var lo: nat, hi: nat := 0, len;
      ghost var found := UpperSearch(s, threshold, 0, |s|);
      while lo < hi
        invariant lo <= hi <= |s| == len && UpperFinds(s, threshold, lo, hi, found)
      {
        UpperSearchStep(s, threshold, lo, hi, found);
        var mid := lo + (hi - lo) / 2;
        var ts := TsAt(mid);
        if ts <= threshold { lo := mid + 1; } else { hi := mid; }
      }
      return lo;
    }

    /** Two contiguous chunk copies, at most one of them after the wrap. */
    method CopyLogicalRange(lo: nat, hi: nat) returns (out: seq<Candle>)
      requires Valid() && lo <= hi <= len
      ensures out == Contents()[lo..hi]
    {
      if lo == hi { return []; }
      var cap := buf.Length;
      var start, count := PhysicalIdx(lo), hi - lo;
      if start + count <= cap {
        out := buf[start..start + count];
      } else {
        var first := cap - start;
        out := buf[start..cap] + buf[0..count - first];
      }
      assert |out| == count;
      forall k: nat | k < count
        ensures out[k] == Contents()[lo + k]
      {
        assert out[k] == buf[PhysicalIdx(lo + k)];
      }
    }

    method ToVec() returns (out: seq<Candle>)
      requires Valid()
      ensures out == LastN(pushes, buf.Length)
    {
      out := CopyLogicalRange(0, len);
    }

    method Range(from: I64, to: I64) returns (out: seq<Candle>)
      requires Valid()
      ensures out == RangeBlock(LastN(pushes, buf.Length), from, to)
      ensures SortedByTs(LastN(pushes, buf.Length)) ==> out == Filter(LastN(pushes, buf.Length), from, to)
    {
      if SortedByTs(Contents()) { RangeBlockIsFilter(Contents(), from, to); }
      if len == 0 || from > to { return []; }
      var lo := LowerBoundIdx(from);
      var hi := UpperBoundIdx(to);
      BoundsNeverCross(Contents(), from, to, 0, len);
      out := CopyLogicalRange(lo, hi);
    }

    method LastCandles(n: nat) returns (out: seq<Candle>)
      requires Valid()
      ensures out == LastN(LastN(pushes, buf.Length), n)
    {
      var take := if n < len then n else len;
      if take == 0 { return []; }
      out := CopyLogicalRange(len - take, len);
    }
  }
}
