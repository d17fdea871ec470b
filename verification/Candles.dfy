/** The candle record and the sequence vocabulary shared by the storage modules. */
module Candles {

  /** Rust's `i64`, the type of every timestamp. */
  type I64 = x: int | -0x8000_0000_0000_0000 <= x < 0x8000_0000_0000_0000

  const I64_MIN: I64 := -0x8000_0000_0000_0000

  datatype Option<+T> = None | Some(value: T)

  /** An `f64` seen only through `is_finite`; its finite value is exact. */
  datatype Float = NaN | PosInfinity | NegInfinity | Finite(value: real)

  datatype Candle = Candle(ts: I64, open: Float, high: Float, low: Float, close: Float, volume: Float)
  {
    /** `Candle::is_valid`: every field finite and the timestamp not negative. */
    predicate IsValid() {
      ts >= 0 && open.Finite? && high.Finite? && low.Finite? && close.Finite? && volume.Finite?
    }
  }

  /** The last `n` elements of `s`, or all of it. */
  function LastN<T>(s: seq<T>, n: nat): (r: seq<T>)
    ensures |r| == if |s| < n then |s| else n
  {
    if n >= |s| then s else s[|s| - n..]
  }

  lemma ConcatAssociates<T>(a: seq<T>, b: seq<T>, c: seq<T>)
    ensures a + (b + c) == (a + b) + c
  {
  }

  ghost predicate SortedByTs(s: seq<Candle>) {
    forall i, j :: 0 <= i < j < |s| ==> s[i].ts <= s[j].ts
  }

  ghost predicate StrictlyByTs(s: seq<Candle>) {
    forall i, j :: 0 <= i < j < |s| ==> s[i].ts < s[j].ts
  }

  lemma TailSorted(s: seq<Candle>)
    requires s != []
    ensures SortedByTs(s) ==> SortedByTs(s[1..])
    ensures StrictlyByTs(s) ==> StrictlyByTs(s[1..])
  {
  }

  lemma SliceIsSorted(s: seq<Candle>, lo: nat, hi: nat)
    requires lo <= hi <= |s| && SortedByTs(s)
    ensures SortedByTs(s[lo..hi])
  {
  }

  lemma PrependSorted(c: Candle, s: seq<Candle>)
    requires SortedByTs(s) && (s != [] ==> c.ts <= s[0].ts)
    ensures SortedByTs([c] + s)
  {
  }

  /** Some candle of `s` carries timestamp `ts`. */
  ghost predicate HasTs(s: seq<Candle>, ts: int) {
    exists i :: 0 <= i < |s| && s[i].ts == ts
  }

  predicate InWindow(c: Candle, from: int, to: int) {
    from <= c.ts <= to
  }

  /** The linear reference for every range query: keep, in order, what lies in the window. */
  function Filter(s: seq<Candle>, from: int, to: int): seq<Candle>
  {
    if s == [] then []
    else (if InWindow(s[0], from, to) then [s[0]] else []) + Filter(s[1..], from, to)
  }

  lemma {:induction false} FilterMember(s: seq<Candle>, from: int, to: int, c: Candle)
    ensures c in Filter(s, from, to) <==> c in s && InWindow(c, from, to)
  {
    if s != [] {
      FilterMember(s[1..], from, to, c);
      assert c in s <==> c == s[0] || c in s[1..];
    }
  }

  lemma {:induction false} FilterAppend(a: seq<Candle>, b: seq<Candle>, from: int, to: int)
    ensures Filter(a + b, from, to) == Filter(a, from, to) + Filter(b, from, to)
  {
    if a == [] {
      assert a + b == b;
    } else {
      var first := if InWindow(a[0], from, to) then [a[0]] else [];
      FilterAppend(a[1..], b, from, to);
      calc {
        Filter(a + b, from, to);
        { assert (a + b)[1..] == a[1..] + b; }
        first + Filter(a[1..] + b, from, to);
        first + (Filter(a[1..], from, to) + Filter(b, from, to));
        { ConcatAssociates(first, Filter(a[1..], from, to), Filter(b, from, to)); }
        Filter(a, from, to) + Filter(b, from, to);
      }
    }
  }

  lemma {:induction false} FilterKeepsAll(s: seq<Candle>, from: int, to: int)
    requires forall i :: 0 <= i < |s| ==> InWindow(s[i], from, to)
    ensures Filter(s, from, to) == s
  {
    if s != [] {
      FilterKeepsAll(s[1..], from, to);
    }
  }

  lemma {:induction false} FilterKeepsNone(s: seq<Candle>, from: int, to: int)
    requires forall i :: 0 <= i < |s| ==> !InWindow(s[i], from, to)
    ensures Filter(s, from, to) == []
  {
    if s != [] {
      FilterKeepsNone(s[1..], from, to);
    }
  }
}
