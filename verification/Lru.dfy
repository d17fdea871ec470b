/** Exact least-recently-used order, as a function of the accepted appends alone. */
module Lru {
  import opened Candles

  function Elems(s: seq<string>): set<string> { set x | x in s }

  ghost predicate Distinct(s: seq<string>) {
    forall i, j :: 0 <= i < j < |s| ==> s[i] != s[j]
  }

  function Without(s: seq<string>, x: string): (r: seq<string>)
    ensures |r| <= |s|
  {
    if s == [] then [] else (if s[0] == x then [] else [s[0]]) + Without(s[1..], x)
  }

  /** The distinct symbols of `uses`, most recently used first. */
  function Recency(uses: seq<string>): seq<string> {
    if uses == [] then []
    else [uses[|uses| - 1]] + Without(Recency(uses[..|uses| - 1]), uses[|uses| - 1])
  }

  function Take(s: seq<string>, n: nat): seq<string> {
    if |s| <= n then s else s[..n]
  }

  /** The symbols used after the last use of `x`. */
  function UsedSince(uses: seq<string>, x: string): set<string> {
    if uses == [] || uses[|uses| - 1] == x then {}
    else UsedSince(uses[..|uses| - 1], x) + {uses[|uses| - 1]}
  }

  // ----- lists without an element -----

  lemma {:induction false} WithoutElems(s: seq<string>, x: string)
    ensures Elems(Without(s, x)) == Elems(s) - {x}
    ensures Distinct(s) ==> Distinct(Without(s, x))
  {
    if s != [] {
      WithoutElems(s[1..], x);
      var r := Without(s[1..], x);
      assert s == [s[0]] + s[1..];
      assert Elems(s) == {s[0]} + Elems(s[1..]);
      if Distinct(s) {
        assert s[0] !in Elems(s[1..]);
        if s[0] != x { PrependDistinct(s[0], r); }
      }
      assert Elems([s[0]] + r) == {s[0]} + Elems(r);
    }
  }

  lemma PrependDistinct(x: string, s: seq<string>)
    requires Distinct(s) && x !in Elems(s)
    ensures Distinct([x] + s)
  {
    assert forall i :: 0 <= i < |s| ==> s[i] in Elems(s);
  }

  lemma {:induction false} WithoutAbsent(s: seq<string>, x: string)
    requires x !in s
    ensures Without(s, x) == s
  {
    if s != [] { WithoutAbsent(s[1..], x); }
  }

  lemma {:induction false} WithoutAppend(a: seq<string>, b: seq<string>, x: string)
    ensures Without(a + b, x) == Without(a, x) + Without(b, x)
  {
    if a == [] {
      assert a + b == b;
    } else {
      WithoutAppend(a[1..], b, x);
      var first := if a[0] == x then [] else [a[0]];
      calc {
        Without(a + b, x);
        { assert (a + b)[1..] == a[1..] + b; }
        first + (Without(a[1..], x) + Without(b, x));
        { ConcatAssociates(first, Without(a[1..], x), Without(b, x)); }
        Without(a, x) + Without(b, x);
      }
    }
  }

  lemma {:induction false} RecencyElems(uses: seq<string>)
    ensures Distinct(Recency(uses)) && Elems(Recency(uses)) == Elems(uses)
  {
    if uses != [] {
      var n, last := |uses| - 1, uses[|uses| - 1];
      var before := Recency(uses[..n]);
      RecencyElems(uses[..n]);
      WithoutElems(before, last);
      PrependDistinct(last, Without(before, last));
      assert uses == uses[..n] + [last];
      assert Elems(uses) == Elems(uses[..n]) + {last};
      assert Elems([last] + Without(before, last)) == {last} + Elems(Without(before, last));
    }
  }

  // ----- the order means what it should -----

  lemma RecencyStep(before: seq<string>, last: string, i: nat, j: nat)
    requires Distinct(before) && j < |before| && i < |Without(before, last)|
    requires before[j] == Without(before, last)[i] && before[j] != last
    ensures Elems([last] + Without(before, last)[..i]) == {last} + Elems(before[..j])
  {
    WithoutPrefix(before, last, j, i);
    WithoutElems(before[..j], last);
    var w := Without(before[..j], last);
    assert Elems([last] + w) == {last} + Elems(w);
  }

  /** In front of a symbol stand exactly the symbols used since its last use. */
  lemma {:induction false} RecencyCounts(uses: seq<string>, i: nat)
    requires i < |Recency(uses)|
    ensures Elems(Recency(uses)[..i]) == UsedSince(uses, Recency(uses)[i])
  {
    if i > 0 {
      var last, earlier := uses[|uses| - 1], uses[..|uses| - 1];
      var before := Recency(earlier);
      var kept := Without(before, last);
      var j := FindKept(before, last, i - 1, earlier);
      PrependAt(last, kept, i);
      RecencyStep(before, last, i - 1, j);
      RecencyCounts(earlier, j);
    }
  }

  lemma PrependAt(x: string, s: seq<string>, i: nat)
    requires 0 < i <= |s|
    ensures ([x] + s)[..i] == [x] + s[..i - 1] && ([x] + s)[i] == s[i - 1]
  {
  }

  lemma FindKept(before: seq<string>, last: string, i: nat, earlier: seq<string>) returns (j: nat)
    requires before == Recency(earlier) && i < |Without(before, last)|
    ensures Distinct(before) && j < |before| && before[j] == Without(before, last)[i] && before[j] != last
  {
    RecencyElems(earlier);
    WithoutElems(before, last);
    var x := Without(before, last)[i];
    assert x in Elems(Without(before, last));
    j :| 0 <= j < |before| && before[j] == x;
  }

  /** Dropping an element keeps the order of the others. */
  lemma {:induction false} WithoutPrefix(s: seq<string>, x: string, j: nat, k: nat)
    requires Distinct(s) && j < |s| && k < |Without(s, x)| && s[j] == Without(s, x)[k] && s[j] != x
    ensures Without(s, x)[..k] == Without(s[..j], x)
  {
    var a, b := s[..j], s[j..];
    assert s == a + b;
    WithoutAppend(a, b, x);
    WithoutElems(s, x);
    var w := Without(s, x);
    assert Without(b, x)[0] == s[j];
    assert w[|Without(a, x)|] == s[j];
    assert k == |Without(a, x)|;
  }

  lemma {:induction false} DistinctCount(s: seq<string>)
    requires Distinct(s)
    ensures |Elems(s)| == |s|
  {
    if s != [] {
      DistinctCount(s[1..]);
      assert s == [s[0]] + s[1..];
      assert Elems(s) == {s[0]} + Elems(s[1..]);
    }
  }

  /** `x` is among the `n` most recently used symbols iff it was used and fewer than `n` others since. */
  lemma TakeIsMostRecent(uses: seq<string>, n: nat, x: string)
    ensures x in Take(Recency(uses), n) <==> x in uses && |UsedSince(uses, x)| < n
  {
    var r := Recency(uses);
    RecencyElems(uses);
    assert x in uses <==> x in Elems(uses);
    if x in r {
      var i :| 0 <= i < |r| && r[i] == x;
      RecencyCounts(uses, i);
      DistinctCount(r[..i]);
      if i < n {
        assert Take(r, n)[i] == x;
      } else {
        assert forall j :: 0 <= j < n ==> r[j] != x;
      }
    } else {
      assert x !in Elems(r);
    }
  }

  // ----- one use of the cache -----

  lemma WithoutOne(s: seq<string>, x: string)
    requires Distinct(s) && x in s
    ensures |Without(s, x)| == |s| - 1
  {
    WithoutElems(s, x);
    DistinctCount(s);
    DistinctCount(Without(s, x));
  }

  lemma TakePrefix(a: seq<string>, b: seq<string>, n: nat)
    requires |a| == n
    ensures Take(a + b, n) == a
  {
  }

  /** Moving an element of the first `n` to the front leaves what lies behind them alone. */
  lemma TakeHit(r: seq<string>, x: string, n: nat)
    requires Distinct(r) && x in Take(r, n)
    ensures Take([x] + Without(r, x), n) == [x] + Without(Take(r, n), x)
  {
    if |r| > n {
      var a, b := r[..n], r[n..];
      var w := Without(a, x);
      assert r == a + b;
      WithoutAppend(a, b, x);
      BehindIsDistinct(r, n, x);
      WithoutAbsent(b, x);
      WithoutOne(a, x);
      ConcatAssociates([x], w, b);
      TakePrefix([x] + w, b, n);
    } else {
      WithoutOne(r, x);
    }
  }

  lemma BehindIsDistinct(r: seq<string>, n: nat, x: string)
    requires Distinct(r) && n <= |r| && x in r[..n]
    ensures Distinct(r[..n]) && x !in r[n..]
  {
    var i :| 0 <= i < n && r[i] == x;
    assert forall j :: n <= j < |r| ==> r[j] != x;
  }

  /** Using a symbol that is already among the first `n` only moves it to the front. */
  lemma UseHit(uses: seq<string>, x: string, n: nat)
    requires x in Take(Recency(uses), n)
    ensures Take(Recency(uses + [x]), n) == [x] + Without(Take(Recency(uses), n), x)
  {
    RecencyElems(uses);
    assert (uses + [x])[..|uses|] == uses;
    TakeHit(Recency(uses), x, n);
  }

  /** Using a symbol that is not among the first `n` pushes it in front and the last one out. */
  lemma UseMiss(uses: seq<string>, x: string, n: nat)
    requires n > 0 && x !in Take(Recency(uses), n)
    ensures Take(Recency(uses + [x]), n) == [x] + Take(Recency(uses), n - 1)
  {
    var r := Recency(uses);
    assert (uses + [x])[..|uses|] == uses;
    if |r| > n {
      assert r == r[..n] + r[n..];
      WithoutAppend(r[..n], r[n..], x);
      WithoutAbsent(r[..n], x);
      assert Take([x] + (r[..n] + Without(r[n..], x)), n) == [x] + r[..n - 1];
    } else {
      WithoutAbsent(r, x);
      if |r| == n { assert Take([x] + r, n) == [x] + r[..n - 1]; }
    }
  }
}
