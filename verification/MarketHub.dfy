/** The two numeric state machines of the market hub: the incremental moving average and the signal rate limiter. */
module MarketHub {
  import opened Candles
  import opened RingBuffers

  // ----- rolling average -----

  function Total(s: seq<real>): real {
    if s == [] then 0.0 else Total(s[..|s| - 1]) + s[|s| - 1]
  }

  lemma {:induction false} TotalDrop(s: seq<real>)
    requires s != []
    ensures Total(s[1..]) == Total(s) - s[0]
  {
    var n := |s| - 1;
    if n > 0 {
      assert s[1..][..n - 1] == s[..n][1..];
      TotalDrop(s[..n]);
    }
  }

  /** The window of the last `n` closes slides by one. */
  lemma WindowSlides(closes: seq<real>, c: real, n: nat)
    requires n > 0
    ensures Total(LastN(closes + [c], n)) ==
              Total(LastN(closes, n)) + c - (if |closes| >= n then closes[|closes| - n] else 0.0)
  {
    var w, w2 := LastN(closes, n), LastN(closes + [c], n);
    if |closes| >= n {
      assert w2 == w[1..] + [c] && w2[..n - 1] == w[1..];
      TotalDrop(w);
    } else {
      assert w2[..|closes|] == closes == w;
    }
  }

  /** A ring and a sum that stand for the last closes. */
  ghost predicate SmaOk(b: seq<real>, next: nat, filled: nat, closes: seq<real>, sum: real) {
    Represents(b, next, filled, closes) && sum == Total(LastN(closes, |b|))
  }

  /** One push, in terms of the fields only. */
  lemma SmaStep(b: seq<real>, next: nat, filled: nat, closes: seq<real>, sum: real, c: real)
    requires SmaOk(b, next, filled, closes, sum) && |b| > 0
    ensures next < |b| && filled <= |b|
    ensures SmaOk(b[next := c], if next + 1 < |b| then next + 1 else 0, if filled < |b| then filled + 1 else filled,
                  closes + [c], (if filled == |b| then sum - b[next] else sum) + c)
  {
    PushKeepsLayout(b, next, filled, closes, c);
    WindowSlides(closes, c, |b|);
    if filled == |b| { assert b[Physical(|b|, next, filled, 0)] == closes[|closes| - |b|]; }
  }

  /** A window of no closes stays empty. */
  lemma ZeroStep(b: seq<real>, next: nat, filled: nat, closes: seq<real>, sum: real, c: real)
    requires SmaOk(b, next, filled, closes, sum) && |b| == 0
    ensures SmaOk(b, next, filled, closes + [c], sum)
  {
    assert LastN(closes + [c], 0) == [] && LastN(closes, 0) == [];
  }

  class RollingSma {
    const period: nat
    const buf: array<real>
    var next: nat
    var filled: nat
    var sum: real
    ghost var closes: seq<real>   // every close pushed so far

    /** The ring holds, and the sum totals, the last `period` closes. */
    ghost predicate Valid()
      reads this, buf
    {
      buf.Length == period && SmaOk(buf[..], next, filled, closes, sum)
    }

    constructor (period: nat)
      ensures Valid() && this.period == period && closes == [] && fresh(buf)
    {
      this.period := period;
      buf := new real[period](_ => 0.0);
      next, filled, sum, closes := 0, 0, 0.0, [];
    }

    method Push(close: real)
      requires Valid()
      modifies this, buf
      ensures Valid() && closes == old(closes) + [close]
    {
      ghost var b := buf[..];
      if period == 0 {
        ZeroStep(b, next, filled, closes, sum, close);
        closes := closes + [close];
        return;
      }
      SmaStep(b, next, filled, closes, sum, close);
      NextIndex(next, period);
      if filled == period {
        sum := sum - buf[next];
      } else {
        filled := filled + 1;
      }
      sum := sum + close;
      buf[next] := close;
      next := (next + 1) % period;
      closes := closes + [close];
      assert buf[..] == b[old(next) := close];
    }

    /** Defined from the `period`-th close on, and then the mean of the last `period` closes. */
    function Value(): (r: Option<real>)
      requires Valid()
      reads this, buf
      ensures r.Some? <==> 0 < period <= |closes|
      ensures r.Some? ==> r.value == Total(closes[|closes| - period..]) / period as real
    {
      if period > 0 && filled == period then Some(sum / period as real) else None
    }
  }

  // ----- rate limiter -----

  /** One second of the monotonic clock, in nanoseconds. */
  const SECOND: int := 1_000_000_000

  /** `accepted` logs the clock readings of the accepted signals and `starts` those that opened a bucket. */
  datatype Limiter = Limiter(start: int, count: nat, accepted: seq<int>, starts: set<int>)

  function Opened(now: int): Limiter { Limiter(now, 0, [], {now}) }

  function Rolled(l: Limiter, now: int): Limiter {
    if now - l.start >= SECOND then Limiter(now, 0, l.accepted, l.starts + {now}) else l
  }

  function Tried(l: Limiter, max: nat, now: int): Limiter {
    var r := Rolled(l, now);
    if r.count >= max then r else r.(count := r.count + 1, accepted := r.accepted + [now])
  }

  /** How many readings lie from `lo` up to but not including `hi`. */
  function CountIn(s: seq<int>, lo: int, hi: int): nat {
    if s == [] then 0
    else CountIn(s[..|s| - 1], lo, hi) + if lo <= s[|s| - 1] < hi then 1 else 0
  }

  function InSecond(s: seq<int>, t: int): nat { CountIn(s, t, t + SECOND) }

  lemma {:induction false} CountSplits(s: seq<int>, a: int, b: int, c: int)
    requires a <= b <= c
    ensures CountIn(s, a, c) == CountIn(s, a, b) + CountIn(s, b, c)
  {
    if s != [] { CountSplits(s[..|s| - 1], a, b, c); }
  }

  lemma {:induction false} CountPast(s: seq<int>, lo: int, hi: int)
    requires forall i :: 0 <= i < |s| ==> s[i] < lo
    ensures CountIn(s, lo, hi) == 0
  {
    if s != [] { CountPast(s[..|s| - 1], lo, hi); }
  }

  /** Beyond the last reading a window holds nothing more. */
  lemma {:induction false} CountEnds(s: seq<int>, lo: int, last: int, hi: int)
    requires (forall i :: 0 <= i < |s| ==> s[i] <= last) && last < hi
    ensures CountIn(s, lo, hi) == CountIn(s, lo, last + 1)
  {
    if s != [] { CountEnds(s[..|s| - 1], lo, last, hi); }
  }

  lemma CountAppend(s: seq<int>, x: int, lo: int, hi: int)
    ensures CountIn(s + [x], lo, hi) == CountIn(s, lo, hi) + if lo <= x < hi then 1 else 0
  {
    assert (s + [x])[..|s|] == s;
  }

  /** The readings so far end at `last`; the open bucket holds `count` acceptances and the one before at most `max`. */
  ghost predicate BucketOk(l: Limiter, max: nat, last: int) {
    && l.start <= last < l.start + SECOND && l.count <= max && l.start in l.starts
    && (forall i :: 0 <= i < |l.accepted| ==> l.accepted[i] <= last)
    && CountIn(l.accepted, l.start, last + 1) == l.count
    && (forall t :: l.start - SECOND < t <= l.start ==> CountIn(l.accepted, t, l.start) <= max)
  }

  /** No second holds more than `2 * max` acceptances, and no bucket more than `max`. */
  ghost predicate LimitOk(l: Limiter, max: nat) {
    && (forall t :: InSecond(l.accepted, t) <= 2 * max)
    && (forall b :: b in l.starts ==> InSecond(l.accepted, b) <= max && (b == l.start || b + SECOND <= l.start))
  }

  lemma OpenedOk(max: nat, now: int)
    ensures BucketOk(Opened(now), max, now) && LimitOk(Opened(now), max)
  {
  }

  lemma RolledOk(l: Limiter, max: nat, last: int, now: int)
    requires BucketOk(l, max, last) && LimitOk(l, max) && last <= now
    ensures BucketOk(Rolled(l, now), max, now) && LimitOk(Rolled(l, now), max)
  {
    var r := Rolled(l, now);
    if r == l {
      CountEnds(l.accepted, l.start, last, now + 1);
    } else {
      CountPast(l.accepted, now, now + 1);
      CountPast(l.accepted, now, now + SECOND);
      forall t | now - SECOND < t <= now
        ensures CountIn(l.accepted, t, now) <= max
      {
        CountSplits(l.accepted, l.start, t, now);
        CountEnds(l.accepted, l.start, last, now);
      }
    }
  }

  /** A second that reaches into the open bucket starts too late for any bucket but the one before. */
  lemma SecondSpansTwoBuckets(l: Limiter, max: nat, now: int, t: int)
    requires BucketOk(l, max, now) && t <= now < t + SECOND
    ensures InSecond(l.accepted, t) <= max + l.count
    ensures t >= l.start ==> InSecond(l.accepted, t) <= l.count
  {
    CountEnds(l.accepted, t, now, t + SECOND);
    if t >= l.start {
      CountSplits(l.accepted, l.start, t, now + 1);
    } else {
      CountSplits(l.accepted, t, l.start, now + 1);
    }
  }

  lemma AcceptedOk(l: Limiter, max: nat, now: int)
    requires BucketOk(l, max, now) && LimitOk(l, max) && l.count < max
    ensures var r := l.(count := l.count + 1, accepted := l.accepted + [now]); BucketOk(r, max, now) && LimitOk(r, max)
  {
    var s := l.accepted + [now];
    CountAppend(l.accepted, now, l.start, now + 1);
    forall t | l.start - SECOND < t <= l.start
      ensures CountIn(s, t, l.start) <= max
    {
      CountAppend(l.accepted, now, t, l.start);
    }
    forall t
      ensures InSecond(s, t) <= 2 * max && (t in l.starts ==> InSecond(s, t) <= max)
    {
      AcceptedInSecond(l, max, now, t);
    }
  }

  lemma AcceptedInSecond(l: Limiter, max: nat, now: int, t: int)
    requires BucketOk(l, max, now) && LimitOk(l, max) && l.count < max
    ensures InSecond(l.accepted + [now], t) <= 2 * max
    ensures t in l.starts ==> InSecond(l.accepted + [now], t) <= max
  {
    CountAppend(l.accepted, now, t, t + SECOND);
    if t <= now < t + SECOND {
      SecondSpansTwoBuckets(l, max, now, t);
    } else {
      assert InSecond(l.accepted, t) <= 2 * max;
    }
  }

  lemma TriedOk(l: Limiter, max: nat, last: int, now: int)
    requires BucketOk(l, max, last) && LimitOk(l, max) && last <= now
    ensures BucketOk(Tried(l, max, now), max, now) && LimitOk(Tried(l, max, now), max)
  {
    RolledOk(l, max, last, now);
    if Rolled(l, now).count < max { AcceptedOk(Rolled(l, now), max, now); }
  }

  class RateLimiter {
    var bucketStart: int
    var count: nat
    const max: nat
    ghost var log: Limiter
    ghost var last: int   // the latest clock reading

    ghost predicate Valid()
      reads this
    {
      log.start == bucketStart && log.count == count && BucketOk(log, max, last) && LimitOk(log, max)
    }

    constructor (max: nat, now: int)
      ensures Valid() && this.max == max && log == Opened(now) && last == now
    {
      bucketStart, count := now, 0;
      this.max := max;
      log, last := Opened(now), now;
      OpenedOk(max, now);
    }

    /** `now` is the clock reading, which never goes back. */
    method TryAccept(now: int) returns (ok: bool)
      requires Valid() && now >= last
      modifies this
      ensures Valid() && last == now && log == Tried(old(log), max, now)
      ensures ok <==> log.accepted == old(log).accepted + [now]
      ensures ok <==> CountIn(old(log).accepted, bucketStart, now + 1) < max
    {
      TriedOk(log, max, last, now);
      RolledOk(log, max, last, now);
      log, last := Tried(log, max, now), now;
      if now - bucketStart >= SECOND {
        bucketStart := now;
        count := 0;
      }
      if count >= max { return false; }
      count := count + 1;
      return true;
    }
  }

  // ----- the advertised limit -----

  /** A limiter opened at `start` that has tried every reading in turn. */
  function Run(start: int, max: nat, readings: seq<int>): Limiter {
    if readings == [] then Opened(start)
    else Tried(Run(start, max, readings[..|readings| - 1]), max, readings[|readings| - 1])
  }

  ghost predicate Clock(start: int, readings: seq<int>) {
    && (forall i :: 0 <= i < |readings| ==> start <= readings[i])
    && (forall i, j :: 0 <= i < j < |readings| ==> readings[i] <= readings[j])
  }

  /** Over every run on a clock that never goes back: at most `2 * max` in any second, at most `max` in any bucket. */
  lemma {:induction false} RunsAreLimited(start: int, max: nat, readings: seq<int>)
    requires Clock(start, readings)
    ensures LimitOk(Run(start, max, readings), max)
    ensures BucketOk(Run(start, max, readings), max, if readings == [] then start else readings[|readings| - 1])
  {
    if readings == [] {
      OpenedOk(max, start);
    } else {
      var n := |readings| - 1;
      RunsAreLimited(start, max, readings[..n]);
      TriedOk(Run(start, max, readings[..n]), max, if n == 0 then start else readings[n - 1], readings[n]);
    }
  }

  function Repeat(x: int, n: nat): seq<int> { if n == 0 then [] else Repeat(x, n - 1) + [x] }

  lemma {:induction false} RepeatIs(x: int, n: nat)
    ensures |Repeat(x, n)| == n && forall i :: 0 <= i < n ==> Repeat(x, n)[i] == x
  {
    if n > 0 { RepeatIs(x, n - 1); }
  }

  lemma {:induction false} CountAll(s: seq<int>, lo: int, hi: int)
    requires forall i :: 0 <= i < |s| ==> lo <= s[i] < hi
    ensures CountIn(s, lo, hi) == |s|
  {
    if s != [] { CountAll(s[..|s| - 1], lo, hi); }
  }

  function TriedTimes(l: Limiter, max: nat, now: int, n: nat): Limiter {
    if n == 0 then l else Tried(TriedTimes(l, max, now, n - 1), max, now)
  }

  lemma {:induction false} RunOfBurst(start: int, max: nat, before: seq<int>, now: int, n: nat)
    ensures Run(start, max, before + Repeat(now, n)) == TriedTimes(Run(start, max, before), max, now, n)
  {
    if n == 0 {
      assert before + [] == before;
    } else {
      var all := before + Repeat(now, n - 1);
      ConcatAssociates(before, Repeat(now, n - 1), [now]);
      RunOfOneMore(start, max, all, now);
      RunOfBurst(start, max, before, now, n - 1);
    }
  }

  lemma RunOfOneMore(start: int, max: nat, before: seq<int>, now: int)
    ensures Run(start, max, before + [now]) == Tried(Run(start, max, before), max, now)
  {
    assert (before + [now])[..|before|] == before;
  }

  lemma OneMoreAccepted(l: Limiter, max: nat, now: int, accepted: seq<int>, n: nat)
    requires now - l.start < SECOND && l.count < max && l.accepted == accepted + Repeat(now, n)
    ensures Tried(l, max, now) == l.(count := l.count + 1, accepted := accepted + Repeat(now, n + 1))
  {
    ConcatAssociates(accepted, Repeat(now, n), [now]);
  }

  /** A burst of `n` at one reading, in a bucket with room for it, is accepted whole. */
  lemma {:induction false} BurstAccepted(l: Limiter, max: nat, now: int, n: nat)
    requires now - l.start < SECOND && l.count + n <= max
    ensures TriedTimes(l, max, now, n) == l.(count := l.count + n, accepted := l.accepted + Repeat(now, n))
  {
    if n == 0 {
      assert l.accepted + [] == l.accepted;
    } else {
      BurstAccepted(l, max, now, n - 1);
      OneMoreAccepted(TriedTimes(l, max, now, n - 1), max, now, l.accepted, n - 1);
    }
  }

  lemma {:induction false} RolledFirst(l: Limiter, max: nat, now: int, n: nat)
    requires n > 0
    ensures TriedTimes(l, max, now, n) == TriedTimes(Rolled(l, now), max, now, n)
  {
    if n > 1 { RolledFirst(l, max, now, n - 1); }
  }

  lemma TwoBursts(max: nat, t: int)
    requires max > 0 && 0 <= t < SECOND
    ensures Run(0, max, Repeat(t, max) + Repeat(SECOND, max)).accepted == Repeat(t, max) + Repeat(SECOND, max)
  {
    var first := Opened(0).(count := max, accepted := Repeat(t, max));
    assert Run(0, max, Repeat(t, max)) == first by {
      assert [] + Repeat(t, max) == Repeat(t, max);
      RunOfBurst(0, max, [], t, max);
      BurstAccepted(Opened(0), max, t, max);
    }
    RunOfBurst(0, max, Repeat(t, max), SECOND, max);
    RolledFirst(first, max, SECOND, max);
    BurstAccepted(Rolled(first, SECOND), max, SECOND, max);
  }

  /** Two full bursts on either side of a rollover: the bound of `2 * max` is reached. */
  lemma TwiceTheLimitHappens(max: nat) returns (readings: seq<int>)
    requires max > 0
    ensures Clock(0, readings) && InSecond(Run(0, max, readings).accepted, SECOND - 1) == 2 * max
  {
    var t := SECOND - 1;
    readings := Repeat(t, max) + Repeat(SECOND, max);
    RepeatIs(t, max);
    RepeatIs(SECOND, max);
    TwoBursts(max, t);
    CountAll(readings, t, t + SECOND);
  }

  /** The documented limit of `max` acceptances in the last second holds of every run only when `max` is zero. */
  lemma DocumentedLimitIffZero(max: nat)
    ensures (forall start, readings, t :: Clock(start, readings) ==>
            InSecond(Run(start, max, readings).accepted, t) <= max) <==> max == 0
  {
    if max > 0 {
      var readings := TwiceTheLimitHappens(max);
      assert InSecond(Run(0, max, readings).accepted, SECOND - 1) > max;
    } else {
      forall start, readings, t | Clock(start, readings)
        ensures InSecond(Run(start, max, readings).accepted, t) <= max
      {
        RunsAreLimited(start, max, readings);
      }
    }
  }
}
