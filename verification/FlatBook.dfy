/**
 The order book as two lists in price-time priority: the reference that the level maps refine, and
 the laws of matching over any run of submissions.
 */
module FlatBook {
  import opened Candles
  import opened Orders

  /** A resting order and the price level it rests at. */
  datatype Entry = Entry(key: nat, order: Order)

  /** A taker meeting a maker; `maker` is the maker as it was before. */
  datatype Trade = Trade(key: nat, maker: Order, qty: real)

  datatype Swept = Swept(taker: Order, rest: seq<Entry>, trades: seq<Trade>)

  function Min(a: real, b: real): real { if a <= b then a else b }

  predicate RestsOn(side: Side, e: Entry) {
    && ValidOrder(e.order) && e.order.side == side && e.order.kind.Limit? && !e.order.IsFilled()
    && e.key == PriceKey(e.order.price.value)
  }

  ghost predicate AllRest(side: Side, s: seq<Entry>) {
    forall i :: 0 <= i < |s| ==> RestsOn(side, s[i])
  }

  /** The list a taker on side `taker` meets, best level first. */
  ghost predicate SortedFor(taker: Side, s: seq<Entry>) {
    forall i, j :: 0 <= i < j < |s| ==> Ahead(taker, s[i].key, s[j].key)
  }

  // ----- the sweep -----

  function After(o: Order, q: real): Order { o.(remaining := o.remaining - q) }

  /** What is left of the front maker, as a list. */
  function Front(e: Entry, q: real): seq<Entry> {
    if After(e.order, q).IsFilled() then [] else [Entry(e.key, After(e.order, q))]
  }

  /** Trade with the front maker until the taker is filled, the list is empty or the front no longer crosses. */
  function Sweep(rest: seq<Entry>, taker: Order): (s: Swept)
    requires ValidOrder(taker) && AllRest(taker.side.Opposite(), rest)
    ensures ValidOrder(s.taker) && s.taker == taker.(remaining := s.taker.remaining)
    ensures AllRest(taker.side.Opposite(), s.rest)
    decreases |rest|
  {
    if rest == [] || taker.IsFilled() || !Crosses(taker.side, taker.price, rest[0].key) then Swept(taker, rest, [])
    else
      var q := Min(taker.remaining, rest[0].order.remaining);
      var t := Trade(rest[0].key, rest[0].order, q);
      if Front(rest[0], q) != [] then Swept(After(taker, q), Front(rest[0], q) + rest[1..], [t])
      else
        var s := Sweep(rest[1..], After(taker, q));
        Swept(s.taker, s.rest, [t] + s.trades)
  }

  function TotalQty(trades: seq<Trade>): real {
    if trades == [] then 0.0 else trades[0].qty + TotalQty(trades[1..])
  }

  /** The trades of a sweep meet a prefix of the list in order, and only its last maker can keep a remainder. */
  ghost predicate ConsumesPrefix(rest: seq<Entry>, taker: Order, s: Swept) {
    var n := |s.trades|;
    && n <= |rest|
    && (forall i :: 0 <= i < n ==>
          s.trades[i].key == rest[i].key && s.trades[i].maker == rest[i].order &&
              0.0 < s.trades[i].qty <= rest[i].order.remaining)
    && (forall i :: 0 <= i < n - 1 ==> s.trades[i].qty == rest[i].order.remaining)
    && (n == 0 ==> s.rest == rest)
    && (n > 0 ==>
          && s.rest == Front(rest[n - 1], s.trades[n - 1].qty) + rest[n..]
          && (s.trades[n - 1].qty < rest[n - 1].order.remaining ==> s.taker.remaining == 0.0))
  }

  lemma {:induction false} SweepConsumesPrefix(rest: seq<Entry>, taker: Order)
    requires ValidOrder(taker) && AllRest(taker.side.Opposite(), rest)
    ensures ConsumesPrefix(rest, taker, Sweep(rest, taker))
    decreases |rest|
  {
    var s := Sweep(rest, taker);
    if s.trades != [] {
      var q := Min(taker.remaining, rest[0].order.remaining);
      if Front(rest[0], q) == [] {
        var tail := Sweep(rest[1..], After(taker, q));
        SweepConsumesPrefix(rest[1..], After(taker, q));
        PrefixGrows(rest, taker, q, tail);
      }
    }
  }

  lemma PrefixGrows(rest: seq<Entry>, taker: Order, q: real, tail: Swept)
    requires rest != [] && Front(rest[0], q) == []
    requires ConsumesPrefix(rest[1..], After(taker, q), tail)
    requires 0.0 < q <= rest[0].order.remaining &&
             (q < rest[0].order.remaining ==> tail.trades == [] && tail.taker.remaining == 0.0)
    ensures ConsumesPrefix(rest, taker,
            Swept(tail.taker, tail.rest, [Trade(rest[0].key, rest[0].order, q)] + tail.trades))
  {
    var trades := [Trade(rest[0].key, rest[0].order, q)] + tail.trades;
    assert forall i :: 0 < i < |trades| ==> trades[i] == tail.trades[i - 1] && rest[i] == rest[1..][i - 1];
    assert rest[1..][|tail.trades|..] == rest[|trades|..];
    if tail.trades == [] { assert [] + rest[1..] == rest[1..]; }
  }

  /** The quantity resting in the whole list. */
  function Depth(s: seq<Entry>): real {
    if s == [] then 0.0 else s[0].order.remaining + Depth(s[1..])
  }

  /** The quantity traded at place `j`, when the sweep comes that far. */
  function MetAt(rest: seq<Entry>, taker: Order, j: nat): real
    requires j < |rest|
  {
    Min(taker.remaining - Depth(rest[..j]), rest[j].order.remaining)
  }

  /** Trade `j` meets maker `j` for what is left to the taker after all makers before, or for all the maker has. */
  lemma {:induction false} SweepTradeAt(rest: seq<Entry>, taker: Order, j: nat)
    requires ValidOrder(taker) && AllRest(taker.side.Opposite(), rest) && j < |Sweep(rest, taker).trades|
    ensures j < |rest|
    ensures Sweep(rest, taker).trades[j] ==
              Trade(rest[j].key, rest[j].order, MetAt(rest, taker, j))
    decreases |rest|
  {
    if j > 0 {
      var q := Min(taker.remaining, rest[0].order.remaining);
      var tail := Sweep(rest[1..], After(taker, q));
      SweepTradeAt(rest[1..], After(taker, q), j - 1);
      assert tail.trades != [] && q == rest[0].order.remaining;
      assert rest[..j][1..] == rest[1..][..j - 1];
    }
  }

  /** The list behind the last maker met stays, and so does what is left of that maker. */
  ghost predicate Leaves(rest: seq<Entry>, taker: Order, n: nat, left: seq<Entry>) {
    && n <= |rest|
    && left == if n == 0 then rest else Front(rest[n - 1], MetAt(rest, taker, n - 1)) + rest[n..]
  }

  lemma PrefixLeaves(rest: seq<Entry>, taker: Order, s: Swept)
    requires ConsumesPrefix(rest, taker, s)
    requires s.trades != [] ==> s.trades[|s.trades| - 1].qty == MetAt(rest, taker, |s.trades| - 1)
    ensures Leaves(rest, taker, |s.trades|, s.rest)
  {
  }

  lemma SweepLeaves(rest: seq<Entry>, taker: Order)
    requires ValidOrder(taker) && AllRest(taker.side.Opposite(), rest)
    ensures Leaves(rest, taker, |Sweep(rest, taker).trades|, Sweep(rest, taker).rest)
  {
    var s := Sweep(rest, taker);
    SweepConsumesPrefix(rest, taker);
    if s.trades != [] { SweepTradeAt(rest, taker, |s.trades| - 1); }
    PrefixLeaves(rest, taker, s);
  }

  /** Up to place `j` every level crosses and the makers in front leave the taker more than dust. */
  ghost predicate Reaches(rest: seq<Entry>, taker: Order, j: nat)
    requires j < |rest| && PriceOk(taker.price)
  {
    && (forall k :: 0 <= k <= j ==> Crosses(taker.side, taker.price, rest[k].key))
    && (forall k :: 0 <= k <= j ==> !QtyIsZero(taker.remaining - Depth(rest[..k]), taker.qty))
  }

  lemma ReachesNext(rest: seq<Entry>, taker: Order, j: nat)
    requires PriceOk(taker.price) && 0 < j < |rest|
    requires Crosses(taker.side, taker.price, rest[0].key) && !taker.IsFilled()
    ensures Reaches(rest, taker, j) <==> Reaches(rest[1..], After(taker, rest[0].order.remaining), j - 1)
  {
    var next := After(taker, rest[0].order.remaining);
    assert forall k :: 0 < k <= j ==> rest[..k][1..] == rest[1..][..k - 1];
    if Reaches(rest[1..], next, j - 1) {
      forall k | 0 <= k <= j
        ensures Crosses(taker.side, taker.price, rest[k].key)
        ensures !QtyIsZero(taker.remaining - Depth(rest[..k]), taker.qty)
      {
        if k > 0 {
          assert Crosses(next.side, next.price, rest[1..][k - 1].key);
          assert !QtyIsZero(next.remaining - Depth(rest[1..][..k - 1]), next.qty);
        }
      }
    }
    if Reaches(rest, taker, j) {
      forall k | 0 <= k <= j - 1
        ensures Crosses(next.side, next.price, rest[1..][k].key)
        ensures !QtyIsZero(next.remaining - Depth(rest[1..][..k]), next.qty)
      {
        assert !QtyIsZero(taker.remaining - Depth(rest[..k + 1]), taker.qty);
      }
    }
  }

  /** Exactly which makers a sweep meets. */
  lemma {:induction false} SweepReaches(rest: seq<Entry>, taker: Order, j: nat)
    requires ValidOrder(taker) && AllRest(taker.side.Opposite(), rest) && j < |rest|
    ensures j < |Sweep(rest, taker).trades| <==> Reaches(rest, taker, j)
    decreases |rest|
  {
    if taker.IsFilled() || !Crosses(taker.side, taker.price, rest[0].key) {
      assert rest[..0] == [];
    } else if j > 0 {
      var q := Min(taker.remaining, rest[0].order.remaining);
      if q == rest[0].order.remaining {
        ReachesNext(rest, taker, j);
        SweepReaches(rest[1..], After(taker, q), j - 1);
      } else {
        assert rest[..1] == [rest[0]] && Depth(rest[1..1]) == 0.0;
        assert QtyIsZero(taker.remaining - Depth(rest[..1]), taker.qty);
        assert After(taker, q).IsFilled();
      }
    }
  }

  /** A sweep trades only at crossing levels and only while the taker is not filled, and stops for no other reason. */
  ghost predicate StopsInTime(rest: seq<Entry>, taker: Order, s: Swept)
    requires ValidOrder(taker)
  {
    && (forall i :: 0 <= i < |s.trades| ==> Crosses(taker.side, taker.price, s.trades[i].key))
    && (forall i :: 0 <= i < |s.trades| ==> !QtyIsZero(taker.remaining - TotalQty(s.trades[..i]), taker.qty))
    && taker.remaining - TotalQty(s.trades) == s.taker.remaining
    && (s.taker.IsFilled() || s.rest == [] || !Crosses(taker.side, taker.price, s.rest[0].key))
  }

  lemma {:induction false} SweepStopsInTime(rest: seq<Entry>, taker: Order)
    requires ValidOrder(taker) && AllRest(taker.side.Opposite(), rest)
    ensures StopsInTime(rest, taker, Sweep(rest, taker))
    decreases |rest|
  {
    var s := Sweep(rest, taker);
    if s.trades != [] {
      var q := Min(taker.remaining, rest[0].order.remaining);
      if Front(rest[0], q) == [] {
        var tail := Sweep(rest[1..], After(taker, q));
        SweepStopsInTime(rest[1..], After(taker, q));
        assert s.trades[1..] == tail.trades;
        forall i | 0 <= i < |s.trades|
          ensures !QtyIsZero(taker.remaining - TotalQty(s.trades[..i]), taker.qty)
        {
          if i > 0 {
            assert s.trades[..i][1..] == tail.trades[..i - 1];
          }
        }
      }
    }
  }

  /** Fill prices never improve along a sweep. */
  lemma TradePricesWorsen(rest: seq<Entry>, taker: Order, i: nat, j: nat)
    requires ValidOrder(taker) && AllRest(taker.side.Opposite(), rest) && SortedFor(taker.side, rest)
    requires i < j < |Sweep(rest, taker).trades|
    ensures var p, q := KeyPrice(Sweep(rest, taker).trades[i].key), KeyPrice(Sweep(rest, taker).trades[j].key);
            if taker.side.Buy? then p <= q else p >= q
  {
    var t := Sweep(rest, taker).trades;
    SweepConsumesPrefix(rest, taker);
    assert t[i].key == rest[i].key && t[j].key == rest[j].key;
    assert KeyPrice(t[i].key) * PRICE_SCALE == t[i].key as real && KeyPrice(t[j].key) * PRICE_SCALE == t[j].key as real;
  }

  ghost predicate AllHonour(o: Order, trades: seq<Trade>) {
    forall j :: 0 <= j < |trades| ==> Honours(o, KeyPrice(trades[j].key))
  }

  /** No trade of a sweep is worse than the taker's limit by more than rounding. */
  lemma {:induction false} FillsWithinLimit(rest: seq<Entry>, taker: Order)
    requires ValidOrder(taker) && AllRest(taker.side.Opposite(), rest)
    ensures AllHonour(taker, Sweep(rest, taker).trades)
    decreases |rest|
  {
    var s := Sweep(rest, taker);
    if s.trades != [] {
      var q := Min(taker.remaining, rest[0].order.remaining);
      CrossingIsHonoured(taker, rest[0].key);
      if Front(rest[0], q) == [] {
        FillsWithinLimit(rest[1..], After(taker, q));
        SameLimit(taker, q, Sweep(rest[1..], After(taker, q)).trades);
      }
    }
  }

  lemma SameLimit(taker: Order, q: real, trades: seq<Trade>)
    requires AllHonour(After(taker, q), trades)
    ensures AllHonour(taker, trades)
  {
    forall j | 0 <= j < |trades| ensures Honours(taker, KeyPrice(trades[j].key)) {
      assert Honours(After(taker, q), KeyPrice(trades[j].key));
    }
  }

  // ----- fill or kill -----

  /** The resting quantity at levels the taker crosses. */
  function Eligible(s: seq<Entry>, taker: Side, price: Option<real>): real
    requires PriceOk(price)
  {
    if s == [] then 0.0
    else (if Crosses(taker, price, s[0].key) then s[0].order.remaining else 0.0) + Eligible(s[1..], taker, price)
  }

  lemma {:induction false} EligibleIsPositive(s: seq<Entry>, side: Side, taker: Side, price: Option<real>)
    requires PriceOk(price) && AllRest(side, s)
    ensures Eligible(s, taker, price) >= 0.0
  {
    if s != [] { EligibleIsPositive(s[1..], side, taker, price); }
  }

  lemma {:induction false} NothingEligible(s: seq<Entry>, taker: Side, price: Option<real>)
    requires PriceOk(price) && SortedFor(taker, s) && (s != [] ==> !Crosses(taker, price, s[0].key))
    ensures Eligible(s, taker, price) == 0.0
  {
    if |s| > 1 {
      if Crosses(taker, price, s[1].key) { CrossingIsClosed(taker, price, s[0].key, s[1].key); }
      NothingEligible(s[1..], taker, price);
    }
  }

  /** The sum that decides a fill-or-kill order agrees with the matching loop, both ways. */
  lemma {:induction false} SweepFillsIffEligible(rest: seq<Entry>, taker: Order)
    requires ValidOrder(taker) && AllRest(taker.side.Opposite(), rest) && SortedFor(taker.side, rest)
    ensures Sweep(rest, taker).taker.IsFilled() <==>
              Eligible(rest, taker.side, taker.price) >= taker.remaining - taker.qty * QTY_REL_TOL
    decreases |rest|
  {
    EligibleIsPositive(rest, taker.side.Opposite(), taker.side, taker.price);
    if rest == [] || taker.IsFilled() {
    } else if !Crosses(taker.side, taker.price, rest[0].key) {
      NothingEligible(rest, taker.side, taker.price);
    } else {
      var q := Min(taker.remaining, rest[0].order.remaining);
      EligibleIsPositive(rest[1..], taker.side.Opposite(), taker.side, taker.price);
      if Front(rest[0], q) == [] { SweepFillsIffEligible(rest[1..], After(taker, q)); }
    }
  }

  // ----- quantities by order id -----

  /** The unfilled quantity resting under `id`. */
  function Resting(s: seq<Entry>, id: nat): real {
    if s == [] then 0.0 else (if s[0].order.id == id then s[0].order.remaining else 0.0) + Resting(s[1..], id)
  }

  /** The original quantity of the orders resting under `id`. */
  function Original(s: seq<Entry>, id: nat): real {
    if s == [] then 0.0 else (if s[0].order.id == id then s[0].order.qty else 0.0) + Original(s[1..], id)
  }

  function MakerQty(trades: seq<Trade>, id: nat): real {
    if trades == [] then 0.0 else (if trades[0].maker.id == id then trades[0].qty else 0.0) + MakerQty(trades[1..], id)
  }

  /** Makers lose what they trade, and those that leave the list take at most dust with them. */
  lemma {:induction false} SweepLedger(rest: seq<Entry>, taker: Order, id: nat)
    requires ValidOrder(taker) && AllRest(taker.side.Opposite(), rest)
    ensures var s := Sweep(rest, taker);
            0.0 <= Resting(rest, id) - Resting(s.rest, id) - MakerQty(s.trades, id)
                <= (Original(rest, id) - Original(s.rest, id)) * QTY_REL_TOL
    decreases |rest|
  {
    var s := Sweep(rest, taker);
    if s.trades != [] {
      var q := Min(taker.remaining, rest[0].order.remaining);
      var left := After(rest[0].order, q);
      assert 0.0 <= left.remaining;
      if Front(rest[0], q) == [] {
        SweepLedger(rest[1..], After(taker, q), id);
        assert s.trades[1..] == Sweep(rest[1..], After(taker, q)).trades;
      } else {
        assert s.rest[1..] == rest[1..] && s.trades[1..] == [];
      }
    }
  }

  // ----- events -----

  function Pair(t: Trade, taker: Order, ts: int): seq<TradeEvent> {
    [Filled(Fill(taker.id, taker.symbol, taker.side, KeyPrice(t.key), t.qty, ts)),
     Filled(Fill(t.maker.id, t.maker.symbol, t.maker.side, KeyPrice(t.key), t.qty, ts))]
  }

  /** Each trade is reported as two fills, taker first. */
  function EventsOf(trades: seq<Trade>, taker: Order, ts: int): seq<TradeEvent> {
    if trades == [] then [] else Pair(trades[0], taker, ts) + EventsOf(trades[1..], taker, ts)
  }

  /** Where the two fills of trade `j` are, and what they say. */
  lemma {:induction false} EventsAt(trades: seq<Trade>, taker: Order, ts: int, j: nat)
    requires j < |trades|
    ensures |EventsOf(trades, taker, ts)| == 2 * |trades|
    ensures var t := trades[j];
            && EventsOf(trades, taker, ts)[2 * j] ==
                 Filled(Fill(taker.id, taker.symbol, taker.side, KeyPrice(t.key), t.qty, ts))
            && EventsOf(trades, taker, ts)[2 * j + 1] ==
                 Filled(Fill(t.maker.id, t.maker.symbol, t.maker.side, KeyPrice(t.key), t.qty, ts))
  {
    EventsLength(trades, taker, ts);
    if j > 0 { EventsAt(trades[1..], taker, ts, j - 1); }
  }

  lemma {:induction false} EventsLength(trades: seq<Trade>, taker: Order, ts: int)
    ensures |EventsOf(trades, taker, ts)| == 2 * |trades|
  {
    if trades != [] { EventsLength(trades[1..], taker, ts); }
  }

  lemma {:induction false} EventsAppend(a: seq<Trade>, b: seq<Trade>, taker: Order, ts: int)
    ensures EventsOf(a + b, taker, ts) == EventsOf(a, taker, ts) + EventsOf(b, taker, ts)
  {
    if a == [] {
      assert a + b == b;
    } else {
      EventsAppend(a[1..], b, taker, ts);
      calc {
        EventsOf(a + b, taker, ts);
        { assert (a + b)[1..] == a[1..] + b; }
        Pair(a[0], taker, ts) + (EventsOf(a[1..], taker, ts) + EventsOf(b, taker, ts));
        { ConcatAssociates(Pair(a[0], taker, ts), EventsOf(a[1..], taker, ts), EventsOf(b, taker, ts)); }
        EventsOf(a, taker, ts) + EventsOf(b, taker, ts);
      }
    }
  }

  function FillOf(e: TradeEvent, id: nat): real { if e.Filled? && e.fill.orderId == id then e.fill.qty else 0.0 }

  /** The traded quantity reported for `id`. */
  function FillSum(events: seq<TradeEvent>, id: nat): real {
    if events == [] then 0.0 else FillOf(events[0], id) + FillSum(events[1..], id)
  }

  function SignedOf(e: TradeEvent): real {
    if e.Filled? then (if e.fill.side.Buy? then e.fill.qty else -e.fill.qty) else 0.0
  }

  /** Bought less sold. */
  function SignedSum(events: seq<TradeEvent>): real {
    if events == [] then 0.0 else SignedOf(events[0]) + SignedSum(events[1..])
  }

  lemma {:induction false} SumsAppend(a: seq<TradeEvent>, b: seq<TradeEvent>, id: nat)
    ensures FillSum(a + b, id) == FillSum(a, id) + FillSum(b, id)
    ensures SignedSum(a + b) == SignedSum(a) + SignedSum(b)
  {
    if a == [] {
      assert a + b == b;
    } else {
      assert (a + b)[1..] == a[1..] + b;
      SumsAppend(a[1..], b, id);
    }
  }

  lemma PairSums(t: Trade, taker: Order, ts: int, id: nat)
    ensures FillSum(Pair(t, taker, ts), id) ==
            (if taker.id == id then t.qty else 0.0) + (if t.maker.id == id then t.qty else 0.0)
    ensures t.maker.side == taker.side.Opposite() ==> SignedSum(Pair(t, taker, ts)) == 0.0
  {
    var p := Pair(t, taker, ts);
    assert p == [p[0]] + [p[1]] && [p[0]][1..] == [] && [p[1]][1..] == [];
    SumsAppend([p[0]], [p[1]], id);
  }

  lemma {:induction false} EventSums(trades: seq<Trade>, taker: Order, ts: int, id: nat)
    requires forall i :: 0 <= i < |trades| ==> trades[i].maker.side == taker.side.Opposite()
    ensures FillSum(EventsOf(trades, taker, ts), id) ==
            (if taker.id == id then TotalQty(trades) else 0.0) + MakerQty(trades, id)
    ensures SignedSum(EventsOf(trades, taker, ts)) == 0.0
  {
    if trades != [] {
      EventSums(trades[1..], taker, ts, id);
      SumsAppend(Pair(trades[0], taker, ts), EventsOf(trades[1..], taker, ts), id);
      PairSums(trades[0], taker, ts, id);
    }
  }

  // ----- resting an order -----

  /** Behind every order at the same or a better level, in front of every worse one. */
  function Insert(taker: Side, s: seq<Entry>, e: Entry): seq<Entry> {
    if s == [] || !Ahead(taker, s[0].key, e.key) then [e] + s
    else [s[0]] + Insert(taker, s[1..], e)
  }

  lemma {:induction false} InsertSplits(taker: Side, s: seq<Entry>, e: Entry) returns (n: nat)
    requires SortedFor(taker, s)
    ensures n <= |s| && Insert(taker, s, e) == s[..n] + [e] + s[n..]
    ensures forall i :: 0 <= i < n ==> Ahead(taker, s[i].key, e.key)
    ensures forall i :: n <= i < |s| ==> !Ahead(taker, s[i].key, e.key)
  {
    if s == [] || !Ahead(taker, s[0].key, e.key) {
      n := 0;
      assert s[..0] + [e] + s[0..] == [e] + s;
    } else {
      var m := InsertSplits(taker, s[1..], e);
      n := m + 1;
      assert s[..n] == [s[0]] + s[1..][..m] && s[1..][m..] == s[n..];
      assert [s[0]] + (s[1..][..m] + [e] + s[1..][m..]) == [s[0]] + s[1..][..m] + [e] + s[n..];
      assert forall i :: 1 <= i < |s| ==> s[i] == s[1..][i - 1];
    }
  }

  lemma InsertKeepsOrder(taker: Side, s: seq<Entry>, e: Entry)
    requires SortedFor(taker, s) && AllRest(taker.Opposite(), s) && RestsOn(taker.Opposite(), e)
    ensures SortedFor(taker, Insert(taker, s, e)) && AllRest(taker.Opposite(), Insert(taker, s, e))
  {
    var n := InsertSplits(taker, s, e);
  }

  lemma {:induction false} InsertLedger(taker: Side, s: seq<Entry>, e: Entry, id: nat)
    ensures Resting(Insert(taker, s, e), id) == Resting(s, id) + (if e.order.id == id then e.order.remaining else 0.0)
    ensures Original(Insert(taker, s, e), id) == Original(s, id) + (if e.order.id == id then e.order.qty else 0.0)
  {
    if s == [] || !Ahead(taker, s[0].key, e.key) {
      assert ([e] + s)[1..] == s;
    } else {
      InsertLedger(taker, s[1..], e, id);
      assert ([s[0]] + Insert(taker, s[1..], e))[1..] == Insert(taker, s[1..], e);
    }
  }
}
