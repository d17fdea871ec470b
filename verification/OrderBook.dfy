/**
 The order book as the matching engine keeps it, a map from price key to a queue per side, refining the
 reference book.
 */
module OrderBooks {
  import opened Candles
  import opened Orders
  import opened FlatBook
  import opened BookRuns

  type Levels = map<nat, seq<Order>>

  // ----- levels in priority order -----

  ghost predicate FirstOf(taker: Side, keys: set<nat>, k: nat) {
    k in keys && forall j :: j in keys ==> Ahead(taker, k, j)
  }

  lemma {:induction false} BestExists(taker: Side, keys: set<nat>)
    requires keys != {}
    ensures exists k :: FirstOf(taker, keys, k)
  {
    var x :| x in keys;
    var rest := keys - {x};
    assert forall j :: j in keys ==> j == x || j in rest;
    if rest == {} {
      assert FirstOf(taker, keys, x);
    } else {
      BestExists(taker, rest);
      var k :| FirstOf(taker, rest, k);
      assert FirstOf(taker, keys, if Ahead(taker, x, k) then x else k);
    }
  }

  ghost predicate IsBest(taker: Side, m: Levels, k: nat) {
    k in m && forall j :: j in m ==> Ahead(taker, k, j)
  }

  /** The first key of the side a taker meets: the lowest ask or the highest bid. */
  function BestKey(taker: Side, m: Levels): (k: nat)
    requires m != map[]
    ensures IsBest(taker, m, k)
  {
    assert m.Keys != {};
    BestExists(taker, m.Keys);
    assert exists k :: k in m && IsBest(taker, m, k) by {
      var k :| FirstOf(taker, m.Keys, k);
      assert IsBest(taker, m, k);
    }
    var k :| k in m && forall j :: j in m ==> Ahead(taker, k, j);
    k
  }

  function Tag(k: nat, level: seq<Order>): (s: seq<Entry>)
    ensures |s| == |level| && forall i :: 0 <= i < |level| ==> s[i] == Entry(k, level[i])
  {
    seq(|level|, i requires 0 <= i < |level| => Entry(k, level[i]))
  }

  /** Best level first, each level in arrival order. */
  function Flatten(taker: Side, m: Levels): seq<Entry>
    decreases m.Keys
  {
    if m == map[] then []
    else
      var k := BestKey(taker, m);
      Tag(k, m[k]) + Flatten(taker, m - {k})
  }

  lemma FlattenBest(taker: Side, m: Levels, k: nat)
    requires IsBest(taker, m, k)
    ensures Flatten(taker, m) == Tag(k, m[k]) + Flatten(taker, m - {k})
  {
    var b := BestKey(taker, m);
    assert Ahead(taker, b, k) && Ahead(taker, k, b);
  }

  lemma FlattenFirst(taker: Side, m: Levels)
    requires NoEmptyLevel(m)
    ensures m == map[] <==> Flatten(taker, m) == []
    ensures m != map[] ==> Flatten(taker, m)[0].key == BestKey(taker, m)
  {
    if m != map[] {
      var k: nat := BestKey(taker, m);
      assert Flatten(taker, m)[0] == Tag(k, m[k])[0];
    }
  }

  lemma FlattenSet(taker: Side, m: Levels, k: nat, level: seq<Order>)
    requires IsBest(taker, m, k)
    ensures Flatten(taker, m[k := level]) == Tag(k, level) + Flatten(taker, m - {k})
  {
    var m2 := m[k := level];
    assert m2 - {k} == m - {k};
    FlattenBest(taker, m2, k);
  }

  lemma {:induction false} FlattenKeys(taker: Side, m: Levels)
    ensures forall i :: 0 <= i < |Flatten(taker, m)| ==> Flatten(taker, m)[i].key in m
    decreases m.Keys
  {
    if m != map[] {
      var k := BestKey(taker, m);
      FlattenKeys(taker, m - {k});
    }
  }

  ghost predicate NoEmptyLevel(m: Levels) {
    forall k :: k in m ==> m[k] != []
  }

  // ----- one level -----

  function Before(trades: seq<Trade>, s: Swept): Swept { s.(trades := trades + s.trades) }

  /** The queue after its front traded `q`. */
  function Popped(level: seq<Order>, q: real): seq<Order>
    requires level != []
  {
    if After(level[0], q).IsFilled() then level[1..] else [After(level[0], q)] + level[1..]
  }

  ghost predicate Meets(taker: Order, key: nat, level: seq<Order>, tail: seq<Entry>) {
    ValidOrder(taker) && Crosses(taker.side, taker.price, key) && AllRest(taker.side.Opposite(), Tag(key, level) + tail)
  }

  lemma TagPopped(key: nat, level: seq<Order>, q: real, tail: seq<Entry>)
    requires level != []
    ensures Tag(key, Popped(level, q)) + tail == Front(Entry(key, level[0]), q) + (Tag(key, level) + tail)[1..]
  {
    var rest := (Tag(key, level) + tail)[1..];
    assert rest == Tag(key, level[1..]) + tail;
    if After(level[0], q).IsFilled() {
      assert [] + rest == rest;
    } else {
      var front := Entry(key, After(level[0], q));
      assert Tag(key, [After(level[0], q)] + level[1..]) == [front] + Tag(key, level[1..]);
      ConcatAssociates([front], Tag(key, level[1..]), tail);
    }
  }

  /** One turn of the loop over a level is one step of the sweep, and it removes the maker or finishes the taker. */
  lemma LevelStep(taker: Order, key: nat, level: seq<Order>, tail: seq<Entry>)
    requires Meets(taker, key, level, tail) && level != [] && !taker.IsFilled()
    ensures var q := Min(taker.remaining, level[0].remaining);
            && Meets(After(taker, q), key, Popped(level, q), tail)
            && (After(taker, q).IsFilled() || |Popped(level, q)| < |level|)
            && Sweep(Tag(key, level) + tail, taker) ==
                 Before([Trade(key, level[0], q)], Sweep(Tag(key, Popped(level, q)) + tail, After(taker, q)))
  {
    var q := Min(taker.remaining, level[0].remaining);
    var all := Tag(key, level) + tail;
    assert RestsOn(taker.side.Opposite(), all[0]) && all[0] == Entry(key, level[0]);
    TagPopped(key, level, q, tail);
    var f := Front(all[0], q);
    if f == [] { assert f + all[1..] == all[1..]; }
  }

  /** `fill_at`: trade with the queue of one level; `tail` is what lies behind the level. */
  method FillLevel(taker0: Order, key: nat, level0: seq<Order>, ts: int, ghost tail: seq<Entry>)
    returns (taker: Order, level: seq<Order>, events: seq<TradeEvent>, ghost trades: seq<Trade>)
    requires Meets(taker0, key, level0, tail)
    ensures Meets(taker, key, level, tail) && taker == taker0.(remaining := taker.remaining)
    ensures taker.IsFilled() || level == []
    ensures Sweep(Tag(key, level0) + tail, taker0) == Before(trades, Sweep(Tag(key, level) + tail, taker))
    ensures events == EventsOf(trades, taker0, ts)
  {
    var price := KeyPrice(key);
    taker, level, events, trades := taker0, level0, [], [];
    while !taker.IsFilled() && level != []
      invariant Meets(taker, key, level, tail) && taker == taker0.(remaining := taker.remaining)
      invariant Sweep(Tag(key, level0) + tail, taker0) == Before(trades, Sweep(Tag(key, level) + tail, taker))
      invariant events == EventsOf(trades, taker0, ts)
      decreases |level|, if taker.IsFilled() then 0 else 1
    {
      var maker := level[0];
      var qty := Min(taker.remaining, maker.remaining);
      LevelStep(taker, key, level, tail);
      ghost var t := Trade(key, maker, qty);
      TradesAppend(trades, t, Sweep(Tag(key, Popped(level, qty)) + tail, After(taker, qty)));
      OneMoreTrade(trades, t, taker0, ts);
      events := events + [Filled(Fill(taker.id, taker.symbol, taker.side, price, qty, ts)),
                          Filled(Fill(maker.id, maker.symbol, maker.side, price, qty, ts))];
      trades := trades + [t];
      level := Popped(level, qty);
      taker := After(taker, qty);
    }
  }

  lemma TradesAppend(trades: seq<Trade>, t: Trade, s: Swept)
    ensures Before(trades, Before([t], s)) == Before(trades + [t], s)
  {
    ConcatAssociates(trades, [t], s.trades);
  }

  lemma OneMoreTrade(trades: seq<Trade>, t: Trade, taker: Order, ts: int)
    ensures EventsOf(trades + [t], taker, ts) == EventsOf(trades, taker, ts) + Pair(t, taker, ts)
  {
    EventsAppend(trades, [t], taker, ts);
    assert [t][1..] == [];
    assert Pair(t, taker, ts) + [] == Pair(t, taker, ts);
  }

  /** What is left of a side after its best level was worked on. */
  function Reduced(m: Levels, k: nat, level: seq<Order>): Levels {
    if level == [] then m - {k} else m[k := level]
  }

  lemma ReducedFlattens(taker: Side, m: Levels, k: nat, level: seq<Order>)
    requires IsBest(taker, m, k) && NoEmptyLevel(m)
    ensures NoEmptyLevel(Reduced(m, k, level))
    ensures Flatten(taker, Reduced(m, k, level)) == Tag(k, level) + Flatten(taker, m - {k})
  {
    if level == [] { assert Tag(k, level) + Flatten(taker, m - {k}) == Flatten(taker, m - {k}); }
    else { FlattenSet(taker, m, k, level); }
  }

  lemma BlockedSweep(taker: Order, m: Levels, k: nat)
    requires ValidOrder(taker) && IsBest(taker.side, m, k) && NoEmptyLevel(m) &&
             AllRest(taker.side.Opposite(), Flatten(taker.side, m))
    requires !Crosses(taker.side, taker.price, k)
    ensures Sweep(Flatten(taker.side, m), taker) == Swept(taker, Flatten(taker.side, m), [])
  {
    FlattenBest(taker.side, m, k);
    assert Flatten(taker.side, m)[0] == Tag(k, m[k])[0];
  }

  // ----- fill or kill -----

  function LevelSum(level: seq<Order>): real {
    if level == [] then 0.0 else level[0].remaining + LevelSum(level[1..])
  }

  function Within(m: Levels, k: nat, lo: nat, hi: nat): real
    requires k in m
  {
    if lo <= k <= hi then LevelSum(m[k]) else 0.0
  }

  /** The quantity resting at keys from `lo` to `hi`, summed in ascending key order. */
  function RangeSum(m: Levels, lo: nat, hi: nat): real
    decreases m.Keys
  {
    if m == map[] then 0.0
    else
      var k := BestKey(Buy, m);
      Within(m, k, lo, hi) + RangeSum(m - {k}, lo, hi)
  }

  lemma {:induction false} PickLevel(m: Levels, k: nat, lo: nat, hi: nat)
    requires k in m
    ensures RangeSum(m, lo, hi) == Within(m, k, lo, hi) + RangeSum(m - {k}, lo, hi)
    decreases m.Keys
  {
    var b := BestKey(Buy, m);
    if b != k {
      PickLevel(m - {b}, k, lo, hi);
      assert m - {b} - {k} == m - {k} - {b};
      PickLevel(m - {k}, b, lo, hi);
    }
  }

  lemma {:induction false} EligibleOfLevel(k: nat, level: seq<Order>, rest: seq<Entry>, taker: Side,
                                           price: Option<real>)
    requires PriceOk(price)
    ensures Eligible(Tag(k, level) + rest, taker, price) ==
              (if Crosses(taker, price, k) then LevelSum(level) else 0.0) + Eligible(rest, taker, price)
  {
    var s := Tag(k, level) + rest;
    if level == [] {
      assert s == rest;
    } else {
      assert s[1..] == Tag(k, level[1..]) + rest;
      EligibleOfLevel(k, level[1..], rest, taker, price);
    }
  }

  function RangeLo(taker: Side, price: Option<real>): nat
    requires PriceOk(price)
  {
    if taker.Buy? || price.None? then 0 else PriceKey(price.value)
  }

  function RangeHi(taker: Side, price: Option<real>): nat
    requires PriceOk(price)
  {
    if taker.Sell? || price.None? then U64_MAX else PriceKey(price.value)
  }

  /** The key range that `can_fill` sums over holds exactly the levels the matching loop would cross. */
  lemma {:induction false} RangeSumIsEligible(m: Levels, taker: Side, price: Option<real>)
    requires PriceOk(price) && forall k :: k in m ==> k <= U64_MAX
    ensures RangeSum(m, RangeLo(taker, price), RangeHi(taker, price)) == Eligible(Flatten(taker, m), taker, price)
    decreases m.Keys
  {
    if m != map[] {
      var k := BestKey(taker, m);
      PickLevel(m, k, RangeLo(taker, price), RangeHi(taker, price));
      RangeSumIsEligible(m - {k}, taker, price);
      EligibleOfLevel(k, m[k], Flatten(taker, m - {k}), taker, price);
    }
  }

  lemma {:induction false} KeysAreU64(taker: Side, m: Levels)
    requires NoEmptyLevel(m) && AllRest(taker.Opposite(), Flatten(taker, m))
    ensures forall k :: k in m ==> k <= U64_MAX
    decreases m.Keys
  {
    if m != map[] {
      var b: nat := BestKey(taker, m);
      var s, tail := Flatten(taker, m), Flatten(taker, m - {b});
      assert s[0] == Tag(b, m[b])[0] && RestsOn(taker.Opposite(), s[0]);
      assert b <= U64_MAX;
      assert forall i :: 0 <= i < |tail| ==> tail[i] == s[|m[b]| + i];
      KeysAreU64(taker, m - {b});
      forall k: nat | k in m ensures k <= U64_MAX { assert k == b || k in m - {b}; }
    }
  }

  // ----- resting -----

  function Queued(m: Levels, k: nat, o: Order): Levels {
    m[k := (if k in m then m[k] else []) + [o]]
  }

  lemma {:induction false} InsertPastLevel(taker: Side, k: nat, level: seq<Order>, rest: seq<Entry>, e: Entry)
    requires Ahead(taker, k, e.key)
    ensures Insert(taker, Tag(k, level) + rest, e) == Tag(k, level) + Insert(taker, rest, e)
  {
    var s := Tag(k, level) + rest;
    if level == [] {
      assert s == rest && Tag(k, level) + Insert(taker, rest, e) == Insert(taker, rest, e);
    } else {
      assert s[1..] == Tag(k, level[1..]) + rest;
      InsertPastLevel(taker, k, level[1..], rest, e);
      assert Tag(k, level) == [s[0]] + Tag(k, level[1..]);
      ConcatAssociates([s[0]], Tag(k, level[1..]), Insert(taker, rest, e));
    }
  }

  lemma TagSnoc(k: nat, level: seq<Order>, o: Order, rest: seq<Entry>)
    ensures Tag(k, level + [o]) + rest == Tag(k, level) + ([Entry(k, o)] + rest)
  {
  }

  /** Queueing an order at its level is inserting it by price, then arrival. */
  lemma {:induction false} QueuedIsInserted(taker: Side, m: Levels, k: nat, o: Order)
    ensures Flatten(taker, Queued(m, k, o)) == Insert(taker, Flatten(taker, m), Entry(k, o))
    decreases m.Keys
  {
    var m2, e := Queued(m, k, o), Entry(k, o);
    FlattenKeys(taker, m);
    if m == map[] || !Ahead(taker, BestKey(taker, m), k) {
      assert m2 - {k} == m;
      FlattenBest(taker, m2, k);
      assert Tag(k, [] + [o]) == [e];
    } else {
      var b := BestKey(taker, m);
      var rest := Flatten(taker, m - {b});
      InsertPastLevel(taker, b, m[b], rest, e);
      FlattenKeys(taker, m - {b});
      if b == k {
        assert m2 - {k} == m - {k};
        FlattenBest(taker, m2, k);
        TagSnoc(k, m[k], o, rest);
        if rest != [] { assert rest[0].key in m - {b}; }
        assert Insert(taker, rest, e) == [e] + rest;
      } else {
        assert m2 - {b} == Queued(m - {b}, k, o);
        QueuedIsInserted(taker, m - {b}, k, o);
        FlattenBest(taker, m2, b);
      }
    }
  }

  // ----- the book -----

  class OrderBook {
    const symbol: string
    var bids: Levels
    var asks: Levels
    ghost var history: seq<Request>   // every submission so far, in order

    ghost function Abs(): Book
      reads this
    {
      Book(Flatten(Sell, bids), Flatten(Buy, asks))
    }

    /** No level is empty, and flattening the levels gives the reference book of the whole run. */
    ghost predicate Valid()
      reads this
    {
      NoEmptyLevel(bids) && NoEmptyLevel(asks) && Abs() == Play(history).book
    }

    constructor (symbol: string)
      ensures Valid() && history == [] && this.symbol == symbol
    {
      this.symbol, bids, asks, history := symbol, map[], map[], [];
    }

    method TrySubmit(r: Request) returns (res: Result<seq<TradeEvent>, BookError>)
      requires Valid()
      modifies this
      ensures Valid()
      ensures res.Err? <==> Validate(r).Err?
      ensures res.Err? ==> res.error == Validate(r).error && Abs() == old(Abs()) && history == old(history)
      ensures res.Ok? ==> history == old(history) + [r] && res.value == BookRuns.Submit(old(Abs()), r).events
    {
      match Validate(r) {
        case Err(e) => res := Err(e);
        case Ok(o) =>
          var events := SubmitValidated(o, r.ts);
          PlayedOn(history, r);
          history := history + [r];
          res := Ok(events);
      }
    }

    method Submit(r: Request) returns (events: seq<TradeEvent>)
      requires Valid()
      modifies this
      ensures Valid() && history == old(history) + [r]
      ensures events == BookRuns.Submit(old(Abs()), r).events
      ensures Play(history).events == Play(old(history)).events + events
    {
      var v := Validate(r);
      if v.Err? {
        events := [Cancelled(r.id, InvalidOrder)];
      } else {
        events := SubmitValidated(v.value, r.ts);
      }
      assert Outcome(Abs(), events) == BookRuns.Submit(old(Abs()), r);
      PlayedOn(history, r);
      history := history + [r];
    }

    method SubmitValidated(o: Order, ts: int) returns (events: seq<TradeEvent>)
      requires NoEmptyLevel(bids) && NoEmptyLevel(asks) && BookOk(Abs()) && FreshOrder(o)
      modifies this`bids, this`asks
      ensures NoEmptyLevel(bids) && NoEmptyLevel(asks)
      ensures Outcome(Abs(), events) == SubmitValid(old(Abs()), o, ts)
    {
      if o.kind.Fok? {
        var enough := CanFillNow(o);
        if !enough { return [Cancelled(o.id, FokNoFill)]; }
      }
      var taker;
      taker, events := MatchOrder(o, ts);
      if !o.kind.Fok? && !taker.IsFilled() {
        match o.kind {
          case Limit => Rest(taker);
          case Ioc => events := events + [Cancelled(o.id, IocRemainder)];
          case Market => events := events + [Cancelled(o.id, MarketNoLiquidity)];
        }
      }
    }

    method CanFillNow(o: Order) returns (enough: bool)
      requires NoEmptyLevel(bids) && NoEmptyLevel(asks) && BookOk(Abs()) && ValidOrder(o)
      ensures enough == CanFill(Abs().Against(o.side), o)
    {
      var levels := if o.side.Buy? then asks else bids;
      KeysAreU64(o.side, levels);
      RangeSumIsEligible(levels, o.side, o.price);
      var avail := RangeSum(levels, RangeLo(o.side, o.price), RangeHi(o.side, o.price));
      enough := avail >= o.remaining * (1.0 - QTY_REL_TOL);
    }

    method MatchOrder(o: Order, ts: int) returns (taker: Order, events: seq<TradeEvent>)
      requires NoEmptyLevel(bids) && NoEmptyLevel(asks) && BookOk(Abs()) && ValidOrder(o)
      modifies this`bids, this`asks
      ensures NoEmptyLevel(bids) && NoEmptyLevel(asks)
      ensures var s := Sweep(old(Abs()).Against(o.side), o);
              taker == s.taker && Abs() == old(Abs()).Put(o.side, s.rest) && events == EventsOf(s.trades, o, ts)
    {
      if o.side.Buy? {
        taker, events := MatchBuy(o, ts);
      } else {
        taker, events := MatchSell(o, ts);
      }
    }

    method MatchBuy(o: Order, ts: int) returns (taker: Order, events: seq<TradeEvent>)
      requires ValidOrder(o) && o.side.Buy? && NoEmptyLevel(asks) && AllRest(Sell, Flatten(Buy, asks))
      modifies this`asks
      ensures NoEmptyLevel(asks)
      ensures Sweep(Flatten(Buy, old(asks)), o).rest == Flatten(Buy, asks)
      ensures Sweep(Flatten(Buy, old(asks)), o).taker == taker
      ensures EventsOf(Sweep(Flatten(Buy, old(asks)), o).trades, o, ts) == events
    {
      taker, events := o, [];
      ghost var trades: seq<Trade> := [];
      ghost var whole := Sweep(Flatten(Buy, asks), o);
      while asks != map[]
        invariant ValidOrder(taker) && taker == o.(remaining := taker.remaining)
        invariant NoEmptyLevel(asks) && AllRest(Sell, Flatten(Buy, asks))
        invariant whole == Before(trades, Sweep(Flatten(Buy, asks), taker))
        invariant events == EventsOf(trades, o, ts)
        decreases asks.Keys
      {
        var best := BestKey(Buy, asks);
        if taker.price.Some? && best > PriceKey(taker.price.value) {
          BlockedSweep(taker, asks, best);
          break;
        }
        ghost var tail := Flatten(Buy, asks - {best});
        ghost var before := taker;
        var level, more; ghost var met;
        taker, level, more, met := FillLevel(taker, best, asks[best], ts, tail);
        ReducedFlattens(Buy, asks, best, level);
        MoreTrades(trades, met, Sweep(Tag(best, level) + tail, taker), o, before, ts);
        asks := Reduced(asks, best, level);
        trades, events := trades + met, events + more;
        if taker.IsFilled() { break; }
      }
      assert Sweep(Flatten(Buy, asks), taker) == Swept(taker, Flatten(Buy, asks), []);
      assert trades + [] == trades;
    }

    method MatchSell(o: Order, ts: int) returns (taker: Order, events: seq<TradeEvent>)
      requires ValidOrder(o) && o.side.Sell? && NoEmptyLevel(bids) && AllRest(Buy, Flatten(Sell, bids))
      modifies this`bids
      ensures NoEmptyLevel(bids)
      ensures Sweep(Flatten(Sell, old(bids)), o).rest == Flatten(Sell, bids)
      ensures Sweep(Flatten(Sell, old(bids)), o).taker == taker
      ensures EventsOf(Sweep(Flatten(Sell, old(bids)), o).trades, o, ts) == events
    {
      taker, events := o, [];
      ghost var trades: seq<Trade> := [];
      ghost var whole := Sweep(Flatten(Sell, bids), o);
      while bids != map[]
        invariant ValidOrder(taker) && taker == o.(remaining := taker.remaining)
        invariant NoEmptyLevel(bids) && AllRest(Buy, Flatten(Sell, bids))
        invariant whole == Before(trades, Sweep(Flatten(Sell, bids), taker))
        invariant events == EventsOf(trades, o, ts)
        decreases bids.Keys
      {
        var best := BestKey(Sell, bids);
        if taker.price.Some? && best < PriceKey(taker.price.value) {
          BlockedSweep(taker, bids, best);
          break;
        }
        ghost var tail := Flatten(Sell, bids - {best});
        ghost var before := taker;
        var level, more; ghost var met;
        taker, level, more, met := FillLevel(taker, best, bids[best], ts, tail);
        ReducedFlattens(Sell, bids, best, level);
        MoreTrades(trades, met, Sweep(Tag(best, level) + tail, taker), o, before, ts);
        bids := Reduced(bids, best, level);
        trades, events := trades + met, events + more;
        if taker.IsFilled() { break; }
      }
      assert Sweep(Flatten(Sell, bids), taker) == Swept(taker, Flatten(Sell, bids), []);
      assert trades + [] == trades;
    }

    method Rest(o: Order)
      requires NoEmptyLevel(bids) && NoEmptyLevel(asks) && ValidOrder(o) && o.kind.Limit?
      modifies this`bids, this`asks
      ensures NoEmptyLevel(bids) && NoEmptyLevel(asks) && Abs() == Rested(old(Abs()), o)
    {
      var key := PriceKey(o.price.value);
      if o.side.Buy? {
        QueuedIsInserted(Sell, bids, key, o);
        bids := Queued(bids, key, o);
      } else {
        QueuedIsInserted(Buy, asks, key, o);
        asks := Queued(asks, key, o);
      }
    }

    /** The price of the first bid in priority order. */
    function BestBid(): (r: Option<real>)
      requires Valid()
      reads this
      ensures r == if Abs().bids == [] then None else Some(KeyPrice(Abs().bids[0].key))
    {
      FlattenFirst(Sell, bids);
      if bids == map[] then None else Some(KeyPrice(BestKey(Sell, bids)))
    }

    /** The price of the first ask in priority order. */
    function BestAsk(): (r: Option<real>)
      requires Valid()
      reads this
      ensures r == if Abs().asks == [] then None else Some(KeyPrice(Abs().asks[0].key))
    {
      FlattenFirst(Buy, asks);
      if asks == map[] then None else Some(KeyPrice(BestKey(Buy, asks)))
    }

    /** Whatever was submitted before, the spread of a two-sided book is at least one tick. */
    function Spread(): (r: Option<real>)
      requires Valid()
      reads this
      ensures r.Some? <==> Abs().bids != [] && Abs().asks != []
      ensures r.Some? ==> r.value == KeyPrice(Abs().asks[0].key) - KeyPrice(Abs().bids[0].key)
      ensures r.Some? ==> r.value >= 2.0 * HALF_TICK
    {
      FlattenFirst(Sell, bids);
      FlattenFirst(Buy, asks);
      if bids == map[] || asks == map[] then None
      else
        TopsUncrossed(bids, asks);
        Some(BestAsk().value - BestBid().value)
    }
  }

  lemma PlayedOn(history: seq<Request>, r: Request)
    ensures Play(history + [r]).book == BookRuns.Submit(Play(history).book, r).book
    ensures Play(history + [r]).events == Play(history).events + BookRuns.Submit(Play(history).book, r).events
  {
    assert (history + [r])[..|history|] == history;
  }

  lemma MoreTrades(trades: seq<Trade>, met: seq<Trade>, s: Swept, o: Order, taker: Order, ts: int)
    requires taker == o.(remaining := taker.remaining)
    ensures Before(trades, Before(met, s)) == Before(trades + met, s)
    ensures EventsOf(trades + met, o, ts) == EventsOf(trades, o, ts) + EventsOf(met, taker, ts)
  {
    ConcatAssociates(trades, met, s.trades);
    EventsAppend(trades, met, o, ts);
    SameTakerEvents(met, o, taker, ts);
  }

  lemma {:induction false} SameTakerEvents(trades: seq<Trade>, o: Order, taker: Order, ts: int)
    requires taker == o.(remaining := taker.remaining)
    ensures EventsOf(trades, taker, ts) == EventsOf(trades, o, ts)
  {
    if trades != [] { SameTakerEvents(trades[1..], o, taker, ts); }
  }

  lemma TopsUncrossed(bids: Levels, asks: Levels)
    requires bids != map[] && asks != map[] && NoEmptyLevel(bids) && NoEmptyLevel(asks)
    requires Uncrossed(Flatten(Sell, bids), Flatten(Buy, asks))
    ensures KeyPrice(BestKey(Buy, asks)) - KeyPrice(BestKey(Sell, bids)) >= 2.0 * HALF_TICK
  {
    var b, a := BestKey(Sell, bids), BestKey(Buy, asks);
    assert Flatten(Sell, bids)[0] == Tag(b, bids[b])[0] && Flatten(Buy, asks)[0] == Tag(a, asks[a])[0];
    assert KeyPrice(a) * PRICE_SCALE == a as real && KeyPrice(b) * PRICE_SCALE == b as real;
  }
}
