/** Submissions to the reference book, and what any run of them keeps: an uncrossed book and every order's quantity. */
module BookRuns {
  import opened Candles
  import opened Orders
  import opened FlatBook

  datatype Book = Book(bids: seq<Entry>, asks: seq<Entry>)
  {
    /** The side a taker trades against. */
    function Against(taker: Side): seq<Entry> { if taker.Buy? then asks else bids }

    function Put(taker: Side, s: seq<Entry>): Book { if taker.Buy? then this.(asks := s) else this.(bids := s) }
  }

  datatype Outcome = Outcome(book: Book, events: seq<TradeEvent>)

  ghost predicate Uncrossed(bids: seq<Entry>, asks: seq<Entry>) {
    forall i, j :: 0 <= i < |bids| && 0 <= j < |asks| ==> bids[i].key < asks[j].key
  }

  ghost predicate SideOk(taker: Side, s: seq<Entry>) {
    SortedFor(taker, s) && AllRest(taker.Opposite(), s)
  }

  /** Both sides sorted, holding live limit orders of their own side, and every bid below every ask. */
  ghost predicate BookOk(b: Book) {
    SideOk(Sell, b.bids) && SideOk(Buy, b.asks) && Uncrossed(b.bids, b.asks)
  }

  predicate CanFill(s: seq<Entry>, o: Order)
    requires ValidOrder(o)
  {
    Eligible(s, o.side, o.price) >= o.remaining * (1.0 - QTY_REL_TOL)
  }

  /** A fill-or-kill order that is killed. */
  predicate Killed(b: Book, o: Order)
    requires ValidOrder(o)
  {
    o.kind.Fok? && !CanFill(b.Against(o.side), o)
  }

  /** The matching path for a validated order. */
  function SubmitValid(b: Book, o: Order, ts: int): Outcome
    requires BookOk(b) && FreshOrder(o)
  {
    if Killed(b, o) then Outcome(b, [Cancelled(o.id, FokNoFill)])
    else
      var s := Sweep(b.Against(o.side), o);
      var b2 := b.Put(o.side, s.rest);
      var events := EventsOf(s.trades, o, ts);
      if o.kind.Fok? || s.taker.IsFilled() then Outcome(b2, events)
      else match o.kind
        case Limit => Outcome(Rested(b2, s.taker), events)
        case Ioc => Outcome(b2, events + [Cancelled(o.id, IocRemainder)])
        case Market => Outcome(b2, events + [Cancelled(o.id, MarketNoLiquidity)])
  }

  function Rested(b: Book, o: Order): Book
    requires ValidOrder(o) && o.kind.Limit?
  {
    var own := o.side.Opposite();
    b.Put(own, Insert(own, b.Against(own), Entry(PriceKey(o.price.value), o)))
  }

  function Submit(b: Book, r: Request): Outcome
    requires BookOk(b)
  {
    match Validate(r)
    case Err(_) => Outcome(b, [Cancelled(r.id, InvalidOrder)])
    case Ok(o) => SubmitValid(b, o, r.ts)
  }

  // ----- what one submission keeps -----

  /** `s` has, in order, the levels of `t` from position `d` on. */
  ghost predicate KeysOfTail(s: seq<Entry>, t: seq<Entry>, d: nat) {
    |s| + d == |t| && forall i :: 0 <= i < |s| ==> s[i].key == t[i + d].key
  }

  /** A sweep takes entries off the front and leaves the levels of the others alone. */
  lemma {:induction false} SweepLeavesTail(rest: seq<Entry>, taker: Order) returns (d: nat)
    requires ValidOrder(taker) && AllRest(taker.side.Opposite(), rest)
    ensures KeysOfTail(Sweep(rest, taker).rest, rest, d)
    decreases |rest|
  {
    d := 0;
    if Sweep(rest, taker).trades != [] {
      var q := Min(taker.remaining, rest[0].order.remaining);
      if Front(rest[0], q) == [] {
        var e := SweepLeavesTail(rest[1..], After(taker, q));
        d := e + 1;
        TailOfTail(Sweep(rest, taker).rest, rest, e);
      }
    }
  }

  lemma TailOfTail(s: seq<Entry>, t: seq<Entry>, d: nat)
    requires t != [] && KeysOfTail(s, t[1..], d)
    ensures KeysOfTail(s, t, d + 1)
  {
    forall i | 0 <= i < |s| ensures s[i].key == t[i + (d + 1)].key { assert t[1..][i + d] == t[i + d + 1]; }
  }

  lemma TailIsSorted(taker: Side, s: seq<Entry>, t: seq<Entry>, d: nat)
    requires KeysOfTail(s, t, d) && SortedFor(taker, t)
    ensures SortedFor(taker, s) && KeysFrom(s, t)
  {
    forall i, j | 0 <= i < j < |s|
      ensures Ahead(taker, s[i].key, s[j].key)
    {
      assert Ahead(taker, t[i + d].key, t[j + d].key);
    }
    forall i | 0 <= i < |s|
      ensures HasLevel(t, s[i].key)
    {
      assert s[i].key == t[i + d].key;
    }
  }

  lemma SweepKeepsSorted(rest: seq<Entry>, taker: Order)
    requires ValidOrder(taker) && SideOk(taker.side, rest)
    ensures SideOk(taker.side, Sweep(rest, taker).rest)
    ensures KeysFrom(Sweep(rest, taker).rest, rest)
  {
    var d := SweepLeavesTail(rest, taker);
    TailIsSorted(taker.side, Sweep(rest, taker).rest, rest, d);
  }

  ghost predicate HasLevel(t: seq<Entry>, k: nat) { exists j :: 0 <= j < |t| && t[j].key == k }

  ghost predicate KeysFrom(s: seq<Entry>, t: seq<Entry>) {
    forall i :: 0 <= i < |s| ==> HasLevel(t, s[i].key)
  }

  lemma SweptBookOk(b: Book, o: Order)
    requires BookOk(b) && ValidOrder(o)
    ensures BookOk(b.Put(o.side, Sweep(b.Against(o.side), o).rest))
  {
    SweepKeepsSorted(b.Against(o.side), o);
  }

  lemma FrontDecides(taker: Side, s: seq<Entry>, k: nat)
    requires SortedFor(taker, s) && (s != [] ==> !Ahead(taker, s[0].key, k))
    ensures forall j :: 0 <= j < |s| ==> !Ahead(taker, s[j].key, k)
  {
    forall j | 0 < j < |s|
      ensures !Ahead(taker, s[j].key, k)
    {
      assert Ahead(taker, s[0].key, s[j].key);
    }
  }

  /** A limit order that is not filled has swept everything it crosses. */
  lemma NothingLeftToCross(rest: seq<Entry>, o: Order)
    requires SideOk(o.side, rest) && ValidOrder(o) && o.kind.Limit? && !Sweep(rest, o).taker.IsFilled()
    ensures var left := Sweep(rest, o).rest;
            forall j :: 0 <= j < |left| ==> !Ahead(o.side, left[j].key, PriceKey(o.price.value))
  {
    var left := Sweep(rest, o).rest;
    assert SortedFor(o.side, left) by { SweepKeepsSorted(rest, o); }
    assert left != [] ==> !Ahead(o.side, left[0].key, PriceKey(o.price.value)) by { SweepStopsInTime(rest, o); }
    FrontDecides(o.side, left, PriceKey(o.price.value));
  }

  lemma RestKeepsUncrossed(taker: Side, s: seq<Entry>, e: Entry, other: seq<Entry>)
    requires SortedFor(taker, s)
    requires if taker.Sell? then Uncrossed(s, other) else Uncrossed(other, s)
    requires forall j :: 0 <= j < |other| ==> if taker.Sell? then e.key < other[j].key else other[j].key < e.key
    ensures var t := Insert(taker, s, e); if taker.Sell? then Uncrossed(t, other) else Uncrossed(other, t)
  {
    var n := InsertSplits(taker, s, e);
  }

  lemma RestedBookOk(b: Book, o: Order)
    requires BookOk(b) && ValidOrder(o) && o.kind.Limit? && !o.IsFilled()
    requires forall j :: 0 <= j < |b.Against(o.side)| ==>
             !Ahead(o.side, b.Against(o.side)[j].key, PriceKey(o.price.value))
    ensures BookOk(Rested(b, o))
  {
    var own := o.side.Opposite();
    var e := Entry(PriceKey(o.price.value), o);
    InsertKeepsOrder(own, b.Against(own), e);
    RestKeepsUncrossed(own, b.Against(own), e, b.Against(o.side));
  }

  lemma SubmitValidKeepsBook(b: Book, o: Order, ts: int)
    requires BookOk(b) && FreshOrder(o)
    ensures BookOk(SubmitValid(b, o, ts).book)
  {
    if !Killed(b, o) {
      var s := Sweep(b.Against(o.side), o);
      SweptBookOk(b, o);
      if o.kind.Limit? && !s.taker.IsFilled() {
        NothingLeftToCross(b.Against(o.side), o);
        RestedBookOk(b.Put(o.side, s.rest), s.taker);
      }
    }
  }

  lemma SubmitKeepsBook(b: Book, r: Request)
    requires BookOk(b)
    ensures BookOk(Submit(b, r).book)
  {
    if Validate(r).Ok? { SubmitValidKeepsBook(b, Validate(r).value, r.ts); }
  }

  /** Fill or kill: all but dust is traded, or nothing happens but one cancel; the resting quantity decides. */
  lemma FokIsAllOrNothing(b: Book, o: Order, ts: int)
    requires BookOk(b) && FreshOrder(o) && o.kind.Fok?
    ensures var out := SubmitValid(b, o, ts); var s := Sweep(b.Against(o.side), o);
            if Eligible(b.Against(o.side), o.side, o.price) >= o.qty * (1.0 - QTY_REL_TOL) then
              && out == Outcome(b.Put(o.side, s.rest), EventsOf(s.trades, o, ts))
              && o.qty * (1.0 - QTY_REL_TOL) <= TotalQty(s.trades) <= o.qty
            else
              out == Outcome(b, [Cancelled(o.id, FokNoFill)]) && !s.taker.IsFilled()
  {
    SweepFillsIffEligible(b.Against(o.side), o);
    SweepStopsInTime(b.Against(o.side), o);
  }

  // ----- conservation -----

  function RestingIn(b: Book, id: nat): real { Resting(b.bids, id) + Resting(b.asks, id) }

  function OriginalIn(b: Book, id: nat): real { Original(b.bids, id) + Original(b.asks, id) }

  /** The quantity a submission gives up with a cancel event. */
  function CancelledQty(b: Book, o: Order): real
    requires BookOk(b) && FreshOrder(o)
  {
    if Killed(b, o) then o.qty
    else
      var s := Sweep(b.Against(o.side), o);
      if (o.kind.Ioc? || o.kind.Market?) && !s.taker.IsFilled() then s.taker.remaining else 0.0
  }

  ghost predicate WithinDust(lost: real, gone: real) { 0.0 <= lost <= gone * QTY_REL_TOL }

  /** Only an order that gives up more than dust is cancelled, and it is told so last. */
  lemma CancelsAreTold(b: Book, o: Order, ts: int)
    requires BookOk(b) && FreshOrder(o)
    ensures CancelledQty(b, o) == 0.0 || CancelledQty(b, o) > o.qty * QTY_REL_TOL
    ensures CancelledQty(b, o) > 0.0 <==>
              exists i, why :: 0 <= i < |SubmitValid(b, o, ts).events| &&
                  SubmitValid(b, o, ts).events[i] == Cancelled(o.id, why)
  {
    var out := SubmitValid(b, o, ts);
    var s := Sweep(b.Against(o.side), o);
    if Killed(b, o) {
      assert out.events[0] == Cancelled(o.id, FokNoFill);
    } else {
      var fills := EventsOf(s.trades, o, ts);
      EventsAreFills(s.trades, o, ts);
      if o.kind.Fok? { SweepFillsIffEligible(b.Against(o.side), o); }
      if CancelledQty(b, o) > 0.0 {
        assert out.events[|fills|] == Cancelled(o.id, if o.kind.Ioc? then IocRemainder else MarketNoLiquidity);
      }
    }
  }

  lemma {:induction false} EventsAreFills(trades: seq<Trade>, taker: Order, ts: int)
    ensures forall i :: 0 <= i < |EventsOf(trades, taker, ts)| ==> EventsOf(trades, taker, ts)[i].Filled?
  {
    if trades != [] { EventsAreFills(trades[1..], taker, ts); }
  }

  lemma MakersAreOpposite(rest: seq<Entry>, taker: Order)
    requires ValidOrder(taker) && AllRest(taker.side.Opposite(), rest)
    ensures forall i :: 0 <= i < |Sweep(rest, taker).trades| ==>
            Sweep(rest, taker).trades[i].maker.side == taker.side.Opposite()
  {
    SweepConsumesPrefix(rest, taker);
  }

  lemma CancelAddsNothing(events: seq<TradeEvent>, id: nat, reason: CancelReason, x: nat)
    ensures FillSum(events + [Cancelled(id, reason)], x) == FillSum(events, x)
    ensures SignedSum(events + [Cancelled(id, reason)]) == SignedSum(events)
  {
    SumsAppend(events, [Cancelled(id, reason)], x);
    assert [Cancelled(id, reason)][1..] == [];
  }

  /** One submission's fills, by id and signed. */
  lemma SubmitSums(b: Book, o: Order, ts: int, id: nat)
    requires BookOk(b) && FreshOrder(o)
    ensures var out := SubmitValid(b, o, ts); var s := Sweep(b.Against(o.side), o);
            && SignedSum(out.events) == 0.0
            && FillSum(out.events, id) ==
                 if Killed(b, o) then 0.0 else (if o.id == id then TotalQty(s.trades) else 0.0) + MakerQty(s.trades, id)
  {
    var s := Sweep(b.Against(o.side), o);
    MakersAreOpposite(b.Against(o.side), o);
    EventSums(s.trades, o, ts, id);
    CancelAddsNothing(EventsOf(s.trades, o, ts), o.id, IocRemainder, id);
    CancelAddsNothing(EventsOf(s.trades, o, ts), o.id, MarketNoLiquidity, id);
    CancelAddsNothing([], o.id, FokNoFill, id);
    assert [] + [Cancelled(o.id, FokNoFill)] == [Cancelled(o.id, FokNoFill)];
  }

  /** What `o` asks for is traded, left resting, cancelled or dust; other orders only trade or leave as dust. */
  lemma SubmitConserves(b: Book, o: Order, ts: int, id: nat)
    requires BookOk(b) && FreshOrder(o)
    ensures var out := SubmitValid(b, o, ts);
            var asked := if o.id == id then o.qty else 0.0;
            var cancelled := if o.id == id then CancelledQty(b, o) else 0.0;
            WithinDust(asked + RestingIn(b, id) - RestingIn(out.book, id) - FillSum(out.events, id) - cancelled,
                       asked + OriginalIn(b, id) - OriginalIn(out.book, id))
  {
    SubmitSums(b, o, ts, id);
    if !Killed(b, o) {
      var s := Sweep(b.Against(o.side), o);
      SweepLedger(b.Against(o.side), o, id);
      SweepStopsInTime(b.Against(o.side), o);
      if o.kind.Fok? { SweepFillsIffEligible(b.Against(o.side), o); }
      if o.kind.Limit? && !s.taker.IsFilled() {
        var own := o.side.Opposite();
        InsertLedger(own, b.Against(own), Entry(PriceKey(o.price.value), s.taker), id);
      }
    }
  }

  // ----- runs -----

  /** The book and the events after any sequence of submissions to an empty book. */
  function Play(rs: seq<Request>): (out: Outcome)
    ensures BookOk(out.book)
  {
    if rs == [] then Outcome(Book([], []), [])
    else
      var before := Play(rs[..|rs| - 1]);
      var last := Submit(before.book, rs[|rs| - 1]);
      SubmitKeepsBook(before.book, rs[|rs| - 1]);
      Outcome(last.book, before.events + last.events)
  }

  /** The quantity asked for by the valid orders under `id`. */
  function Asked(rs: seq<Request>, id: nat): real {
    if rs == [] then 0.0
    else
      var r := rs[|rs| - 1];
      Asked(rs[..|rs| - 1], id) + if r.id == id && ValidRequest(r) then r.qty.value else 0.0
  }

  /** The quantity given up by cancel events under `id`. */
  function GivenUp(rs: seq<Request>, id: nat): real {
    if rs == [] then 0.0
    else
      var r := rs[|rs| - 1];
      var before := rs[..|rs| - 1];
      var cancels := r.id == id && ValidRequest(r);
      GivenUp(before, id) + if cancels then CancelledQty(Play(before).book, Validate(r).value) else 0.0
  }

  lemma {:induction false} PlayConserves(rs: seq<Request>, id: nat)
    ensures var out := Play(rs);
            WithinDust(Asked(rs, id) - FillSum(out.events, id) - RestingIn(out.book, id) - GivenUp(rs, id),
                       Asked(rs, id) - OriginalIn(out.book, id))
    ensures SignedSum(Play(rs).events) == 0.0
  {
    if rs != [] {
      var r, earlier := rs[|rs| - 1], rs[..|rs| - 1];
      var before := Play(earlier);
      var last := Submit(before.book, r);
      PlayConserves(earlier, id);
      SumsAppend(before.events, last.events, id);
      if Validate(r).Ok? {
        SubmitConserves(before.book, Validate(r).value, r.ts, id);
        SubmitSums(before.book, Validate(r).value, r.ts, id);
      } else {
        CancelAddsNothing([], r.id, InvalidOrder, id);
        assert [] + [Cancelled(r.id, InvalidOrder)] == last.events;
      }
    }
  }

  lemma {:induction false} OriginalIsPositive(side: Side, s: seq<Entry>, id: nat)
    requires AllRest(side, s)
    ensures Original(s, id) >= Resting(s, id) >= 0.0
  {
    if s != [] { OriginalIsPositive(side, s[1..], id); }
  }

  /**
   Over any run: under every id, the quantity asked for is the quantity traded, resting and cancelled,
   up to dust of one part in 1e9 of what was asked for; and bought equals sold.
   */
  lemma QuantityIsConserved(rs: seq<Request>, id: nat)
    ensures var out := Play(rs);
            var kept := FillSum(out.events, id) + RestingIn(out.book, id) + GivenUp(rs, id);
            0.0 <= Asked(rs, id) - kept <= Asked(rs, id) * QTY_REL_TOL
    ensures SignedSum(Play(rs).events) == 0.0
  {
    PlayConserves(rs, id);
    OriginalIsPositive(Buy, Play(rs).book.bids, id);
    OriginalIsPositive(Sell, Play(rs).book.asks, id);
  }

  // ----- what the fills of a run look like -----

  /** A fill trades something, at a price in the accepted range or rounded down to zero. */
  predicate Sound(e: TradeEvent) {
    e.Filled? ==> e.fill.qty > 0.0 && 0.0 <= e.fill.price <= MAX_PRICE
  }

  ghost predicate AllSound(events: seq<TradeEvent>) { forall i :: 0 <= i < |events| ==> Sound(events[i]) }

  lemma KeyPriceInRange(k: nat)
    requires k <= U64_MAX
    ensures 0.0 <= KeyPrice(k) <= MAX_PRICE
  {
    assert KeyPrice(k) * PRICE_SCALE == k as real;
  }

  ghost predicate TradesInRange(trades: seq<Trade>) {
    forall i :: 0 <= i < |trades| ==> trades[i].qty > 0.0 && trades[i].key <= U64_MAX
  }

  lemma {:induction false} TradesAreSound(trades: seq<Trade>, taker: Order, ts: int)
    requires TradesInRange(trades)
    ensures AllSound(EventsOf(trades, taker, ts))
  {
    if trades != [] {
      TradesAreSound(trades[1..], taker, ts);
      KeyPriceInRange(trades[0].key);
    }
  }

  lemma SweepTradesInRange(rest: seq<Entry>, o: Order)
    requires ValidOrder(o) && AllRest(o.side.Opposite(), rest)
    ensures TradesInRange(Sweep(rest, o).trades)
  {
    var t := Sweep(rest, o).trades;
    SweepConsumesPrefix(rest, o);
    forall i | 0 <= i < |t|
      ensures t[i].qty > 0.0 && t[i].key <= U64_MAX
    {
      LevelInRange(o.side.Opposite(), rest[i]);
    }
  }

  lemma LevelInRange(side: Side, e: Entry)
    requires RestsOn(side, e)
    ensures e.key <= U64_MAX
  {
  }

  lemma CancelIsSound(events: seq<TradeEvent>, id: nat, reason: CancelReason)
    requires AllSound(events)
    ensures AllSound(events + [Cancelled(id, reason)])
  {
  }

  lemma SubmitIsSound(b: Book, o: Order, ts: int)
    requires BookOk(b) && FreshOrder(o)
    ensures AllSound(SubmitValid(b, o, ts).events)
  {
    if !Killed(b, o) {
      var trades := Sweep(b.Against(o.side), o).trades;
      SweepTradesInRange(b.Against(o.side), o);
      TradesAreSound(trades, o, ts);
      CancelIsSound(EventsOf(trades, o, ts), o.id, IocRemainder);
      CancelIsSound(EventsOf(trades, o, ts), o.id, MarketNoLiquidity);
    }
  }

  /** Over any run, every fill the book reports is one the portfolio's accounting is meant for. */
  lemma {:induction false} RunsAreSound(rs: seq<Request>)
    ensures AllSound(Play(rs).events)
  {
    if rs != [] {
      var r, before := rs[|rs| - 1], Play(rs[..|rs| - 1]);
      RunsAreSound(rs[..|rs| - 1]);
      if Validate(r).Ok? { SubmitIsSound(before.book, Validate(r).value, r.ts); }
    }
  }

  // ----- limits -----

  lemma {:induction false} EventsHonour(o: Order, trades: seq<Trade>, taker: Order, ts: int)
    requires AllHonour(o, trades)
    ensures forall i :: 0 <= i < |EventsOf(trades, taker, ts)| ==>
              EventsOf(trades, taker, ts)[i].Filled? && Honours(o, EventsOf(trades, taker, ts)[i].fill.price)
  {
    if trades != [] {
      EventsHonour(o, trades[1..], taker, ts);
      assert Honours(o, KeyPrice(trades[0].key));
    }
  }

  /** Every fill of a submission, its own and its makers', is within the limit of the order submitted. */
  lemma SubmitHonoursLimit(b: Book, o: Order, ts: int)
    requires BookOk(b) && FreshOrder(o)
    ensures forall i :: 0 <= i < |SubmitValid(b, o, ts).events| && SubmitValid(b, o, ts).events[i].Filled? ==>
              Honours(o, SubmitValid(b, o, ts).events[i].fill.price)
  {
    if !Killed(b, o) {
      var s := Sweep(b.Against(o.side), o);
      FillsWithinLimit(b.Against(o.side), o);
      EventsHonour(o, s.trades, o, ts);
    }
  }

  /** And every maker trades within its own limit: it rests at the level its price rounds to. */
  lemma MakersHonourLimit(b: Book, o: Order, j: nat)
    requires BookOk(b) && ValidOrder(o) && j < |Sweep(b.Against(o.side), o).trades|
    ensures Honours(Sweep(b.Against(o.side), o).trades[j].maker, KeyPrice(Sweep(b.Against(o.side), o).trades[j].key))
  {
    var rest := b.Against(o.side);
    SweepConsumesPrefix(rest, o);
    RestingHonours(o.side.Opposite(), rest[j]);
  }

  lemma RestingHonours(side: Side, e: Entry)
    requires RestsOn(side, e)
    ensures Honours(e.order, KeyPrice(e.key))
  {
    CrossingIsHonoured(e.order, e.key);
  }

  // ----- trading for nothing -----

  /** Two limit orders at a price of less than half a tick meet, and the quantity changes hands at price zero. */
  lemma TradesForNothing(p: real, q: real, symbol: string, ts: int)
    requires 0.0 < p && p * PRICE_SCALE < 0.5 && q > 0.0
    ensures var sell := Request(1, symbol, Sell, LimitAt(Finite(p)), Finite(q), ts);
            var buy := Request(2, symbol, Buy, LimitAt(Finite(p)), Finite(q), ts);
            Play([sell, buy]).events ==
              [Filled(Fill(2, symbol, Buy, 0.0, q, ts)), Filled(Fill(1, symbol, Sell, 0.0, q, ts))]
  {
    var sell := Request(1, symbol, Sell, LimitAt(Finite(p)), Finite(q), ts);
    var buy := Request(2, symbol, Buy, LimitAt(Finite(p)), Finite(q), ts);
    KeyIsZeroIff(p);
    var maker := Order(1, symbol, Sell, Limit, Some(p), q, q);
    var taker := Order(2, symbol, Buy, Limit, Some(p), q, q);
    assert Validate(sell) == Ok(maker) && Validate(buy) == Ok(taker);
    RestsAlone(maker, ts);
    assert [sell][..0] == [] && [sell, buy][..1] == [sell];
    assert Play([sell]) == SubmitValid(Book([], []), maker, ts);
    MeetsAlone(maker, taker, ts);
    assert [] + Pair(Trade(0, maker, q), taker, ts) == Pair(Trade(0, maker, q), taker, ts);
  }

  lemma RestsAlone(maker: Order, ts: int)
    requires FreshOrder(maker) && maker.kind.Limit? && maker.side.Sell?
    ensures SubmitValid(Book([], []), maker, ts) == Outcome(Book([], [Entry(PriceKey(maker.price.value), maker)]), [])
  {
    assert Sweep([], maker) == Swept(maker, [], []);
  }

  /** An equal order on the other side takes a lone maker whole. */
  lemma MeetsAlone(maker: Order, taker: Order, ts: int)
    requires FreshOrder(maker) && maker.kind.Limit? && maker.side.Sell?
    requires FreshOrder(taker) && taker.kind.Limit? && taker.side.Buy?
    requires taker.price == maker.price && taker.qty == maker.qty
    ensures var k := PriceKey(maker.price.value);
            && BookOk(Book([], [Entry(k, maker)]))
            && SubmitValid(Book([], [Entry(k, maker)]), taker, ts).events == Pair(Trade(k, maker, maker.qty), taker, ts)
  {
    var k := PriceKey(maker.price.value);
    var rest := [Entry(k, maker)];
    var t := Trade(k, maker, maker.qty);
    assert RestsOn(Sell, rest[0]);
    assert rest[1..] == [] && Front(rest[0], maker.qty) == [];
    assert Sweep([], After(taker, maker.qty)) == Swept(After(taker, maker.qty), [], []);
    assert Sweep(rest, taker) == Swept(After(taker, maker.qty), [], [t] + []);
    assert [t] + [] == [t] && [t][1..] == [];
    assert EventsOf([t], taker, ts) == Pair(t, taker, ts) + [];
  }
}
