/** What a submission means to the one who sent it, in terms of the request, the book before and the events. */
module BookRequests {
  import opened Candles
  import opened Orders
  import opened FlatBook
  import opened BookRuns

  /** No order under `id` rests in the book. */
  ghost predicate NewId(b: Book, id: nat) {
    && (forall i :: 0 <= i < |b.bids| ==> b.bids[i].order.id != id)
    && (forall i :: 0 <= i < |b.asks| ==> b.asks[i].order.id != id)
  }

  lemma {:induction false} NotAMaker(trades: seq<Trade>, id: nat)
    requires forall i :: 0 <= i < |trades| ==> trades[i].maker.id != id
    ensures MakerQty(trades, id) == 0.0
  {
    if trades != [] { NotAMaker(trades[1..], id); }
  }

  lemma {:induction false} NotResting(s: seq<Entry>, id: nat)
    requires forall i :: 0 <= i < |s| ==> s[i].order.id != id
    ensures Resting(s, id) == 0.0
  {
    if s != [] { NotResting(s[1..], id); }
  }

  lemma {:induction false} QtyIsPositive(trades: seq<Trade>)
    requires forall i :: 0 <= i < |trades| ==> trades[i].qty > 0.0
    ensures TotalQty(trades) >= 0.0 && (trades != [] ==> TotalQty(trades) > 0.0)
  {
    if trades != [] { QtyIsPositive(trades[1..]); }
  }

  /** The fills reported under a new id are exactly what its order traded. */
  lemma NewIdFills(b: Book, o: Order, ts: int)
    requires BookOk(b) && FreshOrder(o) && NewId(b, o.id)
    ensures FillSum(SubmitValid(b, o, ts).events, o.id) ==
              if Killed(b, o) then 0.0 else TotalQty(Sweep(b.Against(o.side), o).trades)
  {
    var rest := b.Against(o.side);
    SubmitSums(b, o, ts, o.id);
    SweepConsumesPrefix(rest, o);
    NotAMaker(Sweep(rest, o).trades, o.id);
  }

  // ----- the prices a request accepts -----

  /** Whether a request may trade at a price: a limit counts as rounded to the tick. */
  predicate Accepts(r: Request, price: real)
    requires ValidRequest(r)
  {
    if r.terms.AtMarket? then true
    else
      var limit := KeyPrice(PriceKey(r.terms.price.value));
      if r.side.Buy? then price <= limit else price >= limit
  }

  /** The price of a request, if it has one. */
  function LimitOf(r: Request): Option<real>
    requires ValidRequest(r)
  {
    if r.terms.AtMarket? then None else Some(r.terms.price.value)
  }

  lemma AcceptsIsCrosses(r: Request, k: nat)
    requires ValidRequest(r)
    ensures Accepts(r, KeyPrice(k)) <==> Crosses(r.side, LimitOf(r), k)
  {
    if !r.terms.AtMarket? { KeyPricesKeepOrder(k, PriceKey(r.terms.price.value)); }
  }

  lemma KeyPricesKeepOrder(k: nat, j: nat)
    ensures KeyPrice(k) <= KeyPrice(j) <==> k <= j
  {
    assert KeyPrice(k) * PRICE_SCALE == k as real && KeyPrice(j) * PRICE_SCALE == j as real;
  }

  /** The quantity resting at prices a request accepts. */
  function Available(s: seq<Entry>, r: Request): real
    requires ValidRequest(r)
  {
    if s == [] then 0.0
    else (if Accepts(r, KeyPrice(s[0].key)) then s[0].order.remaining else 0.0) + Available(s[1..], r)
  }

  lemma {:induction false} AvailableIsEligible(s: seq<Entry>, r: Request)
    requires ValidRequest(r)
    ensures Available(s, r) == Eligible(s, r.side, LimitOf(r))
  {
    if s != [] {
      AcceptsIsCrosses(r, s[0].key);
      AvailableIsEligible(s[1..], r);
    }
  }

  // ----- fill or kill -----

  /** Nothing traded, the book as it was and one cancel. */
  ghost predicate KilledCleanly(b: Book, r: Request, out: Outcome) {
    out == Outcome(b, [Cancelled(r.id, FokNoFill)]) && FillSum(out.events, r.id) == 0.0
  }

  /**
   A fill-or-kill request under a new id trades at least all but dust and at most all of its quantity, or
   nothing at all with the book untouched; the quantity resting within its price decides.
   */
  lemma FokRequest(b: Book, r: Request)
    requires BookOk(b) && r.terms.FokAt? && ValidRequest(r) && NewId(b, r.id)
    ensures var out := Submit(b, r); var q := r.qty.value;
            if Available(b.Against(r.side), r) >= q * (1.0 - QTY_REL_TOL) then
              q * (1.0 - QTY_REL_TOL) <= FillSum(out.events, r.id) <= q
            else KilledCleanly(b, r, out)
  {
    var o := Validate(r).value;
    AvailableIsEligible(b.Against(r.side), r);
    FokIsAllOrNothing(b, o, r.ts);
    NewIdFills(b, o, r.ts);
    CancelAddsNothing([], r.id, FokNoFill, r.id);
    assert [] + [Cancelled(r.id, FokNoFill)] == [Cancelled(r.id, FokNoFill)];
  }

  // ----- cancels -----

  /** The one reason a request of its kind can be cancelled for. */
  function ReasonFor(r: Request): CancelReason {
    if !ValidRequest(r) then InvalidOrder
    else match r.terms
      case FokAt(_) => FokNoFill
      case IocAt(_) => IocRemainder
      case AtMarket => MarketNoLiquidity
      case LimitAt(_) => InvalidOrder
  }

  /** Quantity that a request under a new id has not traded. */
  function Untraded(b: Book, r: Request): real
    requires BookOk(b)
  {
    (if r.qty.Finite? then r.qty.value else 0.0) - FillSum(Submit(b, r).events, r.id)
  }

  /** A request is cancelled when it is invalid, or when it may not rest and is left with more than dust. */
  ghost predicate MustCancel(b: Book, r: Request)
    requires BookOk(b)
  {
    !ValidRequest(r) || (!r.terms.LimitAt? && Untraded(b, r) > r.qty.value * QTY_REL_TOL)
  }

  /** Only the last event can be a cancel, and it names the request and the reason of its kind. */
  ghost predicate CancelsAsDue(events: seq<TradeEvent>, r: Request, due: bool) {
    && (forall i :: 0 <= i < |events| - 1 ==> events[i].Filled?)
    && (due ==> events != [] && events[|events| - 1] == Cancelled(r.id, ReasonFor(r)))
    && (!due ==> forall i :: 0 <= i < |events| ==> events[i].Filled?)
  }

  lemma FillsThenCancel(trades: seq<Trade>, o: Order, ts: int, r: Request)
    ensures CancelsAsDue(EventsOf(trades, o, ts), r, false)
    ensures CancelsAsDue(EventsOf(trades, o, ts) + [Cancelled(r.id, ReasonFor(r))], r, true)
  {
    EventsAreFills(trades, o, ts);
  }

  lemma CancelsOfValid(b: Book, r: Request)
    requires BookOk(b) && ValidRequest(r) && NewId(b, r.id)
    ensures CancelsAsDue(Submit(b, r).events, r, MustCancel(b, r))
  {
    var o := Validate(r).value;
    var rest := b.Against(o.side);
    var s := Sweep(rest, o);
    NewIdFills(b, o, r.ts);
    if Killed(b, o) {
      assert Submit(b, r).events == [Cancelled(r.id, FokNoFill)];
    } else {
      SweepStopsInTime(rest, o);
      if o.kind.Fok? { SweepFillsIffEligible(rest, o); }
      FillsThenCancel(s.trades, o, r.ts, r);
    }
  }

  /** When a request is cancelled, and with which reason. */
  lemma CancelsSayWhy(b: Book, r: Request)
    requires BookOk(b) && NewId(b, r.id)
    ensures CancelsAsDue(Submit(b, r).events, r, MustCancel(b, r))
    ensures !ValidRequest(r) ==> Submit(b, r) == Outcome(b, [Cancelled(r.id, InvalidOrder)])
  {
    if ValidRequest(r) { CancelsOfValid(b, r); }
  }

  // ----- resting -----

  /** `e` stands in `after` behind everything of `before` at its level or better, and in front of the rest. */
  ghost predicate StandsIn(taker: Side, before: seq<Entry>, e: Entry, after: seq<Entry>) {
    exists n :: StandsAt(taker, before, e, after, n)
  }

  ghost predicate StandsAt(taker: Side, before: seq<Entry>, e: Entry, after: seq<Entry>, n: int) {
    && 0 <= n <= |before| && after == before[..n] + [e] + before[n..]
    && (forall i :: 0 <= i < n ==> Ahead(taker, before[i].key, e.key))
    && (forall i :: n <= i < |before| ==> !Ahead(taker, before[i].key, e.key))
  }

  /** The order that a limit request leaves resting. */
  function Remainder(r: Request, left: real): Order
    requires r.terms.LimitAt? && r.terms.price.Finite? && r.qty.Finite?
  {
    Order(r.id, r.symbol, r.side, Limit, Some(r.terms.price.value), r.qty.value, left)
  }

  /**
   A limit request left with more than dust rests with exactly that, in price-time priority, at the level its
   price rounds to; any other request leaves its own side of the book alone.
   */
  lemma LimitsRest(b: Book, r: Request)
    requires BookOk(b) && NewId(b, r.id)
    ensures var own := r.side.Opposite(); var after := Submit(b, r).book.Against(own);
            if ValidRequest(r) && r.terms.LimitAt? && Untraded(b, r) > r.qty.value * QTY_REL_TOL then
              StandsIn(own, b.Against(own), Entry(PriceKey(r.terms.price.value), Remainder(r, Untraded(b, r))), after)
            else after == b.Against(own)
  {
    if ValidRequest(r) {
      var o := Validate(r).value;
      var s := Sweep(b.Against(o.side), o);
      NewIdFills(b, o, r.ts);
      if !Killed(b, o) {
        SweepStopsInTime(b.Against(o.side), o);
        if o.kind.Limit? && !s.taker.IsFilled() { RestStands(b, r); }
      }
    }
  }

  lemma RestStands(b: Book, r: Request)
    requires BookOk(b) && ValidRequest(r) && r.terms.LimitAt?
    requires !Sweep(b.Against(r.side), Validate(r).value).taker.IsFilled()
    ensures var own := r.side.Opposite(); var left := Sweep(b.Against(r.side), Validate(r).value).taker.remaining;
            StandsIn(own, b.Against(own), Entry(PriceKey(r.terms.price.value), Remainder(r, left)),
                     Submit(b, r).book.Against(own))
  {
    var own := r.side.Opposite();
    var left := Sweep(b.Against(r.side), Validate(r).value).taker.remaining;
    var e := Entry(PriceKey(r.terms.price.value), Remainder(r, left));
    var n := InsertSplits(own, b.Against(own), e);
    assert StandsAt(own, b.Against(own), e, Insert(own, b.Against(own), e), n);
  }

  // ----- fills -----

  /** What a request trades with the order at place `j`: all that it has, or what those in front left. */
  function MetQty(b: Book, r: Request, j: nat): real
    requires j < |b.Against(r.side)| && r.qty.Finite?
  {
    Min(r.qty.value - Depth(b.Against(r.side)[..j]), b.Against(r.side)[j].order.remaining)
  }

  /**
   The fills of a request come in pairs, one pair for each order it meets, best first: the request's own fill and
   that order's, at the price of that order's level, for the same quantity and with the request's timestamp.
   */
  lemma FillsReported(b: Book, r: Request, j: nat)
    requires BookOk(b) && ValidRequest(r) && 2 * j < |Submit(b, r).events| && Submit(b, r).events[2 * j].Filled?
    ensures var rest := b.Against(r.side); var events := Submit(b, r).events;
            && j < |rest| && 2 * j + 1 < |events|
            && events[2 * j] == Filled(Fill(r.id, r.symbol, r.side, KeyPrice(rest[j].key), MetQty(b, r, j), r.ts))
            && events[2 * j + 1] == Filled(Fill(rest[j].order.id, rest[j].order.symbol, r.side.Opposite(),
                                                KeyPrice(rest[j].key), MetQty(b, r, j), r.ts))
  {
    var o := Validate(r).value;
    var rest := b.Against(r.side);
    var trades := Sweep(rest, o).trades;
    FilledAt(b, r, j);
    EventsAt(trades, o, r.ts, j);
    SweepTradeAt(rest, o, j);
    assert RestsOn(r.side.Opposite(), rest[j]);
  }

  /**
   A request reaches the order at place `j` when it and all in front of it are within its price, those in front
   leave it more than dust and, if it is fill or kill, enough rests within its price.
   */
  ghost predicate Meets(b: Book, r: Request, j: nat)
    requires ValidRequest(r) && j < |b.Against(r.side)|
  {
    var rest, q := b.Against(r.side), r.qty.value;
    && (forall k :: 0 <= k <= j ==> Accepts(r, KeyPrice(rest[k].key)))
    && (forall k :: 0 <= k <= j ==> q - Depth(rest[..k]) > q * QTY_REL_TOL)
    && (r.terms.FokAt? ==> Available(rest, r) >= q * (1.0 - QTY_REL_TOL))
  }

  lemma TradesMeet(b: Book, r: Request, j: nat)
    requires BookOk(b) && ValidRequest(r) && j < |b.Against(r.side)|
    ensures !Killed(b, Validate(r).value) && j < |Sweep(b.Against(r.side), Validate(r).value).trades| <==>
            Meets(b, r, j)
  {
    var o := Validate(r).value;
    var rest := b.Against(r.side);
    SweepReaches(rest, o, j);
    AvailableIsEligible(rest, r);
    forall k | 0 <= k <= j
      ensures Accepts(r, KeyPrice(rest[k].key)) <==> Crosses(o.side, o.price, rest[k].key)
    {
      AcceptsIsCrosses(r, rest[k].key);
    }
    assert forall k :: 0 <= k <= j ==>
        (QtyIsZero(o.remaining - Depth(rest[..k]), o.qty) <==> o.qty - Depth(rest[..k]) <= o.qty * QTY_REL_TOL);
  }

  lemma FilledAt(b: Book, r: Request, j: nat)
    requires BookOk(b) && ValidRequest(r)
    ensures var o := Validate(r).value;
            2 * j < |Submit(b, r).events| && Submit(b, r).events[2 * j].Filled? <==>
              !Killed(b, o) && j < |Sweep(b.Against(r.side), o).trades|
  {
    var o := Validate(r).value;
    EventsLength(Sweep(b.Against(r.side), o).trades, o, r.ts);
    EventsAreFills(Sweep(b.Against(r.side), o).trades, o, r.ts);
  }

  /** A request has fills with exactly the orders it reaches. */
  lemma FillsMeet(b: Book, r: Request, j: nat)
    requires BookOk(b) && ValidRequest(r) && j < |b.Against(r.side)|
    ensures 2 * j < |Submit(b, r).events| && Submit(b, r).events[2 * j].Filled? <==> Meets(b, r, j)
  {
    FilledAt(b, r, j);
    TradesMeet(b, r, j);
  }

  /** What is left of an order that traded `q`. */
  function Leftover(e: Entry, q: real): seq<Entry> {
    var left := e.order.remaining - q;
    if left <= e.order.qty * QTY_REL_TOL then [] else [Entry(e.key, e.order.(remaining := left))]
  }

  lemma MetCount(b: Book, r: Request, n: nat)
    requires BookOk(b) && ValidRequest(r) && n <= |b.Against(r.side)|
    requires forall j: nat :: j < |b.Against(r.side)| ==> (Meets(b, r, j) <==> j < n)
    ensures n == if Killed(b, Validate(r).value) then 0 else |Sweep(b.Against(r.side), Validate(r).value).trades|
  {
    var o := Validate(r).value;
    SweepConsumesPrefix(b.Against(r.side), o);
    if n < |b.Against(r.side)| { TradesMeet(b, r, n); }
    if n > 0 { TradesMeet(b, r, n - 1); }
  }

  lemma LeftoverIsFront(e: Entry, q: real)
    ensures Leftover(e, q) == Front(e, q)
  {
  }

  lemma SubmitPutsRest(b: Book, r: Request)
    requires BookOk(b) && ValidRequest(r)
    ensures Submit(b, r).book.Against(r.side) ==
              if Killed(b, Validate(r).value) then b.Against(r.side)
              else Sweep(b.Against(r.side), Validate(r).value).rest
  {
  }

  /** Orders met are gone from the book, except that the last one keeps a leftover of more than dust. */
  lemma OrdersLeft(b: Book, r: Request, n: nat)
    requires BookOk(b) && ValidRequest(r) && n <= |b.Against(r.side)|
    requires forall j: nat :: j < |b.Against(r.side)| ==> (Meets(b, r, j) <==> j < n)
    ensures var rest := b.Against(r.side);
            Submit(b, r).book.Against(r.side) ==
              if n == 0 then rest else Leftover(rest[n - 1], MetQty(b, r, n - 1)) + rest[n..]
  {
    var o := Validate(r).value;
    var rest := b.Against(r.side);
    MetCount(b, r, n);
    SubmitPutsRest(b, r);
    SweepLeaves(rest, o);
    if n > 0 { LeftoverIsFront(rest[n - 1], MetQty(b, r, n - 1)); }
  }

  /** Every fill of a priced request is within half a tick of the price it asked for. */
  lemma RequestHonoursLimit(b: Book, r: Request, i: nat)
    requires BookOk(b) && ValidRequest(r) && !r.terms.AtMarket?
    requires i < |Submit(b, r).events| && Submit(b, r).events[i].Filled?
    ensures WithinLimit(r.side, r.terms.price.value, Submit(b, r).events[i].fill.price)
  {
    SubmitHonoursLimit(b, Validate(r).value, r.ts);
  }
}
