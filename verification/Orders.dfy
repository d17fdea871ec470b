/** Orders, trade events and the integer price key of the matching engine; quantities and prices are exact reals. */
module Orders {
  import opened Candles

  /** A quantity is dust when it is at most this part of the original quantity. */
  const QTY_REL_TOL: real := 0.000000001

  const PRICE_SCALE: real := 100000000.0
  const U64_MAX: nat := 0xFFFF_FFFF_FFFF_FFFF

  /** The price of the largest key, `u64::MAX / 1e8`. */
  const MAX_PRICE: real := 184467440737.09551615

  datatype Result<+T, +E> = Ok(value: T) | Err(error: E)

  datatype Side = Buy | Sell {
    function Opposite(): Side { if Buy? then Sell else Buy }
  }

  datatype Kind = Limit | Market | Ioc | Fok

  /** An order as one of the four constructors builds it, before validation: only a market order has no price. */
  datatype Terms = LimitAt(price: Float) | AtMarket | IocAt(price: Float) | FokAt(price: Float)
  datatype Request = Request(id: nat, symbol: string, side: Side, terms: Terms, qty: Float, ts: int)

  /** A validated order. */
  datatype Order = Order(id: nat, symbol: string, side: Side, kind: Kind, price: Option<real>, qty: real,
                         remaining: real)
  {
    predicate IsFilled() { QtyIsZero(remaining, qty) }
  }

  predicate QtyIsZero(remaining: real, original: real) {
    remaining <= original * QTY_REL_TOL
  }

  datatype Fill = Fill(orderId: nat, symbol: string, side: Side, price: real, qty: real, ts: int)

  datatype CancelReason = IocRemainder | FokNoFill | MarketNoLiquidity | InvalidOrder

  datatype TradeEvent = Filled(fill: Fill) | Cancelled(orderId: nat, reason: CancelReason)

  datatype BookError = PriceNotFinite | PriceNonPositive(p: real) | PriceOutOfRange(p: real) | QuantityInvalid(q: Float)

  // ----- price keys -----

  predicate InPriceRange(p: real) { 0.0 < p <= MAX_PRICE }

  /** Round half up; no accepted price makes the cast to `u64` saturate. */
  function PriceKey(p: real): (k: nat)
    requires InPriceRange(p)
    ensures k <= U64_MAX
  {
    (p * PRICE_SCALE + 0.5).Floor
  }

  function KeyPrice(k: nat): real { k as real / PRICE_SCALE }

  function TryPriceKey(p: Float): (r: Result<nat, BookError>)
    ensures r.Ok? <==> p.Finite? && InPriceRange(p.value)
    ensures r == Err(PriceNotFinite) <==> !p.Finite?
    ensures p.Finite? ==> (r == Err(PriceNonPositive(p.value)) <==> p.value <= 0.0)
    ensures p.Finite? ==> (r == Err(PriceOutOfRange(p.value)) <==> p.value > MAX_PRICE)
    ensures r.Ok? ==> r.value == PriceKey(p.value)
  {
    if !p.Finite? then Err(PriceNotFinite)
    else if p.value <= 0.0 then Err(PriceNonPositive(p.value))
    else if p.value > MAX_PRICE then Err(PriceOutOfRange(p.value))
    else Ok(PriceKey(p.value))
  }

  /** Half of the smallest price step. */
  const HALF_TICK: real := 0.000000005

  /** A key stands for its price to half a tick. */
  lemma KeyIsNearest(p: real)
    requires InPriceRange(p)
    ensures -HALF_TICK <= KeyPrice(PriceKey(p)) - p <= HALF_TICK
  {
    assert KeyPrice(PriceKey(p)) * PRICE_SCALE == PriceKey(p) as real;
  }

  /** Every positive key is the key of its own price, so a price that is a whole number of ticks is kept. */
  lemma KeyRoundTrip(k: nat)
    requires 0 < k <= U64_MAX
    ensures InPriceRange(KeyPrice(k)) && PriceKey(KeyPrice(k)) == k
  {
    assert KeyPrice(k) * PRICE_SCALE == k as real;
    assert MAX_PRICE * PRICE_SCALE == U64_MAX as real;
  }

  /** An accepted price below half a tick rounds to a level that trades for nothing. */
  lemma KeyIsZeroIff(p: real)
    requires InPriceRange(p)
    ensures PriceKey(p) == 0 <==> p * PRICE_SCALE < 0.5
    ensures KeyPrice(PriceKey(p)) == 0.0 <==> p * PRICE_SCALE < 0.5
  {
    assert KeyPrice(PriceKey(p)) * PRICE_SCALE == PriceKey(p) as real;
  }

  lemma KeysKeepOrder(p: real, q: real)
    requires InPriceRange(p) && InPriceRange(q) && p <= q
    ensures PriceKey(p) <= PriceKey(q)
  {
    var x, y := p * PRICE_SCALE + 0.5, q * PRICE_SCALE + 0.5;
    assert x <= y;
  }

  // ----- validation -----

  predicate ValidQty(q: Float) { q.Finite? && q.value > 0.0 }

  /** A finite positive quantity and, unless it is a market order, a finite price in range. */
  predicate ValidRequest(o: Request) {
    ValidQty(o.qty) && (!o.terms.AtMarket? ==> o.terms.price.Finite? && InPriceRange(o.terms.price.value))
  }

  /** `validate_order`: the error, or the order asked for, with nothing filled yet. */
  function Validate(o: Request): (r: Result<Order, BookError>)
    ensures r.Ok? <==> ValidRequest(o)
    ensures r.Ok? ==> FreshOrder(r.value) && r.value.id == o.id && r.value.symbol == o.symbol && r.value.side == o.side
    ensures r.Ok? ==> r.value.qty == r.value.remaining == o.qty.value
    ensures r.Ok? && o.terms.AtMarket? ==> r.value.kind == Market && r.value.price == None
    ensures r.Ok? && o.terms.LimitAt? ==> r.value.kind == Limit && r.value.price == Some(o.terms.price.value)
    ensures r.Ok? && o.terms.IocAt? ==> r.value.kind == Ioc && r.value.price == Some(o.terms.price.value)
    ensures r.Ok? && o.terms.FokAt? ==> r.value.kind == Fok && r.value.price == Some(o.terms.price.value)
    ensures !ValidQty(o.qty) ==> r == Err(QuantityInvalid(o.qty))
    ensures r.Err? && ValidQty(o.qty) ==> !o.terms.AtMarket? && TryPriceKey(o.terms.price) == Err(r.error)
  {
    if !o.qty.Finite? || o.qty.value <= 0.0 then Err(QuantityInvalid(o.qty))
    else if o.terms.AtMarket? then Ok(Order(o.id, o.symbol, o.side, Market, None, o.qty.value, o.qty.value))
    else match TryPriceKey(o.terms.price)
      case Err(e) => Err(e)
      case Ok(_) =>
        var kind := match o.terms { case LimitAt(_) => Limit case IocAt(_) => Ioc case FokAt(_) => Fok };
        Ok(Order(o.id, o.symbol, o.side, kind, Some(o.terms.price.value), o.qty.value, o.qty.value))
  }

  /** Positive quantities, an in-range price unless it is a market order. */
  predicate ValidOrder(o: Order) {
    && 0.0 <= o.remaining <= o.qty && 0.0 < o.qty
    && PriceOk(o.price)
    && (o.kind.Market? <==> o.price.None?)
  }

  predicate FreshOrder(o: Order) { ValidOrder(o) && o.remaining == o.qty }

  // ----- crossing -----

  /** Whether level `k` comes no later than level `j` for a taker on side `taker`. */
  predicate Ahead(taker: Side, k: nat, j: nat) {
    if taker.Buy? then k <= j else k >= j
  }

  predicate PriceOk(price: Option<real>) { price.Some? ==> InPriceRange(price.value) }

  /** Whether a taker may trade at level `k`: no price, or a key no worse than its own. */
  predicate Crosses(taker: Side, price: Option<real>, k: nat)
    requires PriceOk(price)
  {
    price.Some? ==> Ahead(taker, k, PriceKey(price.value))
  }

  lemma CrossingIsClosed(taker: Side, price: Option<real>, k: nat, j: nat)
    requires PriceOk(price) && Crosses(taker, price, j) && Ahead(taker, k, j)
    ensures Crosses(taker, price, k)
  {
  }

  /** A price at most half a tick worse than the limit. */
  predicate WithinLimit(taker: Side, limit: real, price: real) {
    if taker.Buy? then price <= limit + HALF_TICK else price >= limit - HALF_TICK
  }

  /** A trade at this price is within the order's limit, if it has one. */
  predicate Honours(o: Order, price: real) {
    o.price.Some? ==> WithinLimit(o.side, o.price.value, price)
  }

  lemma CrossingPrice(taker: Side, limit: real, k: nat)
    requires InPriceRange(limit) && Crosses(taker, Some(limit), k)
    ensures WithinLimit(taker, limit, KeyPrice(k))
  {
    KeyIsNearest(limit);
    var key := PriceKey(limit);
    assert KeyPrice(key) * PRICE_SCALE == key as real;
    assert KeyPrice(k) * PRICE_SCALE == k as real;
  }

  lemma CrossingIsHonoured(taker: Order, k: nat)
    requires ValidOrder(taker) && Crosses(taker.side, taker.price, k)
    ensures Honours(taker, KeyPrice(k))
  {
    if taker.price.Some? { CrossingPrice(taker.side, taker.price.value, k); }
  }
}
