/** The signed average-cost portfolio: what its accounting identity is worth over any run of fills. */
module Portfolios {
  import opened Orders

  function Abs(x: real): real { if x < 0.0 then -x else x }

  // ----- arithmetic of the reals -----

  lemma TimesKeepsOrder(k: real, x: real, y: real)
    requires k >= 0.0 && x <= y
    ensures k * x <= k * y
    ensures k > 0.0 && x < y ==> k * x < k * y
  {
  }

  lemma ProductBound(x: real, y: real, m: real, n: real)
    requires Abs(x) <= m && Abs(y) <= n
    ensures Abs(x * y) <= m * n
  {
    assert Abs(x * y) == Abs(x) * Abs(y);
    TimesKeepsOrder(Abs(y), Abs(x), m);
    TimesKeepsOrder(m, Abs(y), n);
  }

  lemma ProductOrder(w: real, q: real, x: real, y: real)
    requires w >= 0.0 && q > 0.0 && x < y
    ensures w * x + q * x < w * y + q * y
  {
    assert w * x <= w * y && q * x < q * y;
  }

  /** A weighted mean is not below both of its parts. */
  lemma MeanAbove(w: real, c: real, q: real, p: real, mean: real, lo: real)
    requires w >= 0.0 && q > 0.0 && w * mean + q * mean == w * c + q * p
    requires (w == 0.0 || lo <= c) && lo <= p
    ensures lo <= mean
  {
    assert w * lo <= w * c && q * lo <= q * p;
    if mean < lo { ProductOrder(w, q, mean, lo); }
  }

  lemma MeanBetween(w: real, c: real, q: real, p: real, mean: real, lo: real, hi: real)
    requires w >= 0.0 && q > 0.0 && (w + q) * mean == w * c + q * p
    requires (w == 0.0 || lo <= c <= hi) && lo <= p <= hi
    ensures lo <= mean <= hi
  {
    assert (w + q) * mean == w * mean + q * mean;
    MeanAbove(w, c, q, p, mean, lo);
    assert w * -mean + q * -mean == w * -c + q * -p;
    MeanAbove(w, -c, q, -p, -mean, -hi);
  }

  // ----- sums over maps -----

  ghost function Sum(m: map<string, real>): real
    decreases m.Keys
  {
    if m == map[] then 0.0
    else
      assert m.Keys != {};
      var k :| k in m;
      m[k] + Sum(m - {k})
  }

  lemma {:induction false} SumPick(m: map<string, real>, k: string)
    requires k in m
    ensures Sum(m) == m[k] + Sum(m - {k})
    decreases m.Keys
  {
    var j :| j in m && Sum(m) == m[j] + Sum(m - {j});
    if j != k {
      SumPick(m - {j}, k);
      assert m - {j} - {k} == m - {k} - {j};
      SumPick(m - {k}, j);
    }
  }

  function At(m: map<string, real>, k: string): real { if k in m then m[k] else 0.0 }

  lemma SumUpdate(m: map<string, real>, k: string, v: real)
    ensures Sum(m[k := v]) == Sum(m) - At(m, k) + v
  {
    var m2 := m[k := v];
    SumPick(m2, k);
    assert m2 - {k} == m - {k};
    if k in m { SumPick(m, k); } else { assert m - {k} == m; }
  }

  // ----- one fill, in signed form -----

  datatype Holding = Holding(pos: real, cost: real)
  {
    /** What the position cost to open. */
    function Value(): real { pos * cost }

    /** `unrealized_pnl` */
    function OpenProfit(price: real): real { (price - cost) * pos }

    function MarkedAt(price: real): real { pos * price }
  }

  datatype Applied = Applied(after: Holding, gain: real)

  /** Buying counts up, selling counts down. */
  function Signed(side: Side, x: real): real { if side.Buy? then x else -x }

  /** Whether trading on `side` opens or adds to the position. */
  predicate Adds(h: Holding, side: Side) { Signed(side, h.pos) >= 0.0 }

  function Blend(h: Holding, q: real, p: real): real
    requires q > 0.0
  {
    (Abs(h.pos) * h.cost + q * p) / (Abs(h.pos) + q)
  }

  function Closed(h: Holding, q: real): real { if q <= Abs(h.pos) then q else Abs(h.pos) }

  /** The profit of closing at `p` a unit of a position opposite to `side`. */
  function UnitGain(h: Holding, side: Side, p: real): real { Signed(side, h.cost - p) }

  /** The holding before a nearly flat position is snapped to flat. */
  function Traded(h: Holding, side: Side, q: real, p: real): Holding
    requires q > 0.0
  {
    if Adds(h, side) then Holding(h.pos + Signed(side, q), Blend(h, q, p))
    else
      var left := q - Closed(h, q);
      if QtyIsZero(left, q) then Holding(h.pos + Signed(side, Closed(h, q)), h.cost)
      else Holding(Signed(side, left), p)
  }

  function Snapped(h: Holding, q: real): Holding {
    if Abs(h.pos) <= q * QTY_REL_TOL then Holding(0.0, 0.0) else h
  }

  /** The cash a fill costs. */
  function Paid(side: Side, q: real, p: real): real { Signed(side, q * p) }

  /** A buy and a sell as one rule over a signed position: add at a blended cost, or close, realize and perhaps flip. */
  function ApplyTo(h: Holding, side: Side, q: real, p: real): Applied
    requires q > 0.0
  {
    Applied(Snapped(Traded(h, side, q, p), q), if Adds(h, side) then 0.0 else UnitGain(h, side, p) * Closed(h, q))
  }

  // ----- the account -----

  datatype Account = Account(cash: real, positions: map<string, real>, avgCost: map<string, real>, realized: real)
  {
    function Of(symbol: string): Holding { Holding(At(positions, symbol), At(avgCost, symbol)) }

    ghost predicate Ok() { positions.Keys == avgCost.Keys }

    /** What the open positions cost. */
    ghost function Exposure(): map<string, real>
      requires Ok()
    {
      map s | s in positions :: Of(s).Value()
    }

    /** Cash plus the cost of the open positions, less the profit taken: the identity that accounting should keep. */
    ghost function Identity(): real
      requires Ok()
    {
      cash + Sum(Exposure()) - realized
    }
  }

  function Settled(a: Account, symbol: string, r: Applied, paid: real): Account {
    Account(a.cash - paid, a.positions[symbol := r.after.pos], a.avgCost[symbol := r.after.cost], a.realized + r.gain)
  }

  function ApplyFill(a: Account, f: Fill): Account
    requires f.qty > 0.0
  {
    Settled(a, f.symbol, ApplyTo(a.Of(f.symbol), f.side, f.qty, f.price), Paid(f.side, f.qty, f.price))
  }

  /** Dust on a traded volume at a price. */
  function DustOn(volume: real, price: real): real { volume * QTY_REL_TOL * price }

  /** Equal up to the dust on a traded volume at a price. */
  ghost predicate Near(x: real, y: real, volume: real, price: real) {
    Abs(x - y) <= DustOn(volume, price)
  }

  lemma NearGrows(x: real, drift: real, y: real, volume: real, q: real, price: real)
    requires Near(x, y, volume, price) && Near(drift, 0.0, q, price)
    ensures Near(x - drift, y, volume + q, price)
  {
    assert (volume + q) * QTY_REL_TOL == volume * QTY_REL_TOL + q * QTY_REL_TOL;
  }

  /** The fill adds, closes the position to the last unit, or misses that by more than dust. */
  predicate NoDust(h: Holding, side: Side, q: real) {
    Adds(h, side) || Abs(h.pos) == q || Abs(Abs(h.pos) - q) > q * QTY_REL_TOL
  }

  /** The dust a fill meets: a remainder too small to open, or less than nothing for a position too small to keep. */
  function DustQty(h: Holding, side: Side, q: real): real { if NoDust(h, side, q) then 0.0 else q - Abs(h.pos) }

  /** What a unit of it is worth: the price of the fill, or the cost of the position. */
  function DustPrice(h: Holding, q: real, p: real): real { if q > Abs(h.pos) then p else h.cost }

  /** What one fill takes out of the identity, in terms of what it meets. */
  function Drift(h: Holding, side: Side, q: real, p: real): real {
    Signed(side, DustQty(h, side, q) * DustPrice(h, q, p))
  }

  /** Cost, cash and profit balance up to the drift. */
  ghost predicate Balanced(before: Holding, after: Holding, paid: real, gain: real, drift: real) {
    after.Value() - before.Value() - paid - gain == -drift
  }

  lemma BlendUndone(h: Holding, q: real, p: real)
    requires q > 0.0
    ensures (Abs(h.pos) + q) * Blend(h, q, p) == Abs(h.pos) * h.cost + q * p
  {
  }

  lemma BlendBalances(side: Side, m: real, c: real, q: real, p: real, mean: real)
    requires (m + q) * mean == m * c + q * p
    ensures Balanced(Holding(Signed(side, m), c), Holding(Signed(side, m) + Signed(side, q), mean),
            Signed(side, q * p), 0.0, 0.0)
  {
    assert (Signed(side, m) + Signed(side, q)) * mean == Signed(side, (m + q) * mean);
    assert Signed(side, m) * c == Signed(side, m * c);
  }

  lemma AddingBalances(h: Holding, side: Side, q: real, p: real)
    requires q > 0.0 && Adds(h, side)
    ensures Balanced(h, ApplyTo(h, side, q, p).after, Paid(side, q, p), ApplyTo(h, side, q, p).gain,
            Drift(h, side, q, p))
  {
    BlendUndone(h, q, p);
    BlendBalances(side, Abs(h.pos), h.cost, q, p, Blend(h, q, p));
    NoDustNoDrift(h, side, q, p);
  }

  // closing a position of size `m` and cost `c`, held against `side`

  lemma FlipBalances(side: Side, m: real, c: real, q: real, p: real)
    ensures Balanced(Holding(-Signed(side, m), c), Holding(Signed(side, q - m), p), Signed(side, q * p),
            Signed(side, c - p) * m, 0.0)
  {
    assert Signed(side, q - m) * p == Signed(side, q * p) - Signed(side, m * p);
    assert Signed(side, c - p) * m == Signed(side, m * c) - Signed(side, m * p);
    assert -Signed(side, m) * c == -Signed(side, m * c);
  }

  lemma PartBalances(side: Side, m: real, c: real, q: real, p: real)
    ensures Balanced(Holding(-Signed(side, m), c), Holding(-Signed(side, m) + Signed(side, q), c), Signed(side, q * p),
                     Signed(side, c - p) * q, 0.0)
  {
    assert (-Signed(side, m) + Signed(side, q)) * c == -Signed(side, m) * c + Signed(side, q * c);
    assert Signed(side, c - p) * q == Signed(side, q * c) - Signed(side, q * p);
  }

  /** The whole position is closed and the remainder `q - m` is not opened. */
  lemma RemainderBalances(side: Side, m: real, c: real, q: real, p: real)
    ensures Balanced(Holding(-Signed(side, m), c), Holding(0.0, 0.0), Signed(side, q * p), Signed(side, c - p) * m,
                     Signed(side, (q - m) * p))
  {
    assert (q - m) * p == q * p - m * p;
    assert Signed(side, c - p) * m == Signed(side, m * c) - Signed(side, m * p);
    assert -Signed(side, m) * c == -Signed(side, m * c);
  }

  /** All of `q` closes and the position `m - q` that is left is dropped. */
  lemma ResidueBalances(side: Side, m: real, c: real, q: real, p: real)
    ensures Balanced(Holding(-Signed(side, m), c), Holding(0.0, 0.0), Signed(side, q * p), Signed(side, c - p) * q,
                     Signed(side, (q - m) * c))
  {
    assert (q - m) * c == q * c - m * c;
    assert Signed(side, c - p) * q == Signed(side, q * c) - Signed(side, q * p);
    assert -Signed(side, m) * c == -Signed(side, m * c);
  }

  /** What closing leaves, in terms of what it met. */
  function ClosedTo(h: Holding, side: Side, q: real, p: real): Holding {
    var m := Abs(h.pos);
    if q - m > q * QTY_REL_TOL then Holding(Signed(side, q - m), p)
    else if m - q > q * QTY_REL_TOL then Holding(h.pos + Signed(side, q), h.cost)
    else Holding(0.0, 0.0)
  }

  lemma ClosingLeaves(h: Holding, side: Side, q: real, p: real)
    requires q > 0.0 && !Adds(h, side)
    ensures h == Holding(-Signed(side, Abs(h.pos)), h.cost)
    ensures ApplyTo(h, side, q, p).after == ClosedTo(h, side, q, p)
    ensures ApplyTo(h, side, q, p).gain == Signed(side, h.cost - p) * Closed(h, q)
  {
  }

  lemma CleanCloseBalances(h: Holding, side: Side, q: real, p: real)
    requires q > 0.0 && !Adds(h, side) && Abs(Abs(h.pos) - q) > q * QTY_REL_TOL
    ensures Balanced(h, ClosedTo(h, side, q, p), Paid(side, q, p), Signed(side, h.cost - p) * Closed(h, q), 0.0)
  {
    if q > Abs(h.pos) {
      FlipBalances(side, Abs(h.pos), h.cost, q, p);
    } else {
      PartBalances(side, Abs(h.pos), h.cost, q, p);
    }
  }

  lemma DustCloseBalances(h: Holding, side: Side, q: real, p: real)
    requires q > 0.0 && !Adds(h, side)
    ensures Balanced(h, Holding(0.0, 0.0), Paid(side, q, p), Signed(side, h.cost - p) * Closed(h, q),
                     Signed(side, (q - Abs(h.pos)) * DustPrice(h, q, p)))
  {
    MetIsOpposite(h, side);
    var met := Holding(-Signed(side, Abs(h.pos)), h.cost);
    if q > Abs(h.pos) {
      RemainderBalances(side, Abs(h.pos), h.cost, q, p);
      assert Balanced(met, Holding(0.0, 0.0), Paid(side, q, p), Signed(side, h.cost - p) * Abs(h.pos),
                      Signed(side, (q - Abs(h.pos)) * p));
    } else {
      ResidueBalances(side, Abs(h.pos), h.cost, q, p);
      assert Balanced(met, Holding(0.0, 0.0), Paid(side, q, p), Signed(side, h.cost - p) * q,
                      Signed(side, (q - Abs(h.pos)) * h.cost));
    }
  }

  lemma MetIsOpposite(h: Holding, side: Side)
    requires !Adds(h, side)
    ensures h == Holding(-Signed(side, Abs(h.pos)), h.cost)
  {
  }

  lemma NoDustNoDrift(h: Holding, side: Side, q: real, p: real)
    requires NoDust(h, side, q)
    ensures Drift(h, side, q, p) == 0.0
  {
  }

  lemma CloseDrift(h: Holding, side: Side, q: real, p: real)
    requires !Adds(h, side) && Abs(Abs(h.pos) - q) <= q * QTY_REL_TOL
    ensures Drift(h, side, q, p) == Signed(side, (q - Abs(h.pos)) * DustPrice(h, q, p))
  {
    assert DustQty(h, side, q) == q - Abs(h.pos);
  }

  lemma ClosingBalances(h: Holding, side: Side, q: real, p: real)
    requires q > 0.0 && !Adds(h, side)
    ensures Balanced(h, ClosedTo(h, side, q, p), Paid(side, q, p), Signed(side, h.cost - p) * Closed(h, q),
            Drift(h, side, q, p))
  {
    if Abs(Abs(h.pos) - q) > q * QTY_REL_TOL {
      CleanCloseBalances(h, side, q, p);
      NoDustNoDrift(h, side, q, p);
    } else {
      DustCloseBalances(h, side, q, p);
      CloseDrift(h, side, q, p);
    }
  }

  /** One fill moves value between cash, cost and profit, and loses exactly its drift. */
  lemma FillBalances(h: Holding, side: Side, q: real, p: real)
    requires q > 0.0
    ensures Balanced(h, ApplyTo(h, side, q, p).after, Paid(side, q, p), ApplyTo(h, side, q, p).gain,
            Drift(h, side, q, p))
  {
    if Adds(h, side) {
      AddingBalances(h, side, q, p);
    } else {
      ClosingBalances(h, side, q, p);
      ClosingLeaves(h, side, q, p);
    }
  }

  lemma DustProduct(x: real, y: real, q: real, pmax: real)
    requires q > 0.0 && Abs(x) <= q * QTY_REL_TOL && Abs(y) <= pmax
    ensures Near(x * y, 0.0, q, pmax) && Near(-(x * y), 0.0, q, pmax)
  {
    ProductBound(x, y, q * QTY_REL_TOL, pmax);
  }

  /** One fill loses at most a dust part of its quantity, at the larger of its price and the cost. */
  lemma DriftBound(h: Holding, side: Side, q: real, p: real, pmax: real)
    requires q > 0.0 && Abs(p) <= pmax && Abs(h.cost) <= pmax
    ensures Near(Drift(h, side, q, p), 0.0, q, pmax)
  {
    DustProduct(DustQty(h, side, q), DustPrice(h, q, p), q, pmax);
  }

  /** What the fill would lose as dust is worth nothing: bought or sold for free, or held at no cost. */
  predicate FreeDust(h: Holding, q: real, p: real) { DustPrice(h, q, p) == 0.0 }

  lemma ProductIsZeroIff(x: real, y: real)
    ensures x * y == 0.0 <==> x == 0.0 || y == 0.0
  {
  }

  /** A fill is exact if and only if it meets no dust, or dust that is worth nothing. */
  lemma ExactIff(h: Holding, side: Side, q: real, p: real)
    requires q > 0.0
    ensures Drift(h, side, q, p) == 0.0 <==> NoDust(h, side, q) || FreeDust(h, q, p)
  {
    ProductIsZeroIff(DustQty(h, side, q), DustPrice(h, q, p));
  }

  lemma ExposureUpdated(a: Account, b: Account, symbol: string, pos: real, cost: real)
    requires a.Ok() && b.positions == a.positions[symbol := pos] && b.avgCost == a.avgCost[symbol := cost]
    ensures b.Ok() && Sum(b.Exposure()) == Sum(a.Exposure()) - a.Of(symbol).Value() + Holding(pos, cost).Value()
  {
    var v := Holding(pos, cost).Value();
    forall s | s in b.positions && s != symbol
      ensures b.Of(s) == a.Of(s)
    {
    }
    assert b.Of(symbol) == Holding(pos, cost);
    assert b.Exposure() == a.Exposure()[symbol := v];
    SumUpdate(a.Exposure(), symbol, v);
  }

  ghost predicate Drifts(a: Account, b: Account, drift: real) {
    a.Ok() && b.Ok() && b.Identity() == a.Identity() - drift
  }

  lemma IdentityMoves(a: Account, symbol: string, r: Applied, paid: real, drift: real)
    requires a.Ok() && Balanced(a.Of(symbol), r.after, paid, r.gain, drift)
    ensures Drifts(a, Settled(a, symbol, r, paid), drift)
  {
    ExposureUpdated(a, Settled(a, symbol, r, paid), symbol, r.after.pos, r.after.cost);
  }

  /** One fill on the whole account. */
  lemma FillKeepsIdentity(a: Account, f: Fill)
    requires a.Ok() && f.qty > 0.0
    ensures Drifts(a, ApplyFill(a, f), Drift(a.Of(f.symbol), f.side, f.qty, f.price))
  {
    var h := a.Of(f.symbol);
    FillBalances(h, f.side, f.qty, f.price);
    IdentityMoves(a, f.symbol, ApplyTo(h, f.side, f.qty, f.price), Paid(f.side, f.qty, f.price),
        Drift(h, f.side, f.qty, f.price));
  }

  /** One fill leaves the identity where it was if and only if it meets no dust, or dust that is worth nothing. */
  lemma FillIsExactIff(a: Account, f: Fill)
    requires a.Ok() && f.qty > 0.0
    ensures ApplyFill(a, f).Ok()
    ensures ApplyFill(a, f).Identity() == a.Identity() <==> ExactAt(a, f)
  {
    FillKeepsIdentity(a, f);
    ExactIff(a.Of(f.symbol), f.side, f.qty, f.price);
  }

  predicate ExactAt(a: Account, f: Fill) {
    NoDust(a.Of(f.symbol), f.side, f.qty) || FreeDust(a.Of(f.symbol), f.qty, f.price)
  }

  /** With positive prices only the quantities decide. */
  lemma PositivePricesExactIff(h: Holding, side: Side, q: real, p: real)
    requires q > 0.0 && p > 0.0 && (h.pos != 0.0 ==> h.cost > 0.0)
    ensures Drift(h, side, q, p) == 0.0 <==> NoDust(h, side, q)
  {
    ExactIff(h, side, q, p);
  }

  // ----- cost -----

  /** Flat positions cost nothing; others cost something between the bounds. */
  predicate CostOk(h: Holding, lo: real, hi: real) {
    if h.pos == 0.0 then h.cost == 0.0 else lo <= h.cost <= hi
  }

  lemma BlendBetween(h: Holding, q: real, p: real, lo: real, hi: real)
    requires q > 0.0 && CostOk(h, lo, hi) && lo <= p <= hi
    ensures lo <= Blend(h, q, p) <= hi
  {
    BlendUndone(h, q, p);
    MeanBetween(Abs(h.pos), h.cost, q, p, Blend(h, q, p), lo, hi);
  }

  lemma FillKeepsCost(h: Holding, side: Side, q: real, p: real, lo: real, hi: real)
    requires q > 0.0 && CostOk(h, lo, hi) && lo <= p <= hi
    ensures CostOk(ApplyTo(h, side, q, p).after, lo, hi)
  {
    if Adds(h, side) { BlendBetween(h, q, p, lo, hi); }
  }

  // ----- runs -----

  function Opening(cash: real): Account { Account(cash, map[], map[], 0.0) }

  predicate AllPositive(fills: seq<Fill>) { forall i :: 0 <= i < |fills| ==> fills[i].qty > 0.0 }

  /** The account after any sequence of fills. */
  function Replay(cash: real, fills: seq<Fill>): Account
    requires AllPositive(fills)
  {
    if fills == [] then Opening(cash) else ApplyFill(Replay(cash, fills[..|fills| - 1]), fills[|fills| - 1])
  }

  lemma ReplayedOn(cash: real, fills: seq<Fill>, f: Fill)
    requires AllPositive(fills) && f.qty > 0.0
    ensures AllPositive(fills + [f]) && Replay(cash, fills + [f]) == ApplyFill(Replay(cash, fills), f)
  {
    assert (fills + [f])[..|fills|] == fills;
  }

  function Volume(fills: seq<Fill>): real {
    if fills == [] then 0.0 else Volume(fills[..|fills| - 1]) + fills[|fills| - 1].qty
  }

  /** Every fill of `symbol` is priced between the bounds. */
  ghost predicate PricedWithin(fills: seq<Fill>, symbol: string, lo: real, hi: real) {
    forall i :: 0 <= i < |fills| && fills[i].symbol == symbol ==> lo <= fills[i].price <= hi
  }

  /** An open position costs something between the lowest and the highest price it was traded at; a flat one costs 0. */
  lemma {:induction false} CostStaysInRange(cash: real, fills: seq<Fill>, symbol: string, lo: real, hi: real)
    requires AllPositive(fills) && PricedWithin(fills, symbol, lo, hi)
    ensures CostOk(Replay(cash, fills).Of(symbol), lo, hi)
  {
    if fills != [] {
      var n, f := |fills| - 1, fills[|fills| - 1];
      CostStaysInRange(cash, fills[..n], symbol, lo, hi);
      if f.symbol == symbol { FillKeepsCost(Replay(cash, fills[..n]).Of(symbol), f.side, f.qty, f.price, lo, hi); }
    }
  }

  /**
   Over any run of fills the identity stays at the opening cash, up to one part in 1e9 of the volume at the
   top price.
   */
  lemma {:induction false} IdentityIsKept(cash: real, fills: seq<Fill>, pmax: real)
    requires AllPositive(fills) && pmax >= 0.0 && forall i :: 0 <= i < |fills| ==> Abs(fills[i].price) <= pmax
    ensures Replay(cash, fills).Ok()
    ensures Near(Replay(cash, fills).Identity(), cash, Volume(fills), pmax)
  {
    if fills == [] {
      assert Opening(cash).Exposure() == map[];
    } else {
      var n, f := |fills| - 1, fills[|fills| - 1];
      var a := Replay(cash, fills[..n]);
      IdentityIsKept(cash, fills[..n], pmax);
      CostStaysInRange(cash, fills[..n], f.symbol, -pmax, pmax);
      FillKeepsIdentity(a, f);
      DriftBound(a.Of(f.symbol), f.side, f.qty, f.price, pmax);
      NearGrows(a.Identity(), Drift(a.Of(f.symbol), f.side, f.qty, f.price), cash, Volume(fills[..n]), f.qty, pmax);
    }
  }

  /** Fill `i` of the run was exact on the account it met. */
  ghost predicate FillExactAt(cash: real, fills: seq<Fill>, i: nat)
    requires AllPositive(fills) && i < |fills|
  {
    ExactAt(Replay(cash, fills[..i]), fills[i])
  }

  ghost predicate AllExact(cash: real, fills: seq<Fill>)
    requires AllPositive(fills)
  {
    forall i :: 0 <= i < |fills| ==> FillExactAt(cash, fills, i)
  }

  /** After each of the first `n` fills the identity is the opening cash. */
  ghost predicate AlwaysAtCash(cash: real, fills: seq<Fill>)
    requires AllPositive(fills)
  {
    forall n :: 0 <= n <= |fills| ==> AtCash(cash, fills[..n])
  }

  ghost predicate AtCash(cash: real, fills: seq<Fill>)
    requires AllPositive(fills)
  {
    Replay(cash, fills).Ok() && Replay(cash, fills).Identity() == cash
  }

  lemma {:induction false} ReplayIsOk(cash: real, fills: seq<Fill>)
    requires AllPositive(fills)
    ensures Replay(cash, fills).Ok()
  {
    if fills != [] {
      ReplayIsOk(cash, fills[..|fills| - 1]);
      FillKeepsIdentity(Replay(cash, fills[..|fills| - 1]), fills[|fills| - 1]);
    }
  }

  lemma OpeningIsAtCash(cash: real)
    ensures AtCash(cash, [])
  {
    assert Opening(cash).Exposure() == map[];
  }

  lemma ExactStep(cash: real, fills: seq<Fill>, i: nat)
    requires AllPositive(fills) && i < |fills| && AtCash(cash, fills[..i])
    ensures AtCash(cash, fills[..i + 1]) <==> FillExactAt(cash, fills, i)
  {
    assert fills[..i + 1] == fills[..i] + [fills[i]];
    ReplayedOn(cash, fills[..i], fills[i]);
    FillIsExactIff(Replay(cash, fills[..i]), fills[i]);
  }

  lemma {:induction false} ExactUpTo(cash: real, fills: seq<Fill>, n: nat)
    requires AllPositive(fills) && AllExact(cash, fills) && n <= |fills|
    ensures AtCash(cash, fills[..n])
  {
    if n == 0 {
      OpeningIsAtCash(cash);
    } else {
      ExactUpTo(cash, fills, n - 1);
      assert FillExactAt(cash, fills, n - 1);
      ExactStep(cash, fills, n - 1);
    }
  }

  /** Throughout a run the identity is the opening cash if and only if every fill of the run was exact. */
  lemma IdentityIsExactIff(cash: real, fills: seq<Fill>)
    requires AllPositive(fills)
    ensures AlwaysAtCash(cash, fills) <==> AllExact(cash, fills)
  {
    if AllExact(cash, fills) {
      forall n | 0 <= n <= |fills| ensures AtCash(cash, fills[..n]) { ExactUpTo(cash, fills, n); }
    }
    if AlwaysAtCash(cash, fills) {
      forall i | 0 <= i < |fills|
        ensures FillExactAt(cash, fills, i)
      {
        assert AtCash(cash, fills[..i]) && AtCash(cash, fills[..i + 1]);
        ExactStep(cash, fills, i);
      }
    }
  }

  /**
   Exactness does fail on dust: sell 1 at 100, buy back 1.0000000001 at 90, and 1e-10 at 90 is paid for and
   never opened.
   */
  lemma DustIsLost(cash: real, symbol: string)
    ensures var fills := [Fill(1, symbol, Sell, 100.0, 1.0, 0), Fill(2, symbol, Buy, 90.0, 1.0000000001, 1)];
            Replay(cash, fills).Ok() && Replay(cash, fills).Identity() == cash - 0.000000009
  {
    var sell, buy := Fill(1, symbol, Sell, 100.0, 1.0, 0), Fill(2, symbol, Buy, 90.0, 1.0000000001, 1);
    ReplayedOn(cash, [], sell);
    assert [] + [sell] == [sell] && [sell] + [buy] == [sell, buy];
    ReplayedOn(cash, [sell], buy);
    ShortOpened(cash, sell);
    var a := Replay(cash, [sell]);
    FillKeepsIdentity(a, buy);
    assert Drift(a.Of(symbol), Buy, 1.0000000001, 90.0) == 0.000000009;
  }

  lemma ShortOpened(cash: real, sell: Fill)
    requires sell.side.Sell? && sell.qty == 1.0 && sell.price == 100.0
    ensures var a := ApplyFill(Opening(cash), sell);
            a.Ok() && a.Of(sell.symbol) == Holding(-1.0, 100.0) && a.Identity() == cash
  {
    var h := Holding(0.0, 0.0);
    assert Traded(h, Sell, 1.0, 100.0) == Holding(-1.0, 100.0);
    OpeningIsAtCash(cash);
    FillKeepsIdentity(Opening(cash), sell);
    assert NoDust(h, Sell, 1.0);
  }

  // ----- what a fill means -----

  /** Adding takes no profit, moves the position by the quantity, and averages the cost by quantity. */
  lemma AddingMeans(h: Holding, side: Side, q: real, p: real)
    requires q > 0.0 && Adds(h, side)
    ensures var r := ApplyTo(h, side, q, p);
            && r.gain == 0.0 && r.after.pos == h.pos + Signed(side, q) && Abs(r.after.pos) == Abs(h.pos) + q
            && (Abs(h.pos) + q) * r.after.cost == Abs(h.pos) * h.cost + q * p
  {
    AddedIsNotDust(h, side, q);
    BlendUndone(h, q, p);
  }

  lemma AddedIsNotDust(h: Holding, side: Side, q: real)
    requires q > 0.0 && Adds(h, side)
    ensures Abs(h.pos + Signed(side, q)) == Abs(h.pos) + q && Abs(h.pos) + q > q * QTY_REL_TOL
  {
  }

  /**
   Reducing takes the profit of the part closed, entry against exit, and no other; what stays open stays at its
   cost, what is opened beyond is at the fill's price, and a position within dust of flat becomes flat.
   */
  lemma ReducingMeans(h: Holding, side: Side, q: real, p: real)
    requires q > 0.0 && !Adds(h, side)
    ensures var r := ApplyTo(h, side, q, p); var closed := if q <= Abs(h.pos) then q else Abs(h.pos);
            && r.gain == (if side.Buy? then (h.cost - p) * closed else (p - h.cost) * closed)
            && (Abs(Abs(h.pos) - q) <= q * QTY_REL_TOL ==> r.after == Holding(0.0, 0.0))
            && (Abs(h.pos) - q > q * QTY_REL_TOL ==> r.after == Holding(h.pos + Signed(side, q), h.cost))
            && (q - Abs(h.pos) > q * QTY_REL_TOL ==> r.after == Holding(h.pos + Signed(side, q), p))
  {
    ClosingLeaves(h, side, q, p);
    assert Signed(side, h.cost - p) * Closed(h, q) == Signed(side, (h.cost - p) * Closed(h, q));
  }

  /** A fill moves cash by its notional and profit by its gain, and touches no other symbol. */
  lemma FillTouchesOneSymbol(a: Account, f: Fill, other: string)
    requires f.qty > 0.0
    ensures var b := ApplyFill(a, f);
            && b.cash == (if f.side.Buy? then a.cash - f.qty * f.price else a.cash + f.qty * f.price)
            && b.realized == a.realized + ApplyTo(a.Of(f.symbol), f.side, f.qty, f.price).gain
            && b.Of(f.symbol) == ApplyTo(a.Of(f.symbol), f.side, f.qty, f.price).after
            && (other != f.symbol ==> b.Of(other) == a.Of(other))
            && b.positions.Keys == a.positions.Keys + {f.symbol}
  {
  }

  /** The quantity and the notional of the fills of one symbol. */
  function QtyOf(fills: seq<Fill>, symbol: string): real {
    if fills == [] then 0.0
    else
      var f := fills[|fills| - 1];
      QtyOf(fills[..|fills| - 1], symbol) + if f.symbol == symbol then f.qty else 0.0
  }

  function NotionalOf(fills: seq<Fill>, symbol: string): real {
    if fills == [] then 0.0
    else
      var f := fills[|fills| - 1];
      NotionalOf(fills[..|fills| - 1], symbol) + if f.symbol == symbol then f.qty * f.price else 0.0
  }

  ghost predicate OneSided(fills: seq<Fill>, symbol: string, side: Side) {
    forall i :: 0 <= i < |fills| && fills[i].symbol == symbol ==> fills[i].side == side
  }

  /** The position is what was traded, and costs what was paid for it. */
  ghost predicate HoldsAllTraded(h: Holding, side: Side, qty: real, notional: real) {
    qty >= 0.0 && h.pos == Signed(side, qty) && qty * h.cost == notional
  }

  lemma AddingHoldsAll(h: Holding, side: Side, qty: real, notional: real, q: real, p: real)
    requires q > 0.0 && HoldsAllTraded(h, side, qty, notional)
    ensures HoldsAllTraded(ApplyTo(h, side, q, p).after, side, qty + q, notional + q * p)
    ensures ApplyTo(h, side, q, p).gain == 0.0
  {
    AddingMeans(h, side, q, p);
  }

  lemma OneSidedStep(a: Account, f: Fill, qty: real, notional: real)
    requires f.qty > 0.0 && HoldsAllTraded(a.Of(f.symbol), f.side, qty, notional)
    ensures HoldsAllTraded(ApplyFill(a, f).Of(f.symbol), f.side, qty + f.qty, notional + f.qty * f.price)
    ensures ApplyFill(a, f).realized == a.realized
  {
    FillTouchesOneSymbol(a, f, f.symbol);
    AddingHoldsAll(a.Of(f.symbol), f.side, qty, notional, f.qty, f.price);
  }

  lemma SumsGrow(fills: seq<Fill>, f: Fill, symbol: string)
    ensures QtyOf(fills + [f], symbol) == QtyOf(fills, symbol) + if f.symbol == symbol then f.qty else 0.0
    ensures NotionalOf(fills + [f], symbol) ==
              NotionalOf(fills, symbol) + if f.symbol == symbol then f.qty * f.price else 0.0
  {
    assert (fills + [f])[..|fills|] == fills;
  }

  /** The account after a run holds what the fills of one symbol on one side amount to. */
  ghost predicate HoldsRun(cash: real, fills: seq<Fill>, symbol: string, side: Side)
    requires AllPositive(fills)
  {
    HoldsAllTraded(Replay(cash, fills).Of(symbol), side, QtyOf(fills, symbol), NotionalOf(fills, symbol))
  }

  lemma HoldsOneMore(cash: real, fills: seq<Fill>, f: Fill, symbol: string, side: Side)
    requires AllPositive(fills) && f.qty > 0.0 && HoldsRun(cash, fills, symbol, side)
    requires f.symbol == symbol ==> f.side == side
    ensures AllPositive(fills + [f]) && HoldsRun(cash, fills + [f], symbol, side)
    ensures f.symbol == symbol ==> Replay(cash, fills + [f]).realized == Replay(cash, fills).realized
  {
    ReplayedOn(cash, fills, f);
    SumsGrow(fills, f, symbol);
    if f.symbol == symbol {
      OneSidedStep(Replay(cash, fills), f, QtyOf(fills, symbol), NotionalOf(fills, symbol));
    } else {
      FillTouchesOneSymbol(Replay(cash, fills), f, symbol);
    }
  }

  /**
   While every fill of a symbol is on one side, whatever happens to other symbols: its position is all that was
   traded, its average cost times that is all that was paid, and no fill of it has taken any profit.
   */
  lemma {:induction false} OneSidedRun(cash: real, fills: seq<Fill>, symbol: string, side: Side)
    requires AllPositive(fills) && OneSided(fills, symbol, side)
    ensures HoldsRun(cash, fills, symbol, side)
    ensures forall i :: 0 <= i < |fills| && fills[i].symbol == symbol ==> TookNoProfit(cash, fills, i)
  {
    if fills != [] {
      var n, before := |fills| - 1, fills[..|fills| - 1];
      OneSidedRun(cash, before, symbol, side);
      assert before + [fills[n]] == fills;
      HoldsOneMore(cash, before, fills[n], symbol, side);
      forall i | 0 <= i < |fills| && fills[i].symbol == symbol
        ensures TookNoProfit(cash, fills, i)
      {
        if i < n {
          assert before[..i] == fills[..i] && before[..i + 1] == fills[..i + 1];
          assert TookNoProfit(cash, before, i);
        } else {
          assert fills[..i + 1] == fills;
        }
      }
    }
  }

  /** Fill `i` of the run left the realized profit alone. */
  ghost predicate TookNoProfit(cash: real, fills: seq<Fill>, i: nat)
    requires AllPositive(fills) && i < |fills|
  {
    Replay(cash, fills[..i + 1]).realized == Replay(cash, fills[..i]).realized
  }

  lemma ClosingAll(h: Holding, side: Side, q: real, notional: real, p: real)
    requires q > 0.0 && HoldsAllTraded(h, side, q, notional)
    ensures ApplyTo(h, side.Opposite(), q, p) == Applied(Holding(0.0, 0.0), Signed(side, q * p - notional))
  {
    ReducingMeans(h, side.Opposite(), q, p);
    assert (h.cost - p) * q == notional - q * p && (p - h.cost) * q == q * p - notional;
  }

  /** A round trip: what one side opened and one fill of the same quantity closes has realized exit less entry. */
  lemma RoundTrip(cash: real, fills: seq<Fill>, side: Side, f: Fill)
    requires AllPositive(fills) && OneSided(fills, f.symbol, side) && f.side == side.Opposite()
    requires f.qty > 0.0 && f.qty == QtyOf(fills, f.symbol)
    ensures var a, b := Replay(cash, fills), ApplyFill(Replay(cash, fills), f);
            && b.Of(f.symbol) == Holding(0.0, 0.0)
            && b.realized - a.realized == Signed(side, f.qty * f.price - NotionalOf(fills, f.symbol))
  {
    OneSidedRun(cash, fills, f.symbol, side);
    ClosingOnAccount(Replay(cash, fills), f, side, NotionalOf(fills, f.symbol));
  }

  lemma ClosingOnAccount(a: Account, f: Fill, side: Side, notional: real)
    requires f.qty > 0.0 && f.side == side.Opposite() && HoldsAllTraded(a.Of(f.symbol), side, f.qty, notional)
    ensures ApplyFill(a, f).Of(f.symbol) == Holding(0.0, 0.0)
    ensures ApplyFill(a, f).realized - a.realized == Signed(side, f.qty * f.price - notional)
  {
    FillTouchesOneSymbol(a, f, f.symbol);
    ClosingAll(a.Of(f.symbol), side, f.qty, notional, f.price);
  }

  // ----- marking to market -----

  ghost function Unrealized(a: Account, prices: map<string, real>): map<string, real> {
    map s | s in prices :: a.Of(s).OpenProfit(prices[s])
  }

  ghost function Marked(a: Account, prices: map<string, real>): map<string, real> {
    map s | s in prices :: a.Of(s).MarkedAt(prices[s])
  }

  /** `total_pnl`: profit taken plus the open profit of the symbols that have a price. */
  ghost function TotalPnl(a: Account, prices: map<string, real>): real {
    a.realized + Sum(Unrealized(a, prices))
  }

  ghost function Equity(a: Account, prices: map<string, real>): real { a.cash + Sum(Marked(a, prices)) }

  /** The fill that closes a position at a price. */
  function ClosingFill(a: Account, symbol: string, price: real): Fill {
    var pos := a.Of(symbol).pos;
    Fill(0, symbol, if pos > 0.0 then Sell else Buy, price, Abs(pos), 0)
  }

  /** Closing a position at the mark realizes its open profit and brings in what it was marked at. */
  lemma ClosingRealizes(a: Account, symbol: string, price: real)
    requires a.Of(symbol).pos != 0.0
    ensures var h, b := a.Of(symbol), ApplyFill(a, ClosingFill(a, symbol, price));
            && b.Of(symbol) == Holding(0.0, 0.0) && b.cash == a.cash + h.MarkedAt(price)
            && b.realized == a.realized + h.OpenProfit(price)
  {
    var h, f := a.Of(symbol), ClosingFill(a, symbol, price);
    FillTouchesOneSymbol(a, f, symbol);
    ReducingMeans(h, f.side, f.qty, price);
    assert f.qty * price == if h.pos > 0.0 then h.pos * price else -(h.pos * price);
    assert (h.cost - price) * -h.pos == (price - h.cost) * h.pos;
  }

  /** So neither total profit nor equity depends on whether positions are closed at their marks. */
  lemma ClosingKeepsTotals(a: Account, symbol: string, prices: map<string, real>)
    requires symbol in prices && a.Of(symbol).pos != 0.0
    ensures var b := ApplyFill(a, ClosingFill(a, symbol, prices[symbol]));
            TotalPnl(b, prices) == TotalPnl(a, prices) && Equity(b, prices) == Equity(a, prices)
  {
    var f := ClosingFill(a, symbol, prices[symbol]);
    var b := ApplyFill(a, f);
    ClosingRealizes(a, symbol, prices[symbol]);
    forall s | s in prices && s != symbol
      ensures b.Of(s) == a.Of(s)
    {
      FillTouchesOneSymbol(a, f, s);
    }
    SumsDifferAt(Unrealized(a, prices), Unrealized(b, prices), symbol);
    SumsDifferAt(Marked(a, prices), Marked(b, prices), symbol);
  }

  lemma SumsDifferAt(x: map<string, real>, y: map<string, real>, k: string)
    requires k in x && x.Keys == y.Keys && forall s :: s in x && s != k ==> x[s] == y[s]
    ensures Sum(x) - x[k] == Sum(y) - y[k]
  {
    SumPick(x, k);
    SumPick(y, k);
    assert x - {k} == y - {k};
  }

  lemma {:induction false} SumsSplit(x: map<string, real>, y: map<string, real>, z: map<string, real>)
    requires x.Keys == y.Keys == z.Keys && forall s :: s in x ==> x[s] == y[s] + z[s]
    ensures Sum(x) == Sum(y) + Sum(z)
    decreases x.Keys
  {
    if x == map[] {
      assert y == map[] && z == map[];
    } else {
      assert x.Keys != {};
      var k :| k in x;
      SumPick(x, k);
      SumPick(y, k);
      SumPick(z, k);
      SumsSplit(x - {k}, y - {k}, z - {k});
    }
  }

  lemma {:induction false} SumOfPart(part: map<string, real>, whole: map<string, real>)
    requires forall s :: s in part ==> part[s] == At(whole, s)
    requires forall s :: s in whole && s !in part ==> whole[s] == 0.0
    ensures Sum(part) == Sum(whole)
    decreases part.Keys + whole.Keys
  {
    if whole == map[] && part == map[] {
    } else {
      assert part.Keys + whole.Keys != {};
      var k :| k in part.Keys + whole.Keys;
      assert k !in (part - {k}).Keys + (whole - {k}).Keys;
      SumOfPart(part - {k}, whole - {k});
      if k in part { SumPick(part, k); } else { assert part - {k} == part; }
      if k in whole { SumPick(whole, k); } else { assert whole - {k} == whole; }
    }
  }

  lemma MarkSplits(h: Holding, price: real)
    ensures h.MarkedAt(price) == h.OpenProfit(price) + h.Value()
  {
    assert (price - h.cost) * h.pos == h.pos * price - h.pos * h.cost;
  }

  lemma FlatIsFree(h: Holding)
    ensures h.pos == 0.0 ==> h.Value() == 0.0
  {
  }

  /** When every open position has a price, equity is total profit on top of the accounting identity. */
  lemma EquityIsProfit(a: Account, prices: map<string, real>)
    requires a.Ok() && forall s :: s in a.positions && a.positions[s] != 0.0 ==> s in prices
    ensures Equity(a, prices) == TotalPnl(a, prices) + a.Identity()
  {
    var costs := map s | s in prices :: a.Of(s).Value();
    forall s | s in prices
      ensures Marked(a, prices)[s] == Unrealized(a, prices)[s] + costs[s]
    {
      MarkSplits(a.Of(s), prices[s]);
    }
    forall s | s in a.Exposure() && s !in prices ensures a.Exposure()[s] == 0.0 { FlatIsFree(a.Of(s)); }
    forall s | s in prices ensures costs[s] == At(a.Exposure(), s) { FlatIsFree(a.Of(s)); }
    SumsSplit(Marked(a, prices), Unrealized(a, prices), costs);
    SumOfPart(costs, a.Exposure());
  }

  lemma EquityNear(a: Account, prices: map<string, real>, cash: real, volume: real, pmax: real)
    requires a.Ok() && forall s :: s in a.positions && a.positions[s] != 0.0 ==> s in prices
    requires Near(a.Identity(), cash, volume, pmax)
    ensures Near(Equity(a, prices), cash + TotalPnl(a, prices), volume, pmax)
  {
    EquityIsProfit(a, prices);
  }

  /** Over any run, equity is the opening cash plus total profit, up to dust. */
  lemma EquityOverRuns(cash: real, fills: seq<Fill>, pmax: real, prices: map<string, real>)
    requires AllPositive(fills) && pmax >= 0.0 && forall i :: 0 <= i < |fills| ==> Abs(fills[i].price) <= pmax
    requires forall s :: s in Replay(cash, fills).positions && Replay(cash, fills).positions[s] != 0.0 ==> s in prices
    ensures Near(Equity(Replay(cash, fills), prices), cash + TotalPnl(Replay(cash, fills), prices), Volume(fills), pmax)
  {
    IdentityIsKept(cash, fills, pmax);
    EquityNear(Replay(cash, fills), prices, cash, Volume(fills), pmax);
  }

  // ----- the portfolio -----

  lemma LongBlend(pos: real, cost: real, q: real, p: real)
    requires pos >= 0.0 && q > 0.0
    ensures (pos * cost + q * p) / (pos + q) == Blend(Holding(pos, cost), q, p)
  {
    assert Abs(pos) == pos;
  }

  lemma ShortBlend(pos: real, cost: real, q: real, p: real)
    requires pos <= 0.0 && q > 0.0
    ensures (-pos * cost + q * p) / (-pos + q) == Blend(Holding(pos, cost), q, p)
  {
    assert Abs(pos) == -pos;
  }

  /** The buy branch of `apply`. */
  method BuyInto(pos0: real, cost0: real, q: real, p: real) returns (pos: real, cost: real, realized: real)
    requires q > 0.0
    ensures Holding(pos, cost) == Traded(Holding(pos0, cost0), Buy, q, p)
    ensures realized == ApplyTo(Holding(pos0, cost0), Buy, q, p).gain
  {
    pos, cost, realized := pos0, cost0, 0.0;
    if pos >= 0.0 {
      LongBlend(pos, cost, q, p);
      cost := (pos * cost + q * p) / (pos + q);
      pos := pos + q;
    } else {
      var covered := if q <= -pos then q else -pos;
      realized := (cost - p) * covered;
      pos := pos + covered;
      var leftover := q - covered;
      if !QtyIsZero(leftover, q) { pos, cost := leftover, p; }
    }
  }

  /** The sell branch of `apply`. */
  method SellFrom(pos0: real, cost0: real, q: real, p: real) returns (pos: real, cost: real, realized: real)
    requires q > 0.0
    ensures Holding(pos, cost) == Traded(Holding(pos0, cost0), Sell, q, p)
    ensures realized == ApplyTo(Holding(pos0, cost0), Sell, q, p).gain
  {
    pos, cost, realized := pos0, cost0, 0.0;
    if pos <= 0.0 {
      ShortBlend(pos, cost, q, p);
      cost := (-pos * cost + q * p) / (-pos + q);
      pos := pos - q;
    } else {
      var closed := if q <= pos then q else pos;
      realized := (p - cost) * closed;
      pos := pos - closed;
      var leftover := q - closed;
      if !QtyIsZero(leftover, q) { pos, cost := -leftover, p; }
    }
  }

  /** One fill against one holding: trade, then snap a nearly flat position to flat. */
  method Settle(h: Holding, side: Side, q: real, p: real) returns (after: Holding, paid: real, realized: real)
    requires q > 0.0
    ensures Applied(after, realized) == ApplyTo(h, side, q, p) && paid == Paid(side, q, p)
  {
    var pos, cost;
    if side.Buy? {
      pos, cost, realized := BuyInto(h.pos, h.cost, q, p);
      paid := q * p;
    } else {
      pos, cost, realized := SellFrom(h.pos, h.cost, q, p);
      paid := -(q * p);
    }
    if Abs(pos) <= q * QTY_REL_TOL { pos, cost := 0.0, 0.0; }
    after := Holding(pos, cost);
  }

  class Portfolio {
    var cash: real
    var positions: map<string, real>
    var avgCost: map<string, real>
    var trades: seq<Fill>
    var realizedPnl: real
    ghost const initialCash: real

    ghost function State(): Account
      reads this
    {
      Account(cash, positions, avgCost, realizedPnl)
    }

    /** The trade log replays to the state. */
    ghost predicate Valid()
      reads this
    {
      AllPositive(trades) && State() == Replay(initialCash, trades)
    }

    constructor (initialCash: real)
      ensures Valid() && cash == initialCash && this.initialCash == initialCash && trades == []
    {
      cash, positions, avgCost, trades, realizedPnl := initialCash, map[], map[], [], 0.0;
      this.initialCash := initialCash;
    }

    method Apply(f: Fill)
      requires Valid() && f.qty > 0.0
      modifies this
      ensures Valid() && trades == old(trades) + [f] && State() == ApplyFill(old(State()), f)
    {
      var after, paid, realized := Settle(Holding(At(positions, f.symbol), At(avgCost, f.symbol)), f.side, f.qty,
          f.price);
      positions, avgCost := positions[f.symbol := after.pos], avgCost[f.symbol := after.cost];
      cash, realizedPnl := cash - paid, realizedPnl + realized;
      ReplayedOn(initialCash, trades, f);
      trades := trades + [f];
    }

    /** `total_pnl`, whatever the order in which the prices are visited. */
    method TotalProfit(prices: map<string, real>) returns (r: real)
      ensures r == TotalPnl(State(), prices)
    {
      var left := prices.Keys;
      var open := 0.0;
      ghost var profits := Unrealized(State(), prices);
      assert profits - (prices.Keys - left) == profits;
      while left != {}
        invariant left <= prices.Keys && open + Sum(profits - (prices.Keys - left)) == Sum(profits)
      {
        var symbol :| symbol in left;
        var rest := profits - (prices.Keys - left);
        SumPick(rest, symbol);
        assert rest - {symbol} == profits - (prices.Keys - (left - {symbol}));
        open := open + Holding(At(positions, symbol), At(avgCost, symbol)).OpenProfit(prices[symbol]);
        left := left - {symbol};
      }
      r := realizedPnl + open;
    }
  }
}
