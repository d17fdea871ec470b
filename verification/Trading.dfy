/** The book and the portfolio together: what a trader's account is worth after any run of submissions. */
module Trading {
  import opened Orders
  import opened FlatBook
  import opened BookRuns
  import opened Portfolios

  /** The fills of the orders under `id`, in the order the book reported them. */
  function FillsOf(events: seq<TradeEvent>, id: nat): seq<Fill> {
    if events == [] then []
    else
      var last := events[|events| - 1];
      FillsOf(events[..|events| - 1], id) + if last.Filled? && last.fill.orderId == id then [last.fill] else []
  }

  lemma {:induction false} FillsAreAccountable(events: seq<TradeEvent>, id: nat)
    requires AllSound(events)
    ensures AllPositive(FillsOf(events, id))
  {
    if events != [] {
      FillsAreAccountable(events[..|events| - 1], id);
      assert Sound(events[|events| - 1]);
    }
  }

  lemma {:induction false} VolumeIsFillSum(events: seq<TradeEvent>, id: nat)
    ensures Volume(FillsOf(events, id)) == FillSum(events, id)
  {
    if events != [] {
      var n, last, before := |events| - 1, events[|events| - 1], FillsOf(events[..|events| - 1], id);
      VolumeIsFillSum(events[..n], id);
      assert events == events[..n] + [last] && [last][1..] == [];
      SumsAppend(events[..n], [last], id);
      if last.Filled? && last.fill.orderId == id {
        assert FillsOf(events, id) == before + [last.fill] && (before + [last.fill])[..|before|] == before;
      } else {
        assert before + [] == before;
      }
    }
  }

  lemma {:induction false} GivenUpIsPositive(rs: seq<Request>, id: nat)
    ensures GivenUp(rs, id) >= 0.0
  {
    if rs != [] {
      var r, before := rs[|rs| - 1], rs[..|rs| - 1];
      GivenUpIsPositive(before, id);
      if Validate(r).Ok? { CancelsAreTold(Play(before).book, Validate(r).value, r.ts); }
    }
  }

  /** Nobody trades more than they asked for. */
  lemma TradedAtMostAsked(rs: seq<Request>, id: nat)
    ensures FillSum(Play(rs).events, id) <= Asked(rs, id)
  {
    QuantityIsConserved(rs, id);
    OriginalIsPositive(Buy, Play(rs).book.bids, id);
    OriginalIsPositive(Sell, Play(rs).book.asks, id);
    GivenUpIsPositive(rs, id);
  }

  lemma NearWidens(x: real, y: real, v: real, w: real, price: real)
    requires Near(x, y, v, price) && v <= w && price >= 0.0
    ensures Near(x, y, w, price)
  {
    TimesKeepsOrder(price, v * QTY_REL_TOL, w * QTY_REL_TOL);
  }

  /** Every fill of the orders under `id` is priced at most `pmax`. */
  ghost predicate PricedUpTo(events: seq<TradeEvent>, id: nat, pmax: real) {
    forall i :: 0 <= i < |FillsOf(events, id)| ==> Abs(FillsOf(events, id)[i].price) <= pmax
  }

  /**
   A portfolio fed with everything the book reported for one trader keeps cash plus cost less
   profit at the opening cash, up to one part in 1e9 of the quantity asked for at the highest price traded.
   */
  lemma TraderKeepsIdentity(rs: seq<Request>, id: nat, cash: real, pmax: real)
    requires pmax >= 0.0 && PricedUpTo(Play(rs).events, id, pmax)
    ensures AllPositive(FillsOf(Play(rs).events, id)) && Replay(cash, FillsOf(Play(rs).events, id)).Ok()
    ensures Near(Replay(cash, FillsOf(Play(rs).events, id)).Identity(), cash, Asked(rs, id), pmax)
  {
    var fills := FillsOf(Play(rs).events, id);
    RunsAreSound(rs);
    FillsAreAccountable(Play(rs).events, id);
    IdentityIsKept(cash, fills, pmax);
    VolumeIsFillSum(Play(rs).events, id);
    TradedAtMostAsked(rs, id);
    NearWidens(Replay(cash, fills).Identity(), cash, Volume(fills), Asked(rs, id), pmax);
  }
}
