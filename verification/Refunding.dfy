/** What cancelling a market costs in refunds, read off the tables before the call. */
module Refunding {
  import opened Domain
  import opened Ledger
  import opened Exchange
  import opened Sums
  import opened Funds
  import opened Agreement
  import opened Cancellation
  import opened MarketCancellation
  import opened Payments

  /** What one position of the market is worth at its average price. */
  function PositionWeight(p: Position, market: MarketId): real {
    if p.market == market then RefundOf(p) else 0.0
  }

  function Worth(quantity: real, average: real): real { quantity * average }

  /** What an order's shares are worth at the average price of the position they return to. */
  function ReturnValue(positions: map<Holding, Position>, r: Row): real {
    var h := Holding(r.user, r.outcome);
    if h in positions then Worth(r.Remaining(), positions[h].avgPrice) else 0.0
  }

  /** What a live sell of the market will be worth once its shares are back. */
  function SellWeight(positions: map<Holding, Position>, r: Row, market: MarketId): real {
    if r.Live() && r.side.Sell? && r.market == market then ReturnValue(positions, r) else 0.0
  }

  ghost function PositionValue(positions: map<Holding, Position>, market: MarketId): real {
    Sum(map h | h in positions :: PositionWeight(positions[h], market))
  }

  ghost function SellValue(positions: map<Holding, Position>, orders: map<OrderId, Row>, market: MarketId): real {
    Sum(map id | id in orders :: SellWeight(positions, orders[id], market))
  }

  /** All positions of a market and all its live sells, at the holders' average prices. */
  ghost function RefundsOwed(l: Ledger, market: MarketId): real {
    PositionValue(l.positions, market) + SellValue(l.positions, l.orders, market)
  }

  // ---- one order returned ----

  lemma PositionValueUpdate(positions: map<Holding, Position>, h: Holding, p: Position, market: MarketId)
    ensures PositionValue(positions[h := p], market)
         == PositionValue(positions, market)
            - (if h in positions then PositionWeight(positions[h], market) else 0.0) + PositionWeight(p, market)
  {
    var w := map k | k in positions :: PositionWeight(positions[k], market);
    SumUpdate(w, h, PositionWeight(p, market));
    var after := positions[h := p];
    assert (map k | k in after :: PositionWeight(after[k], market)) == w[h := PositionWeight(p, market)];
  }

  lemma SellValueUpdate(positions: map<Holding, Position>, orders: map<OrderId, Row>, r: Row, market: MarketId)
    requires r.id in orders
    ensures SellValue(positions, orders[r.id := r], market)
         == SellValue(positions, orders, market) - SellWeight(positions, orders[r.id], market)
            + SellWeight(positions, r, market)
  {
    var w := map i | i in orders :: SellWeight(positions, orders[i], market);
    SumUpdate(w, r.id, SellWeight(positions, r, market));
    var after := orders[r.id := r];
    assert (map i | i in after :: SellWeight(positions, after[i], market))
        == w[r.id := SellWeight(positions, r, market)];
  }

  /** Sells are valued at average prices only, whatever the quantities held. */
  lemma SellValueIgnoresQuantity(positions: map<Holding, Position>, after: map<Holding, Position>,
      orders: map<OrderId, Row>, market: MarketId)
    requires after.Keys == positions.Keys && forall h | h in positions :: after[h].avgPrice == positions[h].avgPrice
    ensures SellValue(after, orders, market) == SellValue(positions, orders, market)
  {
    forall i | i in orders ensures SellWeight(after, orders[i], market) == SellWeight(positions, orders[i], market) { }
    assert (map i | i in orders :: SellWeight(after, orders[i], market))
        == (map i | i in orders :: SellWeight(positions, orders[i], market));
  }

  lemma RefundAdds(p: Position, q: real)
    ensures RefundOf(p.(quantity := p.quantity + q)) == RefundOf(p) + Worth(q, p.avgPrice)
  {
  }

  lemma ReturnKeepsRefunds(cat: Catalog, l: Ledger, r: Row, market: MarketId)
    requires OrdersOk(cat, l, l.orders) && PositionsOk(cat, l)
    requires r.id in l.orders && l.orders[r.id] == r && r.Live() && r.side.Sell? && r.market == market
    ensures RestoreShares(l, r).Ok?
    ensures RefundsOwed(RestoreShares(l, r).value.(orders := l.orders[r.id := Withdrawn(r)]), market)
         == RefundsOwed(l, market)
  {
    assert OrderOk(cat, l, r);
    var h := Holding(r.user, r.outcome);
    var p := l.positions[h];
    assert PositionOk(cat, l.users, h, p);
    var p' := p.(quantity := p.quantity + r.Remaining());
    PositionValueUpdate(l.positions, h, p', market);
    RefundAdds(p, r.Remaining());
    SellValueUpdate(l.positions, l.orders, Withdrawn(r), market);
    SellValueIgnoresQuantity(l.positions, l.positions[h := p'], l.orders[r.id := Withdrawn(r)], market);
    assert RestoreShares(l, r).value.positions == l.positions[h := p'];
    assert SellWeight(l.positions, r, market) == Worth(r.Remaining(), p.avgPrice);
  }

  lemma ReleaseKeepsRefunds(l: Ledger, r: Row, market: MarketId)
    requires r.id in l.orders && l.orders[r.id] == r && r.side.Buy? && ReleaseFunds(l, r).Ok?
    ensures RefundsOwed(ReleaseFunds(l, r).value.(orders := l.orders[r.id := Withdrawn(r)]), market)
         == RefundsOwed(l, market)
  {
    SellValueUpdate(l.positions, l.orders, Withdrawn(r), market);
  }

  lemma CancelListedKeepsRefunds(cat: Catalog, x: Exchange, r: Row, lost: map<OutcomeId, real>)
    requires Inv(cat, x, lost)
    requires r.id in x.ledger.orders && x.ledger.orders[r.id] == r && r.Live()
    ensures RefundsOwed(CancelListed(x, r).state.ledger, r.market) == RefundsOwed(x.ledger, r.market)
  {
    assert OrderOk(cat, x.ledger, r);
    EngineFindsLiveOrders(x.ledger.orders, x.books, r.id);
    if r.side.Buy? {
      ReleaseKeepsRefunds(x.ledger, r, r.market);
    } else {
      ReturnKeepsRefunds(cat, x.ledger, r, r.market);
    }
  }

  /** Cancel-all moves value from sells to positions, and loses none. */
  lemma {:induction false} CancelAllKeepsRefunds(cat: Catalog, x: Exchange, market: MarketId, listing: seq<Row>,
      lost: map<OutcomeId, real>)
    requires Inv(cat, x, lost) && ListsOpen(x.ledger.orders, market, listing)
    ensures RefundsOwed(CancelAll(x, listing).state.ledger, market) == RefundsOwed(x.ledger, market)
    decreases |listing|
  {
    if listing != [] {
      assert listing[0] in listing;
      CancelListedWorks(cat, x, listing[0], lost);
      CancelListedKeepsRefunds(cat, x, listing[0], lost);
      ListingShrinks(x.ledger.orders, market, listing);
      var x1 := CancelListed(x, listing[0]).state;
      CancelAllWorks(cat, x1, market, listing[1..], lost);
      CancelAllKeepsRefunds(cat, x1, market, listing[1..], lost);
    }
  }

  // ---- the refunds paid ----

  /** Positions still to be refunded, as the listing is worked off. */
  ghost predicate Owes(positions: map<Holding, Position>, market: MarketId, listing: seq<Listed>) {
    && ListsPositions(positions, market, listing)
    && forall h | h in positions :: positions[h].quantity >= 0.0 && positions[h].avgPrice >= 0.0
  }

  lemma OwesRest(positions: map<Holding, Position>, market: MarketId, listing: seq<Listed>)
    requires Owes(positions, market, listing) && listing != []
    ensures Owes(positions - {listing[0].holding}, market, listing[1..])
  {
    assert forall i | 0 <= i < |listing[1..]| :: listing[1..][i] == listing[i + 1];
    assert listing == [listing[0]] + listing[1..];
    forall l | l in listing[1..] ensures l.holding != listing[0].holding {
      var i :| 0 <= i < |listing[1..]| && listing[1..][i] == l;
    }
  }

  lemma RefundIsZero(p: Position)
    requires p.quantity >= 0.0 && p.avgPrice >= 0.0 && (p.quantity == 0.0 || RefundOf(p) <= 0.0)
    ensures RefundOf(p) == 0.0
  {
    assert p.quantity * p.avgPrice >= 0.0;
  }

  lemma FirstRefund(l: Listed, rest: seq<Listed>)
    requires l.position.quantity >= 0.0 && l.position.avgPrice >= 0.0
    ensures Total(Refunds([l] + rest)) == RefundOf(l.position) + Total(Refunds(rest))
  {
    assert ([l] + rest)[1..] == rest;
    var refund := RefundOf(l.position);
    var first := if l.position.quantity > 0.0 && refund > 0.0 then [Payment(l.holding.user, refund)] else [];
    TotalAppend(first, Refunds(rest));
    if first != [] { assert first[1..] == []; } else { RefundIsZero(l.position); }
  }

  /** Refunds come to the value of the market's positions. */
  lemma {:induction false} RefundTotal(positions: map<Holding, Position>, market: MarketId, listing: seq<Listed>)
    requires Owes(positions, market, listing)
    ensures Total(Refunds(listing)) == PositionValue(positions, market)
    decreases |listing|
  {
    var w := map h | h in positions :: PositionWeight(positions[h], market);
    if listing == [] {
      forall h | h in positions ensures positions[h].market != market {
        assert Listed(h, positions[h]) !in listing;
      }
      SumZero(w);
    } else {
      var l := listing[0];
      assert l in listing;
      var positions' := positions - {l.holding};
      SumTakeOut(w, l.holding);
      assert w - {l.holding} == map h | h in positions' :: PositionWeight(positions'[h], market);
      OwesRest(positions, market, listing);
      RefundTotal(positions', market, listing[1..]);
      assert listing == [l] + listing[1..];
      FirstRefund(l, listing[1..]);
    }
  }

  // ---- what minting adds ----

  function SetsWorth(n: nat, quantity: real): real {
    if n == 0 then 0.0 else SetsWorth(n - 1, quantity) + quantity
  }

  /** Minting sets an average price of one on every outcome, so that a set bought for one
      counts for as many as it has outcomes. */
  lemma {:induction false} MintedValue(positions: map<Holding, Position>, user: UserId, market: MarketId,
      outcomes: seq<OutcomeId>, quantity: real)
    requires forall i, j | 0 <= i < j < |outcomes| :: outcomes[i] != outcomes[j]
    requires forall o | o in outcomes :: Holding(user, o) !in positions
    ensures PositionValue(MintPositions(positions, user, market, outcomes, quantity), market)
         == PositionValue(positions, market) + SetsWorth(|outcomes|, quantity)
    decreases |outcomes|
  {
    if outcomes != [] {
      var h, p := Holding(user, outcomes[0]), Position(market, quantity, 1.0);
      PositionValueUpdate(positions, h, p, market);
      assert RefundOf(p) == quantity;
      assert outcomes == [outcomes[0]] + outcomes[1..];
      MintedValue(positions[h := p], user, market, outcomes[1..], quantity);
    }
  }

  lemma NoSellsLeft(l: Ledger, market: MarketId)
    requires forall id | id in l.orders && l.orders[id].Live() :: l.orders[id].market != market
    ensures SellValue(l.positions, l.orders, market) == 0.0
  {
    SumZero(map id | id in l.orders :: SellWeight(l.positions, l.orders[id], market));
  }

  /** After cancel-all, the refunds of a complete listing come to exactly what the tables
      before it owed. */
  lemma RefundsAreOwed(cat: Catalog, x: Exchange, market: MarketId, orders: seq<Row>, listing: seq<Listed>,
      lost: map<OutcomeId, real>)
    requires Inv(cat, x, lost) && ListsOpen(x.ledger.orders, market, orders)
    requires ListsPositions(CancelAll(x, orders).state.ledger.positions, market, listing)
    ensures Total(Refunds(listing)) == RefundsOwed(x.ledger, market)
  {
    CancelAllWorks(cat, x, market, orders, lost);
    CancelAllEmptiesMarket(cat, x, market, orders, lost);
    CancelAllKeepsRefunds(cat, x, market, orders, lost);
    var l := CancelAll(x, orders).state.ledger;
    forall h | h in l.positions ensures l.positions[h].quantity >= 0.0 && l.positions[h].avgPrice >= 0.0 {
      assert PositionOk(cat, l.users, h, l.positions[h]);
    }
    RefundTotal(l.positions, market, listing);
    NoSellsLeft(l, market);
  }
}
