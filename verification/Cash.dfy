/** Cash is conserved by every order operation, and a taker pays or receives exactly what
    its trades cost. */
module Cash {
  import opened Domain
  import opened FlatBook
  import opened Matching
  import opened Ledger
  import opened Exchange
  import opened Funds
  import opened Agreement
  import opened Placement

  function TradedValue(ts: seq<Trade>): real {
    if ts == [] then 0.0 else ts[0].price * ts[0].quantity + TradedValue(ts[1..])
  }

  lemma PaymentsBalance(limit: real, price: real, q: real)
    ensures (limit - price) * q - limit * q + price * q == 0.0
  {
  }

  /** What the buyer's funds lose, the seller gains. */
  lemma SettleTradeKeepsCash(div: Division, l: Ledger, side: Side, limit: real, t: Trade)
    requires SettleTrade(div, l, side, limit, t).Ok?
    ensures var l' := SettleTrade(div, l, side, limit, t).value;
      TotalCash(l'.users) == TotalCash(l.users) && l'.users.Keys == l.users.Keys && l'.mints == l.mints
  {
    var buyer, seller := Buyer(side, t), Seller(side, t);
    var bid := BuyerLimit(side, limit, t);
    var paid := PayBuyer(l.users[buyer], bid, t.price, t.quantity);
    var users := l.users[buyer := paid];
    TotalCashUpdate(l.users, buyer, paid);
    TotalCashUpdate(users, seller, PaySeller(users[seller], t.price, t.quantity));
    PaymentsBalance(bid, t.price, t.quantity);
  }

  lemma {:induction false} SettleAllKeepsCash(div: Division, l: Ledger, side: Side, limit: real, ts: seq<Trade>)
    requires SettleAll(div, l, side, limit, ts).Ok?
    ensures var l' := SettleAll(div, l, side, limit, ts).value;
      TotalCash(l'.users) == TotalCash(l.users) && l'.users.Keys == l.users.Keys && l'.mints == l.mints
    decreases |ts|
  {
    if ts != [] {
      SettleTradeKeepsCash(div, l, side, limit, ts[0]);
      SettleAllKeepsCash(div, SettleTrade(div, l, side, limit, ts[0]).value, side, limit, ts[1..]);
    }
  }

  lemma EscrowKeepsCash(l: Ledger, r: Row)
    requires Escrow(l, r).Ok?
    ensures TotalCash(Escrow(l, r).value.users) == TotalCash(l.users)
    ensures Escrow(l, r).value.users.Keys == l.users.Keys && Escrow(l, r).value.mints == l.mints
  {
    if r.side.Buy? { TotalCashUpdate(l.users, r.user, Escrow(l, r).value.users[r.user]); }
  }

  /** No placement, accepted or not, creates or destroys cash. */
  lemma PlaceOrderConservesCash(div: Division, x: Exchange, r: Row)
    ensures TotalCash(PlaceOrder(div, x, r).state.ledger.users) == TotalCash(x.ledger.users)
    ensures PlaceOrder(div, x, r).state.ledger.users.Keys == x.ledger.users.Keys
    ensures PlaceOrder(div, x, r).state.ledger.mints == x.ledger.mints
  {
    if PlaceOrder(div, x, r).result.Ok? {
      EscrowKeepsCash(x.ledger, r);
      SettleAllKeepsCash(div, AtEngine(x.ledger, r), r.side, r.price, MatchAt(x, r).trades);
    }
  }

  /** No cancellation creates or destroys cash. */
  lemma CancelOrderConservesCash(x: Exchange, user: UserId, id: OrderId)
    ensures TotalCash(CancelOrder(x, user, id).state.ledger.users) == TotalCash(x.ledger.users)
    ensures CancelOrder(x, user, id).state.ledger.mints == x.ledger.mints
  {
    if id in x.ledger.orders {
      var r := x.ledger.orders[id];
      if r.side.Buy? && r.user in x.ledger.users {
        TotalCashUpdate(x.ledger.users, r.user, ReleaseFunds(x.ledger, r).value.users[r.user]);
      }
    }
  }

  /** A taker's account after trading a quantity of some total value: a buyer pays the value
      out of what it locked at its limit, a seller receives it. */
  function TakerAfter(a: Account, side: Side, limit: real, quantity: real, value: real): Account {
    if side.Buy? then Account(a.balance + limit * quantity - value, a.locked - limit * quantity)
    else Account(a.balance + value, a.locked)
  }

  lemma TakerAfterAdds(a: Account, side: Side, limit: real, q: real, v: real, q': real, v': real)
    ensures TakerAfter(TakerAfter(a, side, limit, q, v), side, limit, q', v')
         == TakerAfter(a, side, limit, q + q', v + v')
  {
    assert limit * (q + q') == limit * q + limit * q';
  }

  lemma TakerAccountStep(div: Division, l: Ledger, side: Side, limit: real, t: Trade)
    requires SettleTrade(div, l, side, limit, t).Ok? && t.takerUser != t.makerUser && t.takerUser in l.users
    ensures SettleTrade(div, l, side, limit, t).value.users[t.takerUser]
         == TakerAfter(l.users[t.takerUser], side, limit, t.quantity, t.price * t.quantity)
  {
    assert (limit - t.price) * t.quantity == limit * t.quantity - t.price * t.quantity;
  }

  lemma {:induction false} TakerAccountAfter(div: Division, l: Ledger, side: Side, limit: real, ts: seq<Trade>,
      user: UserId)
    requires SettleAll(div, l, side, limit, ts).Ok? && user in l.users
    requires forall t | t in ts :: t.takerUser == user && t.makerUser != user
    ensures user in SettleAll(div, l, side, limit, ts).value.users
    ensures SettleAll(div, l, side, limit, ts).value.users[user]
         == TakerAfter(l.users[user], side, limit, Traded(ts), TradedValue(ts))
    decreases |ts|
  {
    if ts == [] {
      assert limit * 0.0 == 0.0;
    } else {
      var t := ts[0];
      var l1 := SettleTrade(div, l, side, limit, t).value;
      TakerAccountStep(div, l, side, limit, t);
      TakerAccountAfter(div, l1, side, limit, ts[1..], user);
      TakerAfterAdds(l.users[user], side, limit, t.quantity, t.price * t.quantity,
                     Traded(ts[1..]), TradedValue(ts[1..]));
    }
  }

  /** What is left of a balance after escrow and trades: a buyer is out the value of its
      trades and its limit for the rest. */
  function BalanceAfter(before: real, r: Row, traded: real, value: real): real {
    if r.side.Buy? then before - value - r.price * (r.quantity - traded) else before + value
  }

  lemma EscrowThenTrades(l: Ledger, r: Row, a: Account, traded: real, value: real)
    requires Escrow(l, r).Ok? && r.user in l.users && a == AtEngine(l, r).users[r.user]
    ensures TakerAfter(a, r.side, r.price, traded, value).balance
         == BalanceAfter(l.users[r.user].balance, r, traded, value)
  {
    assert r.price * (r.quantity - traded) == r.price * r.quantity - r.price * traded;
  }

  lemma MatchedTakerTrades(x: Exchange, r: Row)
    requires ReadyToPlace(x.ledger.orders, x.books, r)
    ensures var m := MatchAt(x, r);
      && m.taker == r.(filled := Traded(m.trades))
      && Settled(m.taker).filled == Traded(m.trades)
      && forall t | t in m.trades :: t.takerUser == r.user && t.makerUser != r.user && t.quantity > 0.0
  {
    ReadyBook(x.ledger.orders, x.books, r);
    MatchConservesQuantity(r, OtherSide(x.books, r));
    TradesRespectLimit(r, OtherSide(x.books, r));
  }

  lemma PlacedAccount(div: Division, x: Exchange, r: Row, ts: seq<Trade>)
    requires Accepts(x, r) && r.id !in x.ledger.orders && r.user in x.ledger.users
    requires ts == MatchAt(x, r).trades
    requires SettlePlacement(div, AtEngine(x.ledger, r), r, MatchAt(x, r)).Ok?
    requires forall t | t in ts :: t.takerUser == r.user && t.makerUser != r.user
    ensures var after := PlaceOrder(div, x, r).state.ledger.users;
      && r.user in after
      && after[r.user].balance == BalanceAfter(x.ledger.users[r.user].balance, r, Traded(ts), TradedValue(ts))
  {
    var l := AtEngine(x.ledger, r);
    AcceptedReply(div, x, r);
    TakerAccountAfter(div, l, r.side, r.price, ts, r.user);
    EscrowThenTrades(x.ledger, r, l.users[r.user], Traded(ts), TradedValue(ts));
  }

  /** A buy taker's balance falls by exactly the value of its trades plus its limit price
      for what is left resting; a sell taker's grows by exactly the value of its trades. */
  lemma TakerPaysExactly(div: Division, cat: Catalog, x: Exchange, r: Row, lost: map<OutcomeId, real>)
    requires KeepsBounds(div)
    requires Inv(cat, x, lost) && Request(cat, x, r) && Accepts(x, r)
    ensures r.user in x.ledger.users && PlaceOrder(div, x, r).result.Ok?
    ensures var after := PlaceOrder(div, x, r).state.ledger.users;
      var placed := PlaceOrder(div, x, r).result.value;
      && placed.order.filled == Traded(placed.trades)
      && r.user in after
      && after[r.user].balance
           == BalanceAfter(x.ledger.users[r.user].balance, r, Traded(placed.trades), TradedValue(placed.trades))
  {
    var h := Holding(r.user, r.outcome);
    assert r.side.Sell? ==> PositionOk(cat, x.ledger.users, h, x.ledger.positions[h]);
    AcceptedPlacement(div, cat, x, r, lost);
    AcceptedReply(div, x, r);
    MatchedTakerTrades(x, r);
    PlacedAccount(div, x, r, MatchAt(x, r).trades);
  }
}
