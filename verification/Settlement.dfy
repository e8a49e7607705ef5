/** Settling one trade keeps the funds invariant, and so does settling all the trades that
    matching produced, whatever their number. */
module Settlement {
  import opened Domain
  import opened FlatBook
  import opened Ledger
  import opened Funds

  /** A maker and a taker about to trade quantity q. */
  ghost predicate TradeReady(l: Ledger, taker: Row, maker: Row, q: real) {
    && taker.id in l.orders && taker.status == Open
    && maker.id in l.orders && l.orders[maker.id] == maker && maker.Live()
    && taker.id != maker.id
    && taker.side == maker.side.Opposite()
    && taker.outcome == maker.outcome && taker.market == maker.market
    && 0.0 < q <= taker.Remaining() && q <= maker.Remaining()
    && Crosses(taker.side, taker.price, maker.price)
  }

  function Advanced(taker: Row, q: real): Row { taker.(filled := taker.filled + q) }

  lemma BalanceMayGrow(users: map<UserId, Account>, orders: map<OrderId, Row>, u: UserId, balance: real)
    requires AccountsOk(users, orders) && u in users && balance >= 0.0
    ensures AccountsOk(users[u := users[u].(balance := balance)], orders)
  {
  }

  lemma ProductNonNegative(x: real, y: real)
    requires x >= 0.0 && y >= 0.0
    ensures x * y >= 0.0
  {
  }

  /** The buyer's locked funds fall by what its order no longer needs. */
  lemma BuyerPays(users: map<UserId, Account>, orders: map<OrderId, Row>, bid: Row, bid': Row, price: real, q: real)
    requires AccountsOk(users, orders) && bid.id in orders && orders[bid.id] == bid && bid.user in users
    requires bid.side.Buy? && bid.Live() && price <= bid.price && 0.0 < q <= bid.Remaining()
    requires bid' == bid.(filled := bid.filled + q, status := bid'.status)
    requires bid'.Live() || q == bid.Remaining()
    ensures AccountsOk(users[bid.user := PayBuyer(users[bid.user], bid.price, price, q)], orders[bid.id := bid'])
  {
    var a := PayBuyer(users[bid.user], bid.price, price, q);
    ProductNonNegative(bid.price - price, q);
    assert bid.price * (bid.Remaining() - q) == bid.price * bid.Remaining() - bid.price * q;
    AccountFollowsOrder(users, orders, a, bid');
  }

  lemma SettledAccounts(l: Ledger, taker: Row, maker: Row, q: real, div: Division)
    requires TradeReady(l, taker, maker, q)
    requires taker.user in l.users && maker.user in l.users && maker.price > 0.0
    requires AccountsOk(l.users, l.orders[taker.id := taker])
    ensures SettleTrade(div, l, taker.side, taker.price, TradeOf(taker, maker, q)).Ok?
    ensures var l' := SettleTrade(div, l, taker.side, taker.price, TradeOf(taker, maker, q)).value;
      AccountsOk(l'.users, l'.orders[taker.id := Advanced(taker, q)])
  {
    var orders := l.orders[taker.id := taker];
    var taker', maker' := Advanced(taker, q), FillRow(maker, q);
    var l' := SettleTrade(div, l, taker.side, taker.price, TradeOf(taker, maker, q)).value;
    assert maker.price * q >= 0.0;
    if taker.side.Buy? {
      BuyerPays(l.users, orders, taker, taker', maker.price, q);
      var users := l.users[taker.user := PayBuyer(l.users[taker.user], taker.price, maker.price, q)];
      OrderLocksAsBefore(users, orders[taker.id := taker'], maker');
      assert orders[taker.id := taker'][maker.id := maker'] == l'.orders[taker.id := taker'];
      BalanceMayGrow(users, l'.orders[taker.id := taker'], maker.user, users[maker.user].balance + maker.price * q);
    } else {
      BuyerPays(l.users, orders, maker, maker', maker.price, q);
      var users := l.users[maker.user := PayBuyer(l.users[maker.user], maker.price, maker.price, q)];
      OrderLocksAsBefore(users, orders[maker.id := maker'], taker');
      assert orders[maker.id := maker'][taker.id := taker'] == l'.orders[taker.id := taker'];
      BalanceMayGrow(users, l'.orders[taker.id := taker'], taker.user, users[taker.user].balance + maker.price * q);
    }
  }

  /** Shares move from the seller's escrow into the buyer's position. */
  lemma SharesMove(l: Ledger, taker: Row, maker: Row, q: real, div: Division, o: OutcomeId)
    requires TradeReady(l, taker, maker, q)
    requires taker.user in l.users && maker.user in l.users
    ensures var l' := SettleTrade(div, l, taker.side, taker.price, TradeOf(taker, maker, q)).value;
      Held(l'.positions, o) + Escrowed(l'.orders[taker.id := Advanced(taker, q)], o)
      == Held(l.positions, o) + Escrowed(l.orders[taker.id := taker], o)
  {
    var orders := l.orders[taker.id := taker];
    var taker', maker' := Advanced(taker, q), FillRow(maker, q);
    var t := TradeOf(taker, maker, q);
    var l' := SettleTrade(div, l, taker.side, taker.price, t).value;
    var h := Holding(Buyer(taker.side, t), t.outcome);
    assert orders[maker.id := maker'][taker.id := taker'] == l'.orders[taker.id := taker'];
    HeldUpdate(l.positions, h, l'.positions[h], o);
    EscrowedUpdate(orders, maker.id, maker', o);
    EscrowedUpdate(orders[maker.id := maker'], taker.id, taker', o);
  }

  lemma SettledShares(cat: Catalog, l: Ledger, taker: Row, maker: Row, q: real, lost: map<OutcomeId, real>,
      div: Division)
    requires TradeReady(l, taker, maker, q)
    requires taker.user in l.users && maker.user in l.users
    requires SharesOk(cat, l, l.orders[taker.id := taker], lost)
    ensures var l' := SettleTrade(div, l, taker.side, taker.price, TradeOf(taker, maker, q)).value;
      SharesOk(cat, l', l'.orders[taker.id := Advanced(taker, q)], lost)
  {
    var orders := l.orders[taker.id := taker];
    var l' := SettleTrade(div, l, taker.side, taker.price, TradeOf(taker, maker, q)).value;
    forall o | o in cat
      ensures Held(l'.positions, o) + Escrowed(l'.orders[taker.id := Advanced(taker, q)], o)
           == Held(l.positions, o) + Escrowed(orders, o)
    {
      SharesMove(l, taker, maker, q, div, o);
    }
  }

  lemma ProductBounds(x: real, y: real)
    requires 0.01 <= x <= 1.0 && y >= 0.0
    ensures 0.01 * y <= x * y <= y
  {
    ProductNonNegative(x - 0.01, y);
    ProductNonNegative(1.0 - x, y);
  }

  lemma CostInRange(avg: real, held: real, price: real, q: real)
    requires held >= 0.0 && q > 0.0 && 0.01 <= price <= 1.0
    requires 0.01 <= avg <= 1.0 || held == 0.0
    ensures 0.01 * (held + q) <= avg * held + price * q <= held + q
  {
    if held > 0.0 { ProductBounds(avg, held); }
    ProductBounds(price, q);
  }

  /** A weighted average of prices in range is in range. */
  lemma AverageInRange(div: Division, p: Position, price: real, q: real)
    requires KeepsBounds(div)
    requires p.quantity >= 0.0 && q > 0.0 && PriceInRange(price)
    requires MIN_PRICE <= p.avgPrice <= 1.0 || p.quantity == 0.0
    ensures MIN_PRICE <= AddShares(div, p, price, q).avgPrice <= 1.0
  {
    CostInRange(p.avgPrice, p.quantity, price, q);
    assert 0.01 <= div(TotalCost(p, price, q), p.quantity + q) <= 1.0;
  }

  lemma SettledPositions(cat: Catalog, l: Ledger, side: Side, limit: real, t: Trade, div: Division)
    requires KeepsBounds(div)
    requires PositionsOk(cat, l) && t.quantity > 0.0 && PriceInRange(t.price)
    requires Buyer(side, t) in l.users && Seller(side, t) in l.users && t.makerOrder in l.orders
    requires t.outcome in cat && cat[t.outcome] == t.market
    ensures PositionsOk(cat, SettleTrade(div, l, side, limit, t).value)
  {
    var l' := SettleTrade(div, l, side, limit, t).value;
    var h := Holding(Buyer(side, t), t.outcome);
    var p := HeldBefore(l.positions, h.user, t);
    assert h in l.positions ==> PositionOk(cat, l.users, h, p);
    AverageInRange(div, p, t.price, t.quantity);
    forall k | k in l'.positions ensures PositionOk(cat, l'.users, k, l'.positions[k]) {
      if k != h { assert PositionOk(cat, l.users, k, l.positions[k]); }
    }
  }

  lemma SettledOrders(cat: Catalog, l: Ledger, taker: Row, maker: Row, q: real, div: Division)
    requires TradeReady(l, taker, maker, q) && taker.user in l.users && maker.user in l.users
    requires OrdersOk(cat, l, l.orders[taker.id := taker])
    ensures var l' := SettleTrade(div, l, taker.side, taker.price, TradeOf(taker, maker, q)).value;
      OrdersOk(cat, l', l'.orders[taker.id := Advanced(taker, q)])
  {
    var orders := l.orders[taker.id := taker];
    var l' := SettleTrade(div, l, taker.side, taker.price, TradeOf(taker, maker, q)).value;
    assert l.users.Keys <= l'.users.Keys && l.positions.Keys <= l'.positions.Keys;
    var orders' := l'.orders[taker.id := Advanced(taker, q)];
    forall id | id in orders' ensures orders'[id].id == id && OrderOk(cat, l', orders'[id]) {
      assert id in orders;
      assert OrderOk(cat, l, orders[id]);
    }
  }

  /** Settling one trade cannot fail, fills the maker's row exactly as the engine did, and
      keeps the funds invariant. */
  lemma SettleTradeKeepsFunds(div: Division, cat: Catalog, l: Ledger, taker: Row, maker: Row, q: real,
      lost: map<OutcomeId, real>)
    requires KeepsBounds(div)
    requires TradeReady(l, taker, maker, q)
    requires FundsOk(cat, l, l.orders[taker.id := taker], lost)
    ensures SettleTrade(div, l, taker.side, taker.price, TradeOf(taker, maker, q)).Ok?
    ensures var l' := SettleTrade(div, l, taker.side, taker.price, TradeOf(taker, maker, q)).value;
      && l'.orders == l.orders[maker.id := FillMaker(maker, q)]
      && l'.mints == l.mints
      && FundsOk(cat, l', l'.orders[taker.id := Advanced(taker, q)], lost)
  {
    var orders := l.orders[taker.id := taker];
    assert orders[taker.id] == taker && orders[maker.id] == maker;
    assert OrderOk(cat, l, taker) && OrderOk(cat, l, maker);
    SettledAccounts(l, taker, maker, q, div);
    SettledShares(cat, l, taker, maker, q, lost, div);
    SettledPositions(cat, l, taker.side, taker.price, TradeOf(taker, maker, q), div);
    SettledOrders(cat, l, taker, maker, q, div);
  }

  // ---- all the trades of one placement ----

  /** The ledger's copy of the opposing side is the engine's. */
  ghost predicate SideMirrored(l: Ledger, taker: Row, book: seq<Row>) {
    && DistinctIds(book)
    && forall r | r in book ::
         && r.id in l.orders && l.orders[r.id] == r
         && r.Resting() && r.side == taker.side.Opposite()
         && r.outcome == taker.outcome && r.market == taker.market
         && r.id != taker.id
  }

  /** What holds between a ledger and the taker while its trades are settled. */
  ghost predicate Settling(cat: Catalog, l: Ledger, taker: Row, lost: map<OutcomeId, real>) {
    && taker.id in l.orders && taker.status == Open && taker.Remaining() >= 0.0
    && FundsOk(cat, l, l.orders[taker.id := taker], lost)
  }

  /** l' is what settling m, the match against book, made of l. */
  ghost predicate SettlesTo(cat: Catalog, l: Ledger, l': Ledger, book: seq<Row>, m: Matched,
      lost: map<OutcomeId, real>)
  {
    && Settling(cat, l', m.taker, lost)
    && l'.orders.Keys == l.orders.Keys && l'.mints == l.mints
    && (forall r | r in m.skipped || r in m.rest || r in m.consumed :: r.id in l'.orders && l'.orders[r.id] == r)
    && (forall id | id in l.orders && !HasId(book, id) :: l'.orders[id] == l.orders[id])
  }

  lemma SkipStep(cat: Catalog, l: Ledger, l': Ledger, book: seq<Row>, m: Matched, lost: map<OutcomeId, real>)
    requires book != [] && DistinctIds(book)
    requires book[0].id in l.orders && l.orders[book[0].id] == book[0]
    requires SettlesTo(cat, l, l', book[1..], m, lost)
    ensures SettlesTo(cat, l, l', book, m.(skipped := [book[0]] + m.skipped), lost)
  {
    assert !HasId(book[1..], book[0].id);
    forall id | !HasId(book, id) ensures !HasId(book[1..], id) {
      assert forall i | 0 <= i < |book[1..]| :: book[1..][i] == book[i + 1];
    }
  }

  lemma FillStep(cat: Catalog, l: Ledger, l1: Ledger, l': Ledger, book: seq<Row>, maker: Row, m: Matched,
      ts: seq<Trade>, lost: map<OutcomeId, real>)
    requires book != [] && DistinctIds(book) && maker.id == book[0].id && maker.id in l.orders
    requires l1.orders == l.orders[maker.id := maker] && l1.mints == l.mints
    requires SettlesTo(cat, l1, l', book[1..], m, lost)
    ensures SettlesTo(cat, l, l', book, m.(consumed := [maker] + m.consumed, trades := ts), lost)
  {
    assert !HasId(book[1..], book[0].id);
    forall id | !HasId(book, id) ensures !HasId(book[1..], id) && id != maker.id {
      assert book[0].id == maker.id;
      assert forall i | 0 <= i < |book[1..]| :: book[1..][i] == book[i + 1];
    }
  }

  lemma LastFillStep(cat: Catalog, l: Ledger, l1: Ledger, book: seq<Row>, maker: Row, m: Matched,
      lost: map<OutcomeId, real>)
    requires book != [] && DistinctIds(book) && maker.id == book[0].id && maker.id in l.orders
    requires forall r | r in book :: r.id in l.orders && l.orders[r.id] == r
    requires l1.orders == l.orders[maker.id := maker] && l1.mints == l.mints
    requires Settling(cat, l1, m.taker, lost)
    requires m.skipped == [] && m.consumed == [] && m.rest == [maker] + book[1..]
    ensures SettlesTo(cat, l, l1, book, m, lost)
  {
    forall r | r in m.rest ensures r.id in l1.orders && l1.orders[r.id] == r {
      if r != maker {
        assert r in book[1..];
        assert r in book && r.id != book[0].id;
      }
    }
    assert HasId(book, book[0].id);
  }

  lemma MirrorAdvances(l: Ledger, l1: Ledger, taker: Row, taker': Row, book: seq<Row>, maker: Row)
    requires SideMirrored(l, taker, book) && book != [] && maker.id == book[0].id
    requires l1.orders == l.orders[maker.id := maker]
    requires taker' == taker.(filled := taker'.filled)
    ensures SideMirrored(l1, taker', book[1..])
  {
  }

  /** Settling trade by trade follows matching step by step: no settlement fails, every
      maker's row ends as the engine's, and the funds invariant holds throughout. */
  lemma {:induction false} MatchSettles(div: Division, cat: Catalog, l: Ledger, taker: Row, book: seq<Row>,
      lost: map<OutcomeId, real>)
    requires KeepsBounds(div)
    requires Settling(cat, l, taker, lost) && SideMirrored(l, taker, book)
    ensures var m := Match(taker, book);
      && SettleAll(div, l, taker.side, taker.price, m.trades).Ok?
      && SettlesTo(cat, l, SettleAll(div, l, taker.side, taker.price, m.trades).value, book, m, lost)
    decreases |book|, 1
  {
    if Stops(taker, book) {
    } else if taker.user == book[0].user {
      MirrorAdvances(l, l, taker, taker, book, book[0]) by {
        assert book[0] in book;
        assert l.orders[book[0].id := book[0]] == l.orders;
      }
      MatchSettles(div, cat, l, taker, book[1..], lost);
      assert book[0] in book;
      SkipStep(cat, l, SettleAll(div, l, taker.side, taker.price, Match(taker, book[1..]).trades).value,
               book, Match(taker, book[1..]), lost);
    } else {
      MatchSettlesTrade(div, cat, l, taker, book, lost);
    }
  }

  /** The whole match settles: what MatchSettles ensures. */
  ghost predicate Settles(div: Division, cat: Catalog, l: Ledger, taker: Row, book: seq<Row>,
      lost: map<OutcomeId, real>)
  {
    var m := Match(taker, book);
    var settled := SettleAll(div, l, taker.side, taker.price, m.trades);
    settled.Ok? && SettlesTo(cat, l, settled.value, book, m, lost)
  }

  lemma MatchAfterFill(taker: Row, book: seq<Row>, q: real)
    requires !Stops(taker, book) && taker.user != book[0].user && q == Min(taker.Remaining(), book[0].Remaining())
    ensures FillMaker(book[0], q).Remaining() <= 0.0 ==> var m' := Match(Advanced(taker, q), book[1..]);
      Match(taker, book) == m'.(consumed := [FillMaker(book[0], q)] + m'.consumed,
                                trades := [TradeOf(taker, book[0], q)] + m'.trades)
    ensures FillMaker(book[0], q).Remaining() > 0.0 ==>
      Match(taker, book) == Matched([TradeOf(taker, book[0], q)], Advanced(taker, q), [], [],
                                    [FillMaker(book[0], q)] + book[1..])
  {
  }

  lemma SettleAllStep(div: Division, l: Ledger, side: Side, limit: real, ts: seq<Trade>)
    requires ts != [] && SettleTrade(div, l, side, limit, ts[0]).Ok?
    ensures SettleAll(div, l, side, limit, ts)
         == SettleAll(div, SettleTrade(div, l, side, limit, ts[0]).value, side, limit, ts[1..])
  {
  }

  lemma SettlesAfterFill(div: Division, cat: Catalog, l: Ledger, l1: Ledger, taker: Row, book: seq<Row>, q: real,
      lost: map<OutcomeId, real>)
    requires !Stops(taker, book) && taker.user != book[0].user && q == Min(taker.Remaining(), book[0].Remaining())
    requires FillMaker(book[0], q).Remaining() <= 0.0 && DistinctIds(book) && book[0].id in l.orders
    requires SettleTrade(div, l, taker.side, taker.price, TradeOf(taker, book[0], q)) == Ok(l1)
    requires l1.orders == l.orders[book[0].id := FillMaker(book[0], q)] && l1.mints == l.mints
    requires Settles(div, cat, l1, Advanced(taker, q), book[1..], lost)
    ensures Settles(div, cat, l, taker, book, lost)
  {
    var m, m' := Match(taker, book), Match(Advanced(taker, q), book[1..]);
    var l' := SettleAll(div, l1, taker.side, taker.price, m'.trades).value;
    MatchAfterFill(taker, book, q);
    assert m.trades[1..] == m'.trades;
    SettleAllStep(div, l, taker.side, taker.price, m.trades);
    FillStep(cat, l, l1, l', book, FillMaker(book[0], q), m', m.trades, lost);
  }

  lemma SettlesWithPartial(div: Division, cat: Catalog, l: Ledger, l1: Ledger, taker: Row, book: seq<Row>, q: real,
      lost: map<OutcomeId, real>)
    requires !Stops(taker, book) && taker.user != book[0].user && q == Min(taker.Remaining(), book[0].Remaining())
    requires FillMaker(book[0], q).Remaining() > 0.0 && DistinctIds(book) && book[0].id in l.orders
    requires forall r | r in book :: r.id in l.orders && l.orders[r.id] == r
    requires SettleTrade(div, l, taker.side, taker.price, TradeOf(taker, book[0], q)) == Ok(l1)
    requires l1.orders == l.orders[book[0].id := FillMaker(book[0], q)] && l1.mints == l.mints
    requires Settling(cat, l1, Advanced(taker, q), lost)
    ensures Settles(div, cat, l, taker, book, lost)
  {
    var m := Match(taker, book);
    MatchAfterFill(taker, book, q);
    assert m.trades[1..] == [];
    SettleAllStep(div, l, taker.side, taker.price, m.trades);
    LastFillStep(cat, l, l1, book, FillMaker(book[0], q), m, lost);
  }

  lemma FirstTradeSettles(div: Division, cat: Catalog, l: Ledger, taker: Row, book: seq<Row>,
      lost: map<OutcomeId, real>) returns (l1: Ledger)
    requires KeepsBounds(div)
    requires Settling(cat, l, taker, lost) && SideMirrored(l, taker, book)
    requires !Stops(taker, book) && taker.user != book[0].user
    ensures var q := Min(taker.Remaining(), book[0].Remaining());
      && SettleTrade(div, l, taker.side, taker.price, TradeOf(taker, book[0], q)) == Ok(l1)
      && l1.orders == l.orders[book[0].id := FillMaker(book[0], q)] && l1.mints == l.mints
      && book[0].id in l.orders && book[0].id != taker.id
      && Settling(cat, l1, Advanced(taker, q), lost)
  {
    var q := Min(taker.Remaining(), book[0].Remaining());
    assert book[0] in book;
    SettleTradeKeepsFunds(div, cat, l, taker, book[0], q, lost);
    l1 := SettleTrade(div, l, taker.side, taker.price, TradeOf(taker, book[0], q)).value;
  }

  lemma {:induction false} MatchSettlesTrade(div: Division, cat: Catalog, l: Ledger, taker: Row, book: seq<Row>,
      lost: map<OutcomeId, real>)
    requires KeepsBounds(div)
    requires Settling(cat, l, taker, lost) && SideMirrored(l, taker, book)
    requires !Stops(taker, book) && taker.user != book[0].user
    ensures Settles(div, cat, l, taker, book, lost)
    decreases |book|, 0
  {
    var q := Min(taker.Remaining(), book[0].Remaining());
    var l1 := FirstTradeSettles(div, cat, l, taker, book, lost);
    if FillMaker(book[0], q).Remaining() <= 0.0 {
      MirrorAdvances(l, l1, taker, Advanced(taker, q), book, FillMaker(book[0], q));
      MatchSettles(div, cat, l1, Advanced(taker, q), book[1..], lost);
      SettlesAfterFill(div, cat, l, l1, taker, book, q, lost);
    } else {
      SettlesWithPartial(div, cat, l, l1, taker, book, q, lost);
    }
  }
}
