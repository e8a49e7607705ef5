/** The settlement service: resolving and cancelling markets, on the repositories and the
    order service. Every call is proved to do to the platform what World says. */
module SettlementService {
  import opened Domain
  import opened Ledger
  import opened Stores
  import opened Payments
  import opened OrderService
  import opened W = World
  import M = MarketService
  import X = Exchange
  import L = Lifecycle

  /** Whether payments were made as specified; a failure is rolled back, so only the error
      matters. */
  ghost predicate Paid(spec: Result<map<UserId, Account>>, result: Result<()>, users: map<UserId, Account>) {
    match spec
    case Ok(paid) => result == Ok(()) && users == paid
    case Err(e) => result == Err(e)
  }

  lemma PayoutsUnfold(listing: seq<Listed>, winner: OutcomeId, i: nat)
    requires i < |listing|
    ensures Payouts(listing[i..], winner) ==
      (if listing[i].holding.outcome == winner && listing[i].position.quantity > 0.0
       then [Payment(listing[i].holding.user, listing[i].position.quantity)] else [])
      + Payouts(listing[i + 1..], winner)
  {
    assert listing[i..][1..] == listing[i + 1..];
  }

  lemma RefundsUnfold(listing: seq<Listed>, i: nat)
    requires i < |listing|
    ensures var refund := RefundOf(listing[i].position);
      Refunds(listing[i..]) ==
      (if listing[i].position.quantity > 0.0 && refund > 0.0 then [Payment(listing[i].holding.user, refund)] else [])
      + Refunds(listing[i + 1..])
  {
    assert listing[i..][1..] == listing[i + 1..];
  }

  lemma PayFirst(users: map<UserId, Account>, p: Payment, ps: seq<Payment>)
    ensures PayAll(users, [p] + ps) ==
      if p.user !in users then Err(UserNotFound)
      else PayAll(users[p.user := users[p.user].(balance := users[p.user].balance + p.amount)], ps)
  {
    assert ([p] + ps)[1..] == ps;
  }

  lemma PayNone(users: map<UserId, Account>, ps: seq<Payment>)
    ensures PayAll(users, [] + ps) == PayAll(users, ps)
  {
    assert [] + ps == ps;
  }

  /** Credits one payment. */
  method Credit(t: Tables, user: UserId, amount: real, ghost ps: seq<Payment>) returns (result: Result<()>)
    modifies t.users
    ensures result.Err? ==> PayAll(old(t.users.users), [Payment(user, amount)] + ps) == Err(result.error)
    ensures result.Ok? ==> PayAll(old(t.users.users), [Payment(user, amount)] + ps) == PayAll(t.users.users, ps)
  {
    PayFirst(t.users.users, Payment(user, amount), ps);
    var account := t.users.GetByID(user);
    if account.Err? { return Err(account.error); }
    result := t.users.UpdateBalance(user, account.value.balance + amount, account.value.locked);
  }

  /** The payout loop of a resolution. */
  method PayWinners(t: Tables, listing: seq<Listed>, winner: OutcomeId) returns (result: Result<()>)
    modifies t.users
    ensures Paid(PayAll(old(t.users.users), Payouts(listing, winner)), result, t.users.users)
  {
    assert listing[0..] == listing;
    for i := 0 to |listing|
      invariant PayAll(old(t.users.users), Payouts(listing, winner))
             == PayAll(t.users.users, Payouts(listing[i..], winner))
    {
      PayoutsUnfold(listing, winner, i);
      PayNone(t.users.users, Payouts(listing[i + 1..], winner));
      var pos := listing[i];
      if pos.holding.outcome != winner || !(pos.position.quantity > 0.0) { continue; }
      result := Credit(t, pos.holding.user, pos.position.quantity, Payouts(listing[i + 1..], winner));
      if result.Err? { return; }
    }
    result := Ok(());
  }

  /** The refund loop of a market's cancellation. */
  method RefundHolders(t: Tables, listing: seq<Listed>) returns (result: Result<()>)
    modifies t.users
    ensures Paid(PayAll(old(t.users.users), Refunds(listing)), result, t.users.users)
  {
    assert listing[0..] == listing;
    for i := 0 to |listing|
      invariant PayAll(old(t.users.users), Refunds(listing)) == PayAll(t.users.users, Refunds(listing[i..]))
    {
      RefundsUnfold(listing, i);
      PayNone(t.users.users, Refunds(listing[i + 1..]));
      var pos := listing[i];
      if !(pos.position.quantity > 0.0) { continue; }
      var refund := pos.position.quantity * pos.position.avgPrice;
      assert refund == RefundOf(pos.position);
      if refund <= 0.0 { continue; }
      result := Credit(t, pos.holding.user, refund, Refunds(listing[i + 1..]));
      if result.Err? { return; }
    }
    result := Ok(());
  }

  /** The transaction that closes a market and pays: on failure nothing of it remains. */
  ghost predicate ClosedAndPaid(before: Ledger, rows: MarketRows, market: MarketId, closed: L.Market,
      winners: set<OutcomeId>, ps: seq<Payment>, result: Result<()>, after: Ledger, rows': MarketRows)
  {
    match PayAll(before.users, ps)
    case Ok(users) =>
      && result == Ok(()) && after == before.(users := users)
      && rows'.markets == rows.markets[market := closed]
      && rows'.Winners() == winners && rows'.Catalog() == rows.Catalog()
    case Err(e) => result == Err(e) && after == before && rows' == rows
  }

  /** A failed transaction puts back what it had written. */
  method Rollback(t: Tables, m: MarketTables, before: Ledger, rowsBefore: MarketRows)
    modifies m.markets, m.outcomes, t.users, t.positions, t.orders, t.trades
    ensures t.Contents() == before && m.Contents() == rowsBefore
  {
    t.Rollback(before);
    m.Rollback(rowsBefore);
  }

  /** The transaction of a resolution. */
  method ResolveAndPay(t: Tables, m: MarketTables, market: MarketId, winner: OutcomeId)
    returns (result: Result<()>, ghost listing: seq<Listed>)
    requires market in m.markets.markets && winner in m.outcomes.outcomes
    modifies m.markets, m.outcomes, t.users, t.positions, t.orders, t.trades
    ensures ListsPositions(old(t.positions.positions), market, listing)
    ensures ClosedAndPaid(old(t.Contents()), old(m.Contents()), market, L.Market(L.Resolved, Some(winner)),
                          old(m.Contents()).Winners() + {winner}, Payouts(listing, winner),
                          result, t.Contents(), m.Contents())
  {
    var before, rowsBefore := t.Contents(), m.Contents();
    var marked := m.outcomes.SetWinner(winner);
    var updated := m.markets.Update(market, L.Market(L.Resolved, Some(winner)));
    var positions := t.positions.ListByMarket(market);
    listing := positions;
    result := PayWinners(t, positions, winner);
    if result.Err? { Rollback(t, m, before, rowsBefore); }
  }

  /** The transaction of a market's cancellation. */
  method CancelAndRefund(t: Tables, m: MarketTables, market: MarketId)
    returns (result: Result<()>, ghost listing: seq<Listed>)
    requires market in m.markets.markets
    modifies m.markets, m.outcomes, t.users, t.positions, t.orders, t.trades
    ensures ListsPositions(old(t.positions.positions), market, listing)
    ensures var rows := old(m.Contents());
      ClosedAndPaid(old(t.Contents()), rows, market, rows.markets[market].(status := L.Cancelled), rows.Winners(),
                    Refunds(listing), result, t.Contents(), m.Contents())
  {
    var before, rowsBefore := t.Contents(), m.Contents();
    var updated := m.markets.Update(market, rowsBefore.markets[market].(status := L.Cancelled));
    var positions := t.positions.ListByMarket(market);
    listing := positions;
    result := RefundHolders(t, positions);
    if result.Err? { Rollback(t, m, before, rowsBefore); }
  }

  /** Settle, put together from its steps. */
  lemma SettledInSteps(w: World, market: MarketId, closed: L.Market, winners: set<OutcomeId>, orders: seq<Row>,
      ps: seq<Payment>, x: X.Exchange, cancelled: Result<nat>, result: Result<()>, after: Ledger, rows: MarketRows,
      rows': MarketRows)
    requires X.CancelAll(w.x, orders) == X.Reply(x, cancelled) && w == M.Around(w, rows)
    requires cancelled.Ok? ==>
      ClosedAndPaid(x.ledger, rows, market, closed, winners, ps, result, after, rows')
    ensures var settled := Settle(w, market, closed, winners, orders, ps);
      if cancelled.Err? then settled == (w.(x := x), Err(cancelled.error))
      else settled.1 == result && settled.0.x == x.(ledger := after)
           && settled.0.markets == rows'.markets && settled.0.winners == rows'.Winners()
  {
  }

  /** The platform is as specified, the auditor's notes apart. */
  ghost predicate AsSpecified(spec: (World, Result<()>), result: Result<()>, x: X.Exchange, rows: MarketRows) {
    && spec.1 == result && spec.0.x == x
    && spec.0.markets == rows.markets && spec.0.winners == rows.Winners()
  }

  /** The listings the tables gave: of the open orders, and, once these are cancelled, of the
      positions. */
  ghost predicate Listings(w: World, market: MarketId, orders: seq<Row>, listing: seq<Listed>) {
    && X.ListsOpen(w.x.ledger.orders, market, orders)
    && (X.CancelAll(w.x, orders).result.Ok? ==>
          ListsPositions(X.CancelAll(w.x, orders).state.ledger.positions, market, listing))
  }

  class SettlementService {
    const tables: MarketTables
    const trading: OrderService

    constructor (tables: MarketTables, trading: OrderService)
      ensures this.tables == tables && this.trading == trading
    {
      this.tables, this.trading := tables, trading;
    }

    /** The trading side is sound, and the market tables lie outside its books. */
    ghost predicate Valid()
      reads trading.engine, trading.engine.engines.Values, trading.engine.arena
    {
      && trading.Valid()
      && tables.markets !in trading.engine.arena && tables.outcomes !in trading.engine.arena
    }

    /** ResolveAndPay, which leaves the engine alone. */
    method ResolveInTransaction(market: MarketId, winner: OutcomeId)
      returns (result: Result<()>, ghost listing: seq<Listed>)
      requires Valid() && market in tables.markets.markets && winner in tables.outcomes.outcomes
      modifies tables.markets, tables.outcomes
      modifies trading.tables.users, trading.tables.positions, trading.tables.orders, trading.tables.trades
      ensures Valid() && ListsPositions(old(trading.tables.positions.positions), market, listing)
      ensures ClosedAndPaid(old(trading.tables.Contents()), old(tables.Contents()), market,
                            L.Market(L.Resolved, Some(winner)), old(tables.Contents()).Winners() + {winner},
                            Payouts(listing, winner), result, trading.tables.Contents(), tables.Contents())
    {
      result, listing := ResolveAndPay(trading.tables, tables, market, winner);
    }

    /** CancelAndRefund, which leaves the engine alone. */
    method CancelInTransaction(market: MarketId) returns (result: Result<()>, ghost listing: seq<Listed>)
      requires Valid() && market in tables.markets.markets
      modifies tables.markets, tables.outcomes
      modifies trading.tables.users, trading.tables.positions, trading.tables.orders, trading.tables.trades
      ensures Valid() && ListsPositions(old(trading.tables.positions.positions), market, listing)
      ensures var rows := old(tables.Contents());
        ClosedAndPaid(old(trading.tables.Contents()), rows, market, rows.markets[market].(status := L.Cancelled),
                      rows.Winners(), Refunds(listing), result, trading.tables.Contents(), tables.Contents())
    {
      result, listing := CancelAndRefund(trading.tables, tables, market);
    }

    /** Cancels all open orders of the market; its failure ends the call. */
    method CancelOrders(market: MarketId) returns (result: Result<nat>, ghost orders: seq<Row>)
      requires Valid() && trading.tables.orders.Keyed() && IdsOnce(trading.engine.Books())
      modifies trading.engine, trading.engine.arena
      modifies trading.tables.users, trading.tables.positions, trading.tables.orders
      ensures tables.Contents() == old(tables.Contents())
      ensures Valid() && X.ListsOpen(old(trading.tables.orders.orders), market, orders)
      ensures X.CancelAll(old(trading.State()), orders) == X.Reply(trading.State(), result)
    {
      result, orders := trading.CancelAllOrdersByMarket(market);
    }

    /** The part of ResolveMarket that changes anything. */
    method CloseResolved(market: MarketId, winner: OutcomeId, ghost w: World)
      returns (result: Result<()>, ghost orders: seq<Row>, ghost listing: seq<Listed>)
      requires Valid() && trading.tables.orders.Keyed() && IdsOnce(trading.engine.Books())
      requires w.x == trading.State() && w == M.Around(w, tables.Contents())
      requires market in w.markets && winner in tables.outcomes.outcomes
      modifies tables.markets, tables.outcomes, trading.engine, trading.engine.arena
      modifies trading.tables.users, trading.tables.positions, trading.tables.orders, trading.tables.trades
      ensures tables.Contents().Catalog() == old(tables.Contents()).Catalog()
      ensures Valid()
      ensures AsSpecified(Settle(w, market, L.Market(L.Resolved, Some(winner)), w.winners + {winner}, orders,
                                 Payouts(listing, winner)),
                          result, trading.State(), tables.Contents())
      ensures Listings(w, market, orders, listing)
    {
      ghost var closed, rows := L.Market(L.Resolved, Some(winner)), tables.Contents();
      var cancelled;
      cancelled, orders := CancelOrders(market);
      ghost var x := trading.State();
      if cancelled.Err? {
        listing, result := [], Err(cancelled.error);
      } else {
        result, listing := ResolveInTransaction(market, winner);
      }
      SettledInSteps(w, market, closed, w.winners + {winner}, orders, Payouts(listing, winner), x, cancelled, result,
                     trading.tables.Contents(), rows, tables.Contents());
    }

    /** Resolves a closed market: cancels its open orders, then marks it and pays the winners.
        w is the platform before, and the listings the tables gave are returned alongside. */
    method ResolveMarket(market: MarketId, winner: OutcomeId, ghost w: World)
      returns (result: Result<()>, ghost orders: seq<Row>, ghost listing: seq<Listed>)
      requires Valid() && trading.tables.orders.Keyed() && IdsOnce(trading.engine.Books())
      requires w.x == trading.State() && w == M.Around(w, tables.Contents())
      modifies tables.markets, tables.outcomes, trading.engine, trading.engine.arena
      modifies trading.tables.users, trading.tables.positions, trading.tables.orders, trading.tables.trades
      ensures tables.Contents().Catalog() == old(tables.Contents()).Catalog()
      ensures Valid()
      ensures AsSpecified(W.ResolveMarket(old(tables.Contents()).Catalog(), w, market, winner, orders, listing), result,
                          trading.State(), tables.Contents())
      ensures IsClosed(w, market) && OutcomeIn(old(tables.Contents()).Catalog(), market, winner) ==>
        Listings(w, market, orders, listing)
    {
      orders, listing := [], [];
      var found := tables.markets.GetByID(market);
      if found.Err? { return Err(found.error), [], []; }
      if found.value.status != L.Closed { return Err(BadRequest), [], []; }
      var outcomes := tables.outcomes.ListByMarket(market);
      var listed := M.Lists(outcomes, winner);
      if !listed { return Err(BadRequest), [], []; }
      result, orders, listing := CloseResolved(market, winner, w);
    }

    /** The part of CancelMarket that changes anything. */
    method CloseCancelled(market: MarketId, ghost w: World)
      returns (result: Result<()>, ghost orders: seq<Row>, ghost listing: seq<Listed>)
      requires Valid() && trading.tables.orders.Keyed() && IdsOnce(trading.engine.Books())
      requires w.x == trading.State() && w == M.Around(w, tables.Contents()) && market in w.markets
      modifies tables.markets, tables.outcomes, trading.engine, trading.engine.arena
      modifies trading.tables.users, trading.tables.positions, trading.tables.orders, trading.tables.trades
      ensures tables.Contents().Catalog() == old(tables.Contents()).Catalog()
      ensures Valid()
      ensures AsSpecified(Settle(w, market, w.markets[market].(status := L.Cancelled), w.winners, orders,
                                 Refunds(listing)),
                          result, trading.State(), tables.Contents())
      ensures Listings(w, market, orders, listing)
    {
      ghost var closed, rows := w.markets[market].(status := L.Cancelled), tables.Contents();
      var cancelled;
      cancelled, orders := CancelOrders(market);
      ghost var x := trading.State();
      if cancelled.Err? {
        listing, result := [], Err(cancelled.error);
      } else {
        result, listing := CancelInTransaction(market);
      }
      SettledInSteps(w, market, closed, w.winners, orders, Refunds(listing), x, cancelled, result,
                     trading.tables.Contents(), rows, tables.Contents());
    }

    /** Cancels a closed market: cancels its open orders, then marks it and refunds every
        holder at the average price. */
    method CancelMarket(market: MarketId, ghost w: World)
      returns (result: Result<()>, ghost orders: seq<Row>, ghost listing: seq<Listed>)
      requires Valid() && trading.tables.orders.Keyed() && IdsOnce(trading.engine.Books())
      requires w.x == trading.State() && w == M.Around(w, tables.Contents())
      modifies tables.markets, tables.outcomes, trading.engine, trading.engine.arena
      modifies trading.tables.users, trading.tables.positions, trading.tables.orders, trading.tables.trades
      ensures tables.Contents().Catalog() == old(tables.Contents()).Catalog()
      ensures Valid()
      ensures AsSpecified(W.CancelMarket(w, market, orders, listing), result, trading.State(), tables.Contents())
      ensures IsClosed(w, market) ==> Listings(w, market, orders, listing)
    {
      orders, listing := [], [];
      var found := tables.markets.GetByID(market);
      if found.Err? { return Err(found.error), [], []; }
      if found.value.status != L.Closed { return Err(BadRequest), [], []; }
      result, orders, listing := CloseCancelled(market, w);
    }
  }
}
