/** The order service: placing, cancelling and cancelling-all, on the repositories and the
    matching engine. Every call is proved to do to both what Exchange says. */
module OrderService {
  import opened Domain
  import opened FlatBook
  import opened MatchedBook
  import opened Ledger
  import opened X = Exchange
  import opened Stores
  import opened Registry
  import opened BookFamily
  import opened Agreement
  import E = Engine

  /** Whether a call left the tables as its specification says; after an error inside a
      transaction the tables are rolled back, so only the error matters. */
  ghost predicate Did(spec: Result<Ledger>, result: Result<()>, after: Ledger) {
    match spec
    case Ok(l) => result == Ok(()) && after == l
    case Err(e) => result == Err(e)
  }

  /** Locks the funds of a buy, or takes the shares of a sell out of the position. */
  method TakeEscrow(t: Tables, r: Row) returns (result: Result<()>)
    modifies t.users, t.positions
    ensures Did(Escrow(old(t.Contents()), r), result, t.Contents())
  {
    if r.side == Buy {
      var cost := r.price * r.quantity;
      var user := t.users.GetByID(r.user);
      if user.Err? { return Err(user.error); }
      if user.value.balance < cost { return Err(InsufficientBalance); }
      var newBalance, newLocked := user.value.balance - cost, user.value.locked + cost;
      assert Escrow(t.Contents(), r).value.users[r.user] == Account(newBalance, newLocked);
      result := t.users.UpdateBalance(r.user, newBalance, newLocked);
    } else {
      var pos := t.positions.GetByUserAndOutcome(Holding(r.user, r.outcome));
      if pos.Err? { return Err(pos.error); }
      if pos.value.quantity < r.quantity { return Err(InsufficientBalance); }
      t.positions.Upsert(Holding(r.user, r.outcome), pos.value.(quantity := pos.value.quantity - r.quantity));
      result := Ok(());
    }
  }

  /** Releases the buyer's locked funds and refunds what the trade price saves. */
  method SettleBuyer(t: Tables, side: Side, limit: real, trade: Trade, div: Division) returns (result: Result<()>)
    modifies t.users, t.positions
    ensures var buyer := Buyer(side, trade); var users := old(t.users.users);
      if buyer !in users then result == Err(UserNotFound)
      else
        && result == Ok(())
        && t.users.users
             == users[buyer := PayBuyer(users[buyer], BuyerLimit(side, limit, trade), trade.price, trade.quantity)]
        && t.positions.positions == old(t.positions.positions)[
             Holding(buyer, trade.outcome) := Bought(div, old(t.positions.positions), buyer, trade)]
  {
    var buyer := if side == Buy then trade.takerUser else trade.makerUser;
    var buyerPrice := if side == Buy then limit else trade.price;
    var user := t.users.GetByID(buyer);
    if user.Err? { return Err(user.error); }
    var lockedReduction := buyerPrice * trade.quantity;
    var refund := (buyerPrice - trade.price) * trade.quantity;
    var newBalance, newLocked := user.value.balance + refund, user.value.locked - lockedReduction;
    assert Account(newBalance, newLocked)
        == PayBuyer(user.value, BuyerLimit(side, limit, trade), trade.price, trade.quantity);
    result := t.users.UpdateBalance(buyer, newBalance, newLocked);
    var found := t.positions.GetByUserAndOutcome(Holding(buyer, trade.outcome));
    var pos := if found.Ok? then found.value else Position(trade.market, 0.0, 0.0);
    var totalCost := pos.avgPrice * pos.quantity + trade.price * trade.quantity;
    var quantity := pos.quantity + trade.quantity;
    var avgPrice := if quantity > 0.0 then div(totalCost, quantity) else pos.avgPrice;
    assert totalCost == TotalCost(pos, trade.price, trade.quantity);
    t.positions.Upsert(Holding(buyer, trade.outcome), Position(pos.market, quantity, avgPrice));
  }

  /** Credits the seller's proceeds. */
  method SettleSeller(t: Tables, side: Side, trade: Trade) returns (result: Result<()>)
    modifies t.users
    ensures var seller := Seller(side, trade); var users := old(t.users.users);
      if seller !in users then result == Err(UserNotFound)
      else result == Ok(()) && t.users.users == users[seller := PaySeller(users[seller], trade.price, trade.quantity)]
  {
    var seller := if side == Buy then trade.makerUser else trade.takerUser;
    var user := t.users.GetByID(seller);
    if user.Err? { return Err(user.error); }
    var proceeds := trade.price * trade.quantity;
    var newBalance := user.value.balance + proceeds;
    assert Account(newBalance, user.value.locked) == PaySeller(user.value, trade.price, trade.quantity);
    result := t.users.UpdateBalance(seller, newBalance, user.value.locked);
  }

  /** Writes the maker's new fill and status, computed from the table's own copy. */
  method SettleMaker(t: Tables, trade: Trade) returns (result: Result<()>)
    modifies t.orders
    ensures var orders := old(t.orders.orders); var id := trade.makerOrder;
      if id !in orders then result == Err(OrderNotFound)
      else result == Ok(()) && t.orders.orders == orders[id := FillRow(orders[id], trade.quantity)]
  {
    var maker := t.orders.GetByID(trade.makerOrder);
    if maker.Err? { return Err(maker.error); }
    var newFilled := maker.value.filled + trade.quantity;
    var status := if newFilled >= maker.value.quantity then Filled else Partial;
    result := t.orders.UpdateStatus(trade.makerOrder, status, newFilled);
  }

  /** One turn of the settlement loop. */
  method SettleOne(t: Tables, side: Side, limit: real, trade: Trade, div: Division) returns (result: Result<()>)
    modifies t.users, t.positions, t.orders, t.trades
    ensures Did(SettleTrade(div, old(t.Contents()), side, limit, trade), result, t.Contents())
  {
    t.trades.Create(trade);
    result := SettleBuyer(t, side, limit, trade, div);
    if result.Err? { return; }
    result := SettleSeller(t, side, trade);
    if result.Err? { return; }
    result := SettleMaker(t, trade);
  }

  lemma SettleAllStep(div: Division, l: Ledger, side: Side, limit: real, trades: seq<Trade>, i: nat)
    requires i < |trades|
    ensures SettleAll(div, l, side, limit, trades[i..]) ==
      match SettleTrade(div, l, side, limit, trades[i])
      case Err(e) => Err(e)
      case Ok(l') => SettleAll(div, l', side, limit, trades[i + 1..])
  {
    assert trades[i..][1..] == trades[i + 1..];
  }

  /** The settlement loop. */
  method SettleTrades(t: Tables, side: Side, limit: real, trades: seq<Trade>, div: Division)
    returns (result: Result<()>)
    modifies t.users, t.positions, t.orders, t.trades
    ensures Did(SettleAll(div, old(t.Contents()), side, limit, trades), result, t.Contents())
  {
    assert trades[0..] == trades;
    for i := 0 to |trades|
      invariant SettleAll(div, old(t.Contents()), side, limit, trades)
             == SettleAll(div, t.Contents(), side, limit, trades[i..])
    {
      SettleAllStep(div, t.Contents(), side, limit, trades, i);
      result := SettleOne(t, side, limit, trades[i], div);
      if result.Err? { return; }
    }
    result := Ok(());
  }

  /** Settling what the engine answered: all its trades, then the taker's own row. */
  method SettleMatch(t: Tables, ghost r: Row, order: Row, trades: seq<Trade>, div: Division,
      ghost m: Matched) returns (result: Result<()>)
    requires trades == m.trades && order == Settled(m.taker) && order.side == r.side && order.price == r.price
    modifies t.users, t.positions, t.orders, t.trades
    ensures Did(SettlePlacement(div, old(t.Contents()), r, m), result, t.Contents())
  {
    result := SettleTrades(t, order.side, order.price, trades, div);
    if result.Err? { return; }
    if order.filled > 0.0 {
      result := t.orders.UpdateStatus(order.id, order.status, order.filled);
    }
  }

  /** Escrow, then the order's row. */
  function Opening(l: Ledger, r: Row): Result<Ledger> {
    match Escrow(l, r)
    case Err(e) => Err(e)
    case Ok(l') => if r.id in l'.orders then Err(OrderExists) else Ok(l'.(orders := l'.orders[r.id := r]))
  }

  method OpenOrder(t: Tables, r: Row) returns (result: Result<()>)
    modifies t.users, t.positions, t.orders
    ensures Did(Opening(old(t.Contents()), r), result, t.Contents())
  {
    result := TakeEscrow(t, r);
    if result.Err? { return; }
    result := t.orders.Create(r);
  }

  /** What the engine answered and made of the books, given the books before. */
  ghost predicate EngineDid(books: map<BookKey, Book>, r: Row, result: Result<E.MatchResult>, order: Row,
      books': map<BookKey, Book>) {
    var m := Match(r, BookAt(books, KeyOf(r)).SideRows(r.side.Opposite()));
    if r.quantity <= 0.0 then result == Err(InvalidQuantity) && books' == books
    else
      && result.Ok? && result.value.trades == m.trades && order == Settled(m.taker)
      && books' == books[KeyOf(r) := Place(BookAt(books, KeyOf(r)), r)]
  }

  /** The registry's PlaceOrder, in the terms of the books. */
  method PlaceInEngine(engine: Registry, order: Order) returns (result: Result<E.MatchResult>)
    requires engine.Valid() && order !in engine.arena && PriceInRange(order.price)
    requires FreshIn(ViewAt(engine.shelves, BookKey(order.market, order.outcome)), order.id)
    modifies engine, engine.engines.Values, engine.arena, order
    ensures engine.Valid()
    ensures EngineDid(old(engine.Books()), old(order.Snapshot()), result, order.Snapshot(), engine.Books())
    ensures forall x: object | old(allocated(x)) && x in engine.arena :: x in old(engine.arena) || x == order
  {
    result := engine.PlaceOrder(order);
  }

  /** PlaceOrder, put together from its steps. */
  lemma PlacedInSteps(div: Division, x: X.Exchange, r: Row, begun: Result<()>, l: Ledger,
                      matched: Result<E.MatchResult>, order: Row, books: map<BookKey, Book>,
                      settled: Result<()>, l': Ledger)
    requires PriceInRange(r.price) && Did(Opening(x.ledger, r), begun, l)
    requires begun.Ok? ==> EngineDid(x.books, r, matched, order, books)
    requires begun.Ok? && matched.Ok? ==> Did(SettlePlacement(div, l, r, MatchAt(x, r)), settled, l')
    ensures var reply := PlaceOrder(div, x, r);
      if begun.Err? then reply == Reply(x, Err(begun.error))
      else if matched.Err? then reply == Reply(x, Err(matched.error)) && books == x.books
      else if settled.Err? then reply == Reply(X.Exchange(x.ledger, books), Err(settled.error))
      else reply == Reply(X.Exchange(l', books), Ok(Placed(order, matched.value.trades)))
  {
  }

  ghost predicate RestsIn(books: map<BookKey, Book>, key: BookKey, id: OrderId) {
    key in books && !FreshIn(books[key], id)
  }

  /** No identifier rests in two books of an outcome. */
  ghost predicate IdsOnce(books: map<BookKey, Book>) {
    forall a, b, id | RestsIn(books, a, id) && RestsIn(books, b, id) :: a.outcome == b.outcome ==> a == b
  }

  lemma AgreementKeepsIdsOnce(orders: map<OrderId, Row>, books: map<BookKey, Book>)
    requires Agree(orders, books)
    ensures IdsOnce(books)
  {
    forall a, b, id | RestsIn(books, a, id) && RestsIn(books, b, id) ensures a == b {
      RestsOnlyAtItsKey(orders, books, a, id);
      RestsOnlyAtItsKey(orders, books, b, id);
    }
  }

  /** The engine's search finds the one book there is to find. */
  lemma SearchFinds(books: map<BookKey, Book>, outcome: OutcomeId, id: OrderId, found: bool, books': map<BookKey, Book>)
    requires IdsOnce(books) && CancelsIn(books, outcome, id, found, books')
    ensures CancelInBooks(books, outcome, id) == if found then Some(books') else None
  {
    if found {
      var key :| HeldAt(books, key, outcome, id) && books' == books[key := Cancel(books[key], id)];
      forall k | HeldAt(books, k, outcome, id) ensures k == key {
        assert RestsIn(books, k, id) && RestsIn(books, key, id);
      }
    }
  }

  lemma {:induction false} RemovedStaysOut(s: seq<Row>, id: OrderId, x: OrderId)
    requires !HasId(s, x)
    ensures !HasId(RemoveId(s, id), x)
  {
    if s != [] && s[0].id != id {
      assert forall i | 0 <= i < |s[1..]| :: s[1..][i] == s[i + 1];
      RemovedStaysOut(s[1..], id, x);
    } else if s != [] {
      assert forall i | 0 <= i < |s[1..]| :: s[1..][i] == s[i + 1];
    }
  }

  lemma StillOut(books: map<BookKey, Book>, key: BookKey, id: OrderId, x: OrderId)
    ensures key in books && FreshIn(books[key], x) ==> FreshIn(Cancel(books[key], id), x)
  {
    if key in books && FreshIn(books[key], x) {
      RemovedStaysOut(books[key].bids, id, x);
      RemovedStaysOut(books[key].asks, id, x);
    }
  }

  lemma CancelKeepsIdsOnce(books: map<BookKey, Book>, outcome: OutcomeId, id: OrderId, books': map<BookKey, Book>)
    requires IdsOnce(books) && CancelInBooks(books, outcome, id) == Some(books')
    ensures IdsOnce(books')
  {
    forall a, b, x | RestsIn(books', a, x) && RestsIn(books', b, x)
      ensures RestsIn(books, a, x) && RestsIn(books, b, x)
    {
      StillOut(books, a, id, x);
      StillOut(books, b, id, x);
    }
  }

  /** Gives a cancelled buy's unfilled cost back. */
  method Release(t: Tables, order: Row) returns (result: Result<()>)
    modifies t.users
    ensures Did(ReleaseFunds(old(t.Contents()), order), result, t.Contents())
    ensures result.Err? ==> t.Contents() == old(t.Contents())
  {
    var unfilledQty := order.quantity - order.filled;
    var unfilledCost := unfilledQty * order.price;
    var user := t.users.GetByID(order.user);
    if user.Err? { return Err(user.error); }
    var newBalance, newLocked := user.value.balance + unfilledCost, user.value.locked - unfilledCost;
    assert ReleaseFunds(t.Contents(), order).value.users[order.user] == Account(newBalance, newLocked);
    result := t.users.UpdateBalance(order.user, newBalance, newLocked);
  }

  /** Gives a cancelled sell's unfilled quantity back. */
  method ReturnShares(t: Tables, order: Row) returns (result: Result<()>)
    modifies t.positions
    ensures Did(RestoreShares(old(t.Contents()), order), result, t.Contents())
    ensures result.Err? ==> t.Contents() == old(t.Contents())
  {
    var h := Holding(order.user, order.outcome);
    var unfilledQty := order.quantity - order.filled;
    var pos := t.positions.GetByUserAndOutcome(h);
    if pos.Err? { return Err(pos.error); }
    t.positions.Upsert(h, pos.value.(quantity := pos.value.quantity + unfilledQty));
    result := Ok(());
  }

  /** What a cancellation does to the tables once the engine has found the order: funds or
      shares go back, and the row is marked. */
  function CancelLedger(l: Ledger, r: Row, returned: Result<Ledger>): (Ledger, Result<()>) {
    match returned
    case Err(e) => (l, Err(e))
    case Ok(l') =>
      match SetStatus(l', r.id, Cancelled, r.filled)
      case Err(e) => (l', Err(e))
      case Ok(l'') => (l'', Ok(()))
  }

  method MarkRow(t: Tables, order: Row) returns (result: Result<()>)
    modifies t.orders
    ensures CancelLedger(old(t.Contents()), order, Ok(old(t.Contents()))) == (t.Contents(), result)
  {
    result := t.orders.UpdateStatus(order.id, Cancelled, order.filled);
  }

  /** CancelOrder's part on the tables: only a buy gets anything back. */
  method CancelInTables(t: Tables, order: Row) returns (result: Result<()>)
    modifies t.users, t.orders
    ensures var l := old(t.Contents());
      CancelLedger(l, order, Releasing(l, order)) == (t.Contents(), result)
  {
    if order.side == Buy {
      result := Release(t, order);
      if result.Err? { return; }
    }
    result := MarkRow(t, order);
  }

  /** CancelAllOrdersByMarket's part on the tables, for one order. */
  method CancelAndReturn(t: Tables, order: Row) returns (result: Result<()>)
    modifies t.users, t.positions, t.orders
    ensures var l := old(t.Contents());
      CancelLedger(l, order, Returning(l, order)) == (t.Contents(), result)
  {
    if order.side == Buy {
      result := Release(t, order);
    } else {
      result := ReturnShares(t, order);
    }
    if result.Err? { return; }
    result := MarkRow(t, order);
  }

  /** CancelOrder, put together from its steps. */
  lemma CancelledInSteps(x: X.Exchange, user: UserId, id: OrderId, books: Option<map<BookKey, Book>>, l: Ledger,
      result: Result<()>)
    requires id in x.ledger.orders && x.ledger.orders[id].id == id && x.ledger.orders[id].user == user
    requires CancelInBooks(x.books, x.ledger.orders[id].outcome, id) == books
    requires var r := x.ledger.orders[id];
      books.Some? ==> CancelLedger(x.ledger, r, Releasing(x.ledger, r)) == (l, result)
    ensures X.CancelOrder(x, user, id) ==
      if books.None? then Reply(x, Err(OrderNotFound)) else Reply(X.Exchange(l, books.value), result)
  {
  }

  /** A turn of cancel-all, put together from its steps. */
  lemma CancelledListedInSteps(x: X.Exchange, r: Row, books: Option<map<BookKey, Book>>, l: Ledger, result: Result<()>)
    requires CancelInBooks(x.books, r.outcome, r.id) == books
    requires books.Some? ==>
      CancelLedger(x.ledger, r, Returning(x.ledger, r)) == (l, result)
    ensures CancelListed(x, r) ==
      if books.None? then Reply(x, Err(OrderNotFound)) else Reply(X.Exchange(l, books.value), result)
  {
  }

  lemma NothingListed(x: X.Exchange, r: Row)
    requires CancelInBooks(x.books, r.outcome, r.id) == None
    ensures CancelListed(x, r) == Reply(x, Err(OrderNotFound))
  {
  }

  /** A reply of cancel-all when some orders had been cancelled before it. */
  ghost function Counted(reply: Reply<nat>, before: nat): Reply<nat> {
    match reply.result
    case Err(e) => reply
    case Ok(n) => Reply(reply.state, Ok(n + before))
  }

  /** Cancelling all orders from x on is cancelling the rest from here on. */
  ghost predicate CancelledSoFar(x: X.Exchange, orders: seq<Row>, i: nat, now: X.Exchange)
    requires i <= |orders|
  {
    CancelAll(x, orders) == Counted(CancelAll(now, orders[i..]), i)
  }

  lemma NoneCancelledYet(x: X.Exchange, orders: seq<Row>)
    ensures CancelledSoFar(x, orders, 0, x)
  {
    assert orders[0..] == orders;
  }

  lemma CountedTwice(reply: Reply<nat>, once: Reply<nat>, i: nat)
    requires once == Counted(reply, 1)
    ensures Counted(once, i) == Counted(reply, i + 1)
  {
  }

  lemma CancelAllUnfolds(x: X.Exchange, listing: seq<Row>, x': X.Exchange, cancelled: Result<()>)
    requires listing != [] && CancelListed(x, listing[0]) == Reply(x', cancelled)
    ensures cancelled.Err? ==> CancelAll(x, listing) == Reply(x', Err(cancelled.error))
    ensures cancelled.Ok? ==> CancelAll(x, listing) == Counted(CancelAll(x', listing[1..]), 1)
  {
  }

  lemma OneMoreCancelled(x: X.Exchange, orders: seq<Row>, i: nat, now: X.Exchange, after: X.Exchange,
      cancelled: Result<()>)
    requires i < |orders| && CancelledSoFar(x, orders, i, now)
        && CancelListed(now, orders[i]) == Reply(after, cancelled)
    ensures cancelled.Err? ==> CancelAll(x, orders) == Reply(after, Err(cancelled.error))
    ensures cancelled.Ok? ==> CancelledSoFar(x, orders, i + 1, after)
  {
    var rest := orders[i..];
    assert rest[0] == orders[i] && rest[1..] == orders[i + 1..];
    CancelAllUnfolds(now, rest, after, cancelled);
    if cancelled.Ok? {
      CountedTwice(CancelAll(after, rest[1..]), CancelAll(now, rest), i);
    }
  }

  lemma AllAreCancelled(x: X.Exchange, orders: seq<Row>, now: X.Exchange)
    requires CancelledSoFar(x, orders, |orders|, now)
    ensures CancelAll(x, orders) == Reply(now, Ok(|orders|))
  {
    assert orders[|orders|..] == [];
  }

  /** The books are as replied, and so is the ledger, up to the rollback of a failure. */
  ghost predicate PlacedAs(reply: Reply<Placed>, result: Result<Placed>, before: X.Exchange, after: X.Exchange) {
    && result == reply.result && after.books == reply.state.books
    && reply.state.ledger == if result.Ok? then after.ledger else before.ledger
  }

  /** Matching changes nothing of an order but its fill and status. */
  lemma {:induction false} MatchKeepsTerms(r: Row, book: seq<Row>)
    ensures var t := Match(r, book).taker; t.side == r.side && t.price == r.price && t == r.(filled := t.filled)
    decreases |book|
  {
    if !Stops(r, book) {
      if r.user == book[0].user {
        MatchKeepsTerms(r, book[1..]);
      } else {
        var q := Min(r.Remaining(), book[0].Remaining());
        if FillMaker(book[0], q).Remaining() <= 0.0 { MatchKeepsTerms(r.(filled := r.filled + q), book[1..]); }
      }
    }
  }

  class OrderService {
    const tables: Tables
    const engine: Registry
    const div: Division

    constructor (tables: Tables, engine: Registry, div: Division)
      ensures this.tables == tables && this.engine == engine && this.div == div
    {
      this.tables, this.engine, this.div := tables, engine, div;
    }

    /** The engine is sound and the tables lie outside its books. */
    ghost predicate Valid()
      reads engine, engine.engines.Values, engine.arena
    {
      && engine.Valid()
      && tables.users !in engine.arena && tables.positions !in engine.arena
      && tables.orders !in engine.arena && tables.trades !in engine.arena
    }

    ghost function State(): X.Exchange
      reads engine, tables.users, tables.positions, tables.orders, tables.trades
    {
      X.Exchange(tables.Contents(), engine.Books())
    }

    /** OpenOrder, which leaves the engine alone. */
    method Begin(r: Row) returns (result: Result<()>)
      requires Valid()
      modifies tables.users, tables.positions, tables.orders
      ensures Valid() && Did(Opening(old(tables.Contents()), r), result, tables.Contents())
    {
      result := OpenOrder(tables, r);
    }

    /** The call into the engine; the tables are not touched by it. */
    method SendOrder(order: Order) returns (result: Result<E.MatchResult>)
      requires Valid() && order !in engine.arena && PriceInRange(order.price)
      requires FreshIn(ViewAt(engine.shelves, BookKey(order.market, order.outcome)), order.id)
      modifies engine, engine.engines.Values, engine.arena, order
      ensures tables.Contents() == old(tables.Contents())
      ensures Valid()
      ensures EngineDid(old(engine.Books()), old(order.Snapshot()), result, order.Snapshot(), engine.Books())
    {
      result := PlaceInEngine(engine, order);
    }

    /** SendOrder, with an order object of its own. */
    method SendToEngine(r: Row) returns (result: Result<E.MatchResult>, after: Row)
      requires Valid() && PriceInRange(r.price) && FreshIn(ViewAt(engine.shelves, KeyOf(r)), r.id)
      modifies engine, engine.engines.Values, engine.arena
      ensures Valid() && EngineDid(old(engine.Books()), r, result, after, engine.Books())
      ensures tables.Contents() == old(tables.Contents())
    {
      var order := new Order(r);
      result := SendOrder(order);
      after := order.Snapshot();
    }

    /** SettleMatch, which leaves the engine alone. */
    method Finish(ghost r: Row, order: Row, trades: seq<Trade>, ghost m: Matched) returns (result: Result<()>)
      requires Valid() && trades == m.trades && order == Settled(m.taker) && order.side == r.side
          && order.price == r.price
      modifies tables.users, tables.positions, tables.orders, tables.trades
      ensures Valid() && Did(SettlePlacement(div, old(tables.Contents()), r, m), result, tables.Contents())
    {
      result := SettleMatch(tables, r, order, trades, div, m);
    }

    /** PlaceOrder from the call into the engine on; x is the state before the transaction. */
    method PlaceOpened(r: Row, ghost x: X.Exchange) returns (result: Result<Placed>)
      requires Valid() && PriceInRange(r.price) && FreshIn(ViewAt(engine.shelves, KeyOf(r)), r.id)
      requires Opening(x.ledger, r) == Ok(tables.Contents()) && engine.Books() == x.books
      modifies engine, engine.engines.Values, engine.arena, tables.users, tables.positions, tables.orders, tables.trades
      ensures Valid() && PlacedAs(X.PlaceOrder(div, x, r), result, x, State())
    {
      ghost var l, begun: Result<()> := tables.Contents(), Ok(());
      var matched, order := SendToEngine(r);
      if matched.Err? {
        PlacedInSteps(div, x, r, begun, l, matched, order, engine.Books(), begun, l);
        return Err(matched.error);
      }
      var trades := matched.value.trades;
      MatchKeepsTerms(r, BookAt(x.books, KeyOf(r)).SideRows(r.side.Opposite()));
      var done := Finish(r, order, trades, MatchAt(x, r));
      PlacedInSteps(div, x, r, begun, l, matched, order, engine.Books(), done, tables.Contents());
      result := if done.Err? then Err(done.error) else Ok(Placed(order, trades));
    }

    /** The body of PlaceOrder's transaction. */
    method PlaceInTransaction(r: Row, ghost x: X.Exchange) returns (result: Result<Placed>)
      requires Valid() && PriceInRange(r.price) && FreshIn(ViewAt(engine.shelves, KeyOf(r)), r.id) && x == State()
      modifies engine, engine.engines.Values, engine.arena, tables.users, tables.positions, tables.orders, tables.trades
      ensures Valid() && PlacedAs(X.PlaceOrder(div, x, r), result, x, State())
    {
      var begun := Begin(r);
      if begun.Err? {
        PlacedInSteps(div, x, r, begun, x.ledger, Err(InvalidPrice), r, x.books, begun, x.ledger);
        return Err(begun.error);
      }
      result := PlaceOpened(r, x);
    }

    method Undo(before: Ledger)
      requires Valid()
      modifies tables.users, tables.positions, tables.orders, tables.trades
      ensures Valid() && tables.Contents() == before
    {
      tables.Rollback(before);
    }

    /** Places an order for a request, under a new identifier; a failure puts the tables back,
        but not the books. */
    method PlaceOrder(user: UserId, market: MarketId, outcome: OutcomeId, side: Side, price: real, quantity: real,
        id: OrderId)
      returns (result: Result<Placed>)
      requires Valid() && FreshIn(ViewAt(engine.shelves, BookKey(market, outcome)), id)
      modifies engine, engine.engines.Values, engine.arena, tables.users, tables.positions, tables.orders, tables.trades
      ensures Valid()
      ensures X.PlaceOrder(div, old(State()), Row(id, user, market, outcome, side, price, quantity, 0.0, Open))
           == Reply(State(), result)
    {
      ghost var x := State();
      if price < MIN_PRICE || price > MAX_PRICE { return Err(InvalidPrice); }
      var before := tables.Contents();
      result := PlaceInTransaction(Row(id, user, market, outcome, side, price, quantity, 0.0, Open), x);
      if result.Err? { Undo(before); }
    }

    /** The engine's part of a cancellation; the tables are not touched by it. */
    method CancelInEngine(outcome: OutcomeId, id: OrderId, ghost x: X.Exchange) returns (result: Result<Order>)
      requires Valid() && IdsOnce(engine.Books()) && x == State()
      modifies engine, engine.arena
      ensures tables.Contents() == x.ledger && engine.engines == old(engine.engines)
          && engine.arena == old(engine.arena)
      ensures Valid() && IdsOnce(engine.Books())
      ensures result.Ok? ==> result.value.id == id && result.value.status == Cancelled
      ensures result.Ok? ==> CancelInBooks(x.books, outcome, id) == Some(engine.Books())
      ensures result.Err? ==> CancelInBooks(x.books, outcome, id) == None && engine.Books() == x.books
    {
      result := engine.CancelOrder(outcome, id);
      SearchFinds(x.books, outcome, id, result.Ok?, engine.Books());
      if result.Ok? { CancelKeepsIdsOnce(x.books, outcome, id, engine.Books()); }
    }

    /** CancelInTables, which leaves the engine alone. */
    method FinishCancel(order: Row) returns (result: Result<()>)
      requires Valid()
      modifies tables.users, tables.orders
      ensures Valid()
      ensures var l := old(tables.Contents());
        CancelLedger(l, order, Releasing(l, order)) == (tables.Contents(), result)
    {
      result := CancelInTables(tables, order);
    }

    /** CancelOrder, once the engine has found the order. */
    method CancelFound(order: Row, ghost x: X.Exchange) returns (result: Result<()>)
      requires Valid() && x.ledger == tables.Contents()
      requires order.id in x.ledger.orders && x.ledger.orders[order.id] == order
      requires CancelInBooks(x.books, order.outcome, order.id) == Some(engine.Books())
      modifies tables.users, tables.orders
      ensures Valid() && X.CancelOrder(x, order.user, order.id) == Reply(State(), result)
    {
      result := FinishCancel(order);
      CancelledInSteps(x, order.user, order.id, Some(engine.Books()), tables.Contents(), result);
    }

    /** CancelOrder, once the order is known to be the user's. */
    method CancelOwn(order: Row, ghost x: X.Exchange) returns (result: Result<()>)
      requires Valid() && IdsOnce(engine.Books()) && x == State()
      requires order.id in x.ledger.orders && x.ledger.orders[order.id] == order
      modifies engine, engine.arena, tables.users, tables.orders
      ensures Valid() && X.CancelOrder(x, order.user, order.id) == Reply(State(), result)
    {
      var cancelled := CancelInEngine(order.outcome, order.id, x);
      if cancelled.Err? {
        CancelledInSteps(x, order.user, order.id, None, x.ledger, Ok(()));
        return Err(OrderNotFound);
      }
      result := CancelFound(order, x);
    }

    /** Cancels a user's order: in the engine first, then in the tables. */
    method CancelOrder(user: UserId, id: OrderId) returns (result: Result<()>)
      requires Valid() && tables.orders.Keyed() && IdsOnce(engine.Books())
      modifies engine, engine.arena, tables.users, tables.orders
      ensures Valid() && X.CancelOrder(old(State()), user, id) == Reply(State(), result)
    {
      ghost var x := State();
      var order := tables.orders.GetByID(id);
      if order.Err? { return Err(order.error); }
      if order.value.user != user { return Err(Forbidden); }
      result := CancelOwn(order.value, x);
    }

    /** FinishCancel for cancel-all, where a sell gets its shares back. */
    method FinishListed(order: Row) returns (result: Result<()>)
      requires Valid()
      modifies tables.users, tables.positions, tables.orders
      ensures Valid()
      ensures var l := old(tables.Contents());
        CancelLedger(l, order, Returning(l, order)) == (tables.Contents(), result)
    {
      result := CancelAndReturn(tables, order);
    }

    /** A turn of cancel-all, once the engine has found the order. */
    method CancelListedFound(order: Row, ghost x: X.Exchange) returns (result: Result<()>)
      requires Valid() && IdsOnce(engine.Books()) && x.ledger == tables.Contents()
      requires CancelInBooks(x.books, order.outcome, order.id) == Some(engine.Books())
      modifies tables.users, tables.positions, tables.orders
      ensures Valid() && IdsOnce(engine.Books())
      ensures CancelListed(x, order) == Reply(State(), result)
    {
      result := FinishListed(order);
      CancelledListedInSteps(x, order, Some(engine.Books()), tables.Contents(), result);
    }

    /** One turn of the cancel-all loop. */
    method CancelOne(order: Row, ghost x: X.Exchange) returns (result: Result<()>)
      requires Valid() && IdsOnce(engine.Books()) && x == State()
      modifies engine, engine.arena, tables.users, tables.positions, tables.orders
      ensures engine.arena == old(engine.arena)
      ensures Valid() && IdsOnce(engine.Books())
      ensures CancelListed(x, order) == Reply(State(), result)
    {
      var cancelled := CancelInEngine(order.outcome, order.id, x);
      if cancelled.Ok? {
        result := CancelListedFound(order, x);
      } else {
        NothingListed(x, order);
        result := Err(OrderNotFound);
      }
    }

    /** Cancels listed orders one by one, stopping at the first failure. */
    method CancelEach(orders: seq<Row>, ghost x: X.Exchange) returns (result: Result<nat>)
      requires Valid() && IdsOnce(engine.Books()) && x == State()
      modifies engine, engine.arena, tables.users, tables.positions, tables.orders
      ensures Valid() && engine.arena == old(engine.arena) && CancelAll(x, orders) == Reply(State(), result)
    {
      var count: nat := 0;
      NoneCancelledYet(x, orders);
      for i := 0 to |orders|
        invariant count == i && Valid() && engine.arena == old(engine.arena) && IdsOnce(engine.Books())
        invariant CancelledSoFar(x, orders, i, State())
      {
        ghost var before := State();
        var cancelled := CancelOne(orders[i], before);
        OneMoreCancelled(x, orders, i, before, State(), cancelled);
        if cancelled.Err? { return Err(cancelled.error); }
        count := count + 1;
      }
      AllAreCancelled(x, orders, State());
      result := Ok(count);
    }

    /** Cancels all open orders of a market, in the order the table lists them, which is
        returned alongside; a failure undoes nothing. */
    method CancelAllOrdersByMarket(market: MarketId) returns (result: Result<nat>, ghost listing: seq<Row>)
      requires Valid() && tables.orders.Keyed() && IdsOnce(engine.Books())
      modifies engine, engine.arena, tables.users, tables.positions, tables.orders
      ensures Valid() && engine.arena == old(engine.arena) && ListsOpen(old(tables.orders.orders), market, listing)
      ensures CancelAll(old(State()), listing) == Reply(State(), result)
    {
      ghost var x := State();
      var orders := tables.orders.ListOpenByMarket(market);
      listing := orders;
      if |orders| == 0 { return Ok(0), listing; }
      result := CancelEach(orders, x);
    }
  }
}
