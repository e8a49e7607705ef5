/** Cancelling one order, and cancelling every open order of a market. */
module Cancellation {
  import opened Domain
  import opened FlatBook
  import opened BookRuns
  import opened Ledger
  import opened Exchange
  import opened Funds
  import opened Agreement
  import opened Placement

  function Withdrawn(r: Row): Row { r.(status := Cancelled) }

  function CancelledBooks(books: map<BookKey, Book>, r: Row): map<BookKey, Book> {
    books[KeyOf(r) := Cancel(BookAt(books, KeyOf(r)), r.id)]
  }

  /** Searching every market finds an order exactly if it is live, and then in the book of
      its own market: the order in which markets are searched does not matter. */
  lemma EngineFindsLiveOrders(orders: map<OrderId, Row>, books: map<BookKey, Book>, id: OrderId)
    requires Agree(orders, books) && id in orders
    ensures CancelInBooks(books, orders[id].outcome, id)
         == if orders[id].Live() then Some(CancelledBooks(books, orders[id])) else None
  {
    var r := orders[id];
    if r.Live() {
      assert Rests(books, r);
      MemberHasId(BookAt(books, KeyOf(r)).SideRows(r.side), r);
      assert HeldAt(books, KeyOf(r), r.outcome, id);
    }
    forall key | HeldAt(books, key, r.outcome, id) ensures r.Live() && key == KeyOf(r) {
      RestsOnlyAtItsKey(orders, books, key, id);
    }
  }

  lemma OtherBookUntouched(orders: map<OrderId, Row>, books: map<BookKey, Book>, r: Row, k: BookKey)
    requires Agree(orders, books) && r.id in orders && orders[r.id] == r
    requires k in books && k != KeyOf(r)
    ensures BookAgrees(orders[r.id := Withdrawn(r)], k, books[k])
  {
    assert BookAgrees(orders, k, books[k]);
  }

  lemma CancelledBookAgrees(orders: map<OrderId, Row>, b: Book, r: Row)
    requires BookAgrees(orders, KeyOf(r), b) && r.id in orders && orders[r.id] == r && r.Live()
    ensures BookAgrees(orders[r.id := Withdrawn(r)], KeyOf(r), Cancel(b, r.id))
    ensures forall s: Row | s.id != r.id ::
      (s in b.bids ==> s in Cancel(b, r.id).bids) && (s in b.asks ==> s in Cancel(b, r.id).asks)
  {
    var b' := Cancel(b, r.id);
    CancelKeepsBookOk(b, r.id);
    assert b'.bids == b'.SideRows(Buy) && b'.asks == b'.SideRows(Sell);
    forall s | s in b'.bids || s in b'.asks
      ensures s.id in orders && orders[s.id] == s && s.id != r.id && KeyOf(s) == KeyOf(r)
    {
      assert s in b.SideRows(Buy) || s in b.SideRows(Sell);
    }
  }

  lemma CancelKeepsAgreement(orders: map<OrderId, Row>, books: map<BookKey, Book>, r: Row)
    requires Agree(orders, books) && r.id in orders && orders[r.id] == r && r.Live()
    ensures Agree(orders[r.id := Withdrawn(r)], CancelledBooks(books, r))
  {
    var key := KeyOf(r);
    var orders', books' := orders[r.id := Withdrawn(r)], CancelledBooks(books, r);
    BookAtAgrees(orders, books, key);
    CancelledBookAgrees(orders, BookAt(books, key), r);
    forall k | k in books' ensures BookAgrees(orders', k, books'[k]) {
      if k != key { OtherBookUntouched(orders, books, r, k); }
    }
    forall id | id in orders' && orders'[id].Live() ensures Rests(books', orders'[id]) {
      assert Rests(books, orders[id]);
    }
  }

  // ---- the ledger's side ----

  lemma WithdrawnLocksNothing(r: Row)
    ensures forall u :: LockedWeight(Withdrawn(r), u) == 0.0
    ensures forall o :: EscrowWeight(Withdrawn(r), o) == 0.0
  {
  }

  lemma WithdrawnTables(cat: Catalog, l: Ledger, l': Ledger, r: Row)
    requires OrdersOk(cat, l, l.orders) && PositionsOk(cat, l) && r.id in l.orders && l.orders[r.id] == r
    requires l'.users.Keys == l.users.Keys && l'.positions.Keys == l.positions.Keys
    requires forall h | h in l.positions ::
      && l'.positions[h].(quantity := l.positions[h].quantity) == l.positions[h]
      && l'.positions[h].quantity >= l.positions[h].quantity
    ensures OrdersOk(cat, l', l.orders[r.id := Withdrawn(r)]) && PositionsOk(cat, l')
  {
    forall h | h in l'.positions ensures PositionOk(cat, l'.users, h, l'.positions[h]) {
      assert PositionOk(cat, l.users, h, l.positions[h]);
    }
    forall id | id in l.orders ensures OrderOk(cat, l', l.orders[r.id := Withdrawn(r)][id]) {
      assert OrderOk(cat, l, l.orders[id]);
    }
  }

  lemma ReleasedAccount(l: Ledger, r: Row)
    requires r.user in l.users && r.Live() && r.side.Buy? && PriceInRange(r.price) && r.Remaining() >= 0.0
    ensures var a := ReleaseFunds(l, r).value.users[r.user];
      && a.balance >= l.users[r.user].balance
      && a.locked - l.users[r.user].locked == -LockedWeight(r, r.user)
      && a.balance + a.locked == l.users[r.user].balance + l.users[r.user].locked
  {
    assert r.Remaining() * r.price >= 0.0;
  }

  /** How the share count moves when an order is withdrawn and `back` of its remaining
      quantity returns to its owner's position. */
  lemma SharesWithdrawn(cat: Catalog, l: Ledger, l': Ledger, r: Row, back: real,
                        lost: map<OutcomeId, real>, lost': map<OutcomeId, real>)
    requires SharesOk(cat, l, l.orders, lost)
    requires r.id in l.orders && l.orders[r.id] == r && r.Live()
    requires l'.mints == l.mints
    requires forall o | o in cat ::
      && Held(l'.positions, o) == Held(l.positions, o) + (if o == r.outcome then back else 0.0)
      && LostOf(lost', o) == LostOf(lost, o) + EscrowWeight(r, o) - (if o == r.outcome then back else 0.0)
      && LostOf(lost', o) >= 0.0
    ensures SharesOk(cat, l', l.orders[r.id := Withdrawn(r)], lost')
  {
    forall o | o in cat
      ensures Held(l'.positions, o) + Escrowed(l.orders[r.id := Withdrawn(r)], o) + LostOf(lost', o)
           == Minted(l'.mints, cat[o])
    {
      EscrowedUpdate(l.orders, r.id, Withdrawn(r), o);
      assert l'.mints == l.mints;
    }
  }

  /** A cancelled buy gives back exactly what it had locked. */
  lemma ReleaseKeepsFunds(cat: Catalog, l: Ledger, r: Row, lost: map<OutcomeId, real>)
    requires FundsOk(cat, l, l.orders, lost)
    requires r.id in l.orders && l.orders[r.id] == r && r.Live() && r.side.Buy?
    ensures ReleaseFunds(l, r).Ok?
    ensures FundsOk(cat, ReleaseFunds(l, r).value, l.orders[r.id := Withdrawn(r)], lost)
  {
    assert OrderOk(cat, l, r);
    var l' := ReleaseFunds(l, r).value;
    WithdrawnLocksNothing(r);
    ReleasedAccount(l, r);
    AccountFollowsOrder(l.users, l.orders, l'.users[r.user], Withdrawn(r));
    WithdrawnTables(cat, l, l', r);
    SharesWithdrawn(cat, l, l', r, 0.0, lost, lost);
  }

  lemma RestoredShares(cat: Catalog, l: Ledger, r: Row, lost: map<OutcomeId, real>)
    requires SharesOk(cat, l, l.orders, lost)
    requires r.id in l.orders && l.orders[r.id] == r && r.Live() && r.side.Sell?
    requires Holding(r.user, r.outcome) in l.positions
    ensures SharesOk(cat, RestoreShares(l, r).value, l.orders[r.id := Withdrawn(r)], lost)
  {
    var l' := RestoreShares(l, r).value;
    var h := Holding(r.user, r.outcome);
    forall o | o in cat
      ensures Held(l'.positions, o) == Held(l.positions, o) + (if o == r.outcome then r.Remaining() else 0.0)
    {
      HeldUpdate(l.positions, h, l'.positions[h], o);
    }
    SharesWithdrawn(cat, l, l', r, r.Remaining(), lost, lost);
  }

  /** A sell cancelled by cancel-all gives its unfilled quantity back to the position. */
  lemma RestoreKeepsFunds(cat: Catalog, l: Ledger, r: Row, lost: map<OutcomeId, real>)
    requires FundsOk(cat, l, l.orders, lost)
    requires r.id in l.orders && l.orders[r.id] == r && r.Live() && r.side.Sell?
    ensures RestoreShares(l, r).Ok?
    ensures FundsOk(cat, RestoreShares(l, r).value, l.orders[r.id := Withdrawn(r)], lost)
  {
    assert OrderOk(cat, l, r);
    var l' := RestoreShares(l, r).value;
    WithdrawnLocksNothing(r);
    OrderLocksAsBefore(l.users, l.orders, Withdrawn(r));
    WithdrawnTables(cat, l, l', r);
    RestoredShares(cat, l, r, lost);
  }

  /** What a single cancellation loses: the escrowed shares of a sell. */
  function LostAfterCancel(lost: map<OutcomeId, real>, r: Row): map<OutcomeId, real> {
    if r.side.Sell? then lost[r.outcome := LostOf(lost, r.outcome) + r.Remaining()] else lost
  }

  lemma DropKeepsFunds(cat: Catalog, l: Ledger, r: Row, lost: map<OutcomeId, real>)
    requires FundsOk(cat, l, l.orders, lost)
    requires r.id in l.orders && l.orders[r.id] == r && r.Live() && r.side.Sell?
    ensures FundsOk(cat, l, l.orders[r.id := Withdrawn(r)], LostAfterCancel(lost, r))
  {
    assert OrderOk(cat, l, r);
    WithdrawnLocksNothing(r);
    OrderLocksAsBefore(l.users, l.orders, Withdrawn(r));
    WithdrawnTables(cat, l, l, r);
    forall o | o in cat
      ensures LostOf(LostAfterCancel(lost, r), o) == LostOf(lost, o) + EscrowWeight(r, o)
      ensures LostOf(lost, o) >= 0.0 && EscrowWeight(r, o) >= 0.0
    {
    }
    SharesWithdrawn(cat, l, l, r, 0.0, lost, LostAfterCancel(lost, r));
  }

  // ---- one cancellation ----

  function UnfilledCost(r: Row): real { r.price * (r.quantity - r.filled) }

  /** The accounts once an order is withdrawn: a buy's cost for what was left of it goes from
      locked to available, and a sell moves no cash. */
  function AccountsAfterCancel(users: map<UserId, Account>, r: Row): map<UserId, Account>
    requires r.user in users
  {
    if r.side.Sell? then users
    else users[r.user := Account(users[r.user].balance + UnfilledCost(r), users[r.user].locked - UnfilledCost(r))]
  }

  lemma ReleasedAccounts(l: Ledger, r: Row)
    requires r.user in l.users && r.side.Buy?
    ensures ReleaseFunds(l, r) == Ok(l.(users := AccountsAfterCancel(l.users, r)))
  {
    var before, a := l.users[r.user], ReleaseFunds(l, r).value.users[r.user];
    assert r.Remaining() * r.price == UnfilledCost(r);
    assert a.balance == before.balance + UnfilledCost(r) && a.locked == before.locked - UnfilledCost(r);
    assert a == Account(before.balance + UnfilledCost(r), before.locked - UnfilledCost(r));
  }

  /** All that a user's cancellation does and answers: an unknown order, another user's and one
      that no longer rests are refused without effect; otherwise the order leaves its book,
      its row is marked, and only its own user's account may move. */
  lemma CancelOrderEffect(cat: Catalog, x: Exchange, user: UserId, id: OrderId, lost: map<OutcomeId, real>)
    requires Inv(cat, x, lost)
    ensures id in x.ledger.orders ==> x.ledger.orders[id].user in x.ledger.users
    ensures CancelOrder(x, user, id) ==
      if id !in x.ledger.orders then Reply(x, Err(OrderNotFound))
      else
        var r := x.ledger.orders[id];
        if r.user != user then Reply(x, Err(Forbidden))
        else if r.status != Open && r.status != Partial then Reply(x, Err(OrderNotFound))
        else
          var l := x.ledger.(users := AccountsAfterCancel(x.ledger.users, r),
                             orders := x.ledger.orders[id := r.(status := Cancelled)]);
          Reply(Exchange(l, CancelledBooks(x.books, r)), Ok(()))
  {
    if id in x.ledger.orders {
      var r := x.ledger.orders[id];
      assert OrderOk(cat, x.ledger, r);
      EngineFindsLiveOrders(x.ledger.orders, x.books, id);
      if r.side.Buy? { ReleasedAccounts(x.ledger, r); }
      assert r.(status := Cancelled, filled := r.filled) == r.(status := Cancelled);
    }
  }

  lemma WithdrawInTable(cat: Catalog, l: Ledger, r: Row, lost: map<OutcomeId, real>)
    requires r.id in l.orders && l.orders[r.id] == r
    requires FundsOk(cat, l, l.orders[r.id := Withdrawn(r)], lost)
    ensures SetStatus(l, r.id, Cancelled, r.filled) == Ok(l.(orders := l.orders[r.id := Withdrawn(r)]))
    ensures FundsOk(cat, l.(orders := l.orders[r.id := Withdrawn(r)]), l.orders[r.id := Withdrawn(r)], lost)
  {
    SameFunds(cat, l, l.(orders := l.orders[r.id := Withdrawn(r)]), l.orders[r.id := Withdrawn(r)], lost);
  }

  /** A user's cancellation succeeds exactly for that user's live orders, keeps the
      invariant, and otherwise changes nothing. */
  lemma CancelOrderKeepsInv(cat: Catalog, x: Exchange, user: UserId, id: OrderId, lost: map<OutcomeId, real>)
    requires Inv(cat, x, lost)
    ensures var reply := CancelOrder(x, user, id); var orders := x.ledger.orders;
      && (reply.result.Ok? <==> id in orders && orders[id].user == user && orders[id].Live())
      && (reply.result.Err? ==> reply.state == x)
      && (reply.result.Ok? ==>
            && Inv(cat, reply.state, LostAfterCancel(lost, orders[id]))
            && reply.state.ledger.orders == orders[id := Withdrawn(orders[id])])
  {
    var orders := x.ledger.orders;
    if id in orders && orders[id].user == user {
      var r := orders[id];
      EngineFindsLiveOrders(orders, x.books, id);
      if r.Live() {
        CancelKeepsAgreement(orders, x.books, r);
        if r.side.Buy? {
          ReleaseKeepsFunds(cat, x.ledger, r, lost);
          WithdrawInTable(cat, ReleaseFunds(x.ledger, r).value, r, lost);
        } else {
          DropKeepsFunds(cat, x.ledger, r, lost);
          WithdrawInTable(cat, x.ledger, r, LostAfterCancel(lost, r));
        }
      }
    }
  }

  /** Cancelling twice fails the second time and moves nothing. */
  lemma SecondCancelFails(cat: Catalog, x: Exchange, user: UserId, id: OrderId, lost: map<OutcomeId, real>)
    requires Inv(cat, x, lost) && CancelOrder(x, user, id).result.Ok?
    ensures var x' := CancelOrder(x, user, id).state;
      CancelOrder(x', user, id) == Reply(x', Err(OrderNotFound))
  {
    CancelOrderKeepsInv(cat, x, user, id, lost);
    var x' := CancelOrder(x, user, id).state;
    CancelOrderKeepsInv(cat, x', user, id, LostAfterCancel(lost, x.ledger.orders[id]));
    EngineFindsLiveOrders(x'.ledger.orders, x'.books, id);
  }

  /** All that an order had set aside is back: a buy's locked cost in the available balance,
      a sell's remaining shares in the position. */
  predicate GivesBack(l: Ledger, l': Ledger, r: Row) {
    var h := Holding(r.user, r.outcome);
    match r.side
    case Buy =>
      && r.user in l.users && r.user in l'.users
      && l'.users[r.user].balance == l.users[r.user].balance + LockedWeight(r, r.user)
      && l'.users[r.user].locked == l.users[r.user].locked - LockedWeight(r, r.user)
    case Sell =>
      && h in l.positions && h in l'.positions
      && l'.positions[h].quantity == l.positions[h].quantity + EscrowWeight(r, r.outcome)
  }

  /** The shares of an outcome that somebody holds or has on offer. */
  ghost function InCirculation(l: Ledger, o: OutcomeId): real { Held(l.positions, o) + Escrowed(l.orders, o) }

  /** A single cancellation gives back what the order had set aside if and only if the order
      is a buy: a sell's remaining shares go nowhere. */
  lemma CancelGivesBackIff(cat: Catalog, x: Exchange, user: UserId, id: OrderId, lost: map<OutcomeId, real>)
    requires Inv(cat, x, lost) && CancelOrder(x, user, id).result.Ok?
    ensures var x' := CancelOrder(x, user, id).state; var r := x.ledger.orders[id]; var o := r.outcome;
      && (GivesBack(x.ledger, x'.ledger, r) <==> r.side.Buy?)
      && (InCirculation(x'.ledger, o) == InCirculation(x.ledger, o) <==> r.side.Buy?)
  {
    CancelOrderKeepsInv(cat, x, user, id, lost);
    var r := x.ledger.orders[id];
    assert Rests(x.books, r);
    BookAtAgrees(x.ledger.orders, x.books, KeyOf(r));
    assert r.Resting();
    EscrowedUpdate(x.ledger.orders, id, Withdrawn(r), r.outcome);
    EngineFindsLiveOrders(x.ledger.orders, x.books, id);
    assert OrderOk(cat, x.ledger, r);
    if r.side.Buy? { ReleasedAccount(x.ledger, r); }
  }
}
