/** Placing an order: it keeps the exchange invariant, a rejection changes nothing, and once
    the engine has accepted, no settlement step can fail. */
module Placement {
  import opened Domain
  import opened FlatBook
  import opened MatchedBook
  import opened BookRuns
  import opened Ledger
  import opened Exchange
  import opened Funds
  import opened Settlement
  import opened Agreement

  /** A request as the service turns it into an order: unfilled, open, under a fresh
      identifier, for an outcome of its market. */
  predicate Request(cat: Catalog, x: Exchange, r: Row) {
    && r.filled == 0.0 && r.status == Open
    && r.id !in x.ledger.orders
    && r.outcome in cat && cat[r.outcome] == r.market
  }

  function CostOf(r: Row): real { r.price * r.quantity }

  /** The user of a buy has its cost available; the user of a sell holds its quantity. */
  predicate Covered(l: Ledger, r: Row) {
    match r.side
    case Buy => r.user in l.users && CostOf(r) <= l.users[r.user].balance
    case Sell =>
      var h := Holding(r.user, r.outcome);
      h in l.positions && r.quantity <= l.positions[h].quantity
  }

  /** When a request is placed: a price between 1 and 99 cents, a positive quantity, and the
      means to cover it. */
  predicate Accepts(x: Exchange, r: Row) {
    0.01 <= r.price <= 0.99 && r.quantity > 0.0 && Covered(x.ledger, r)
  }

  /** Why a request is refused, in the order in which the reasons are looked at. */
  function Refusal(x: Exchange, r: Row): Error
    requires !Accepts(x, r)
  {
    if r.price < 0.01 || r.price > 0.99 then InvalidPrice
    else if !Covered(x.ledger, r) then
      if r.side.Buy? then
        if r.user in x.ledger.users then InsufficientBalance else UserNotFound
      else
        if Holding(r.user, r.outcome) in x.ledger.positions then InsufficientBalance else PositionNotFound
    else InvalidQuantity
  }

  /** The ledger when the engine is called: escrow taken, order row created. */
  function AtEngine(l: Ledger, r: Row): Ledger
    requires Escrow(l, r).Ok?
  {
    Escrow(l, r).value.(orders := Escrow(l, r).value.orders[r.id := r])
  }

  lemma SameFunds(cat: Catalog, l: Ledger, l': Ledger, orders: map<OrderId, Row>, lost: map<OutcomeId, real>)
    requires FundsOk(cat, l, orders, lost)
    requires l'.users == l.users && l'.positions == l.positions && l'.mints == l.mints
    ensures FundsOk(cat, l', orders, lost)
  {
    assert l'.positions == l.positions && l'.mints == l.mints;
    forall o | o in cat
      ensures Held(l'.positions, o) + Escrowed(orders, o) + LostOf(lost, o) == Minted(l'.mints, cat[o])
    {
      assert Held(l.positions, o) + Escrowed(orders, o) + LostOf(lost, o) == Minted(l.mints, cat[o]);
    }
  }

  lemma EscrowReady(cat: Catalog, x: Exchange, r: Row, lost: map<OutcomeId, real>)
    requires Inv(cat, x, lost) && Request(cat, x, r) && Accepts(x, r)
    ensures Settling(cat, AtEngine(x.ledger, r), r, lost)
    ensures AtEngine(x.ledger, r).orders == x.ledger.orders[r.id := r]
  {
    EscrowKeepsFunds(cat, x.ledger, r, lost);
    var l := AtEngine(x.ledger, r);
    assert l.orders[r.id := r] == l.orders;
    SameFunds(cat, Escrow(x.ledger, r).value, l, l.orders, lost);
  }

  lemma SideIsMirrored(x: Exchange, l: Ledger, r: Row)
    requires ReadyToPlace(x.ledger.orders, x.books, r)
    requires l.orders == x.ledger.orders[r.id := r]
    ensures SideMirrored(l, r, OtherSide(x.books, r))
  {
    ReadyBook(x.ledger.orders, x.books, r);
    var b := BookAt(x.books, KeyOf(r));
    forall o | o in OtherSide(x.books, r) ensures o.id != r.id { MemberHasId(OtherSide(x.books, r), o); }
  }

  lemma SharesRestated(cat: Catalog, l: Ledger, orders: map<OrderId, Row>, b: Row, lost: map<OutcomeId, real>)
    requires SharesOk(cat, l, orders, lost)
    requires forall o | o in cat :: EscrowWeight(b, o) == OldEscrow(orders, b.id, o)
    ensures SharesOk(cat, l, orders[b.id := b], lost)
  {
    forall o | o in cat ensures Escrowed(orders[b.id := b], o) == Escrowed(orders, o) {
      EscrowedUpdate(orders, b.id, b, o);
    }
  }

  /** Two states of the same order that weigh the same leave the funds as they were. */
  lemma FundsRestated(cat: Catalog, l: Ledger, orders: map<OrderId, Row>, a: Row, b: Row, lost: map<OutcomeId, real>)
    requires FundsOk(cat, l, orders[a.id := a], lost) && b == a.(status := b.status)
    requires a.Live() && (b.Live() || a.Remaining() == 0.0)
    ensures FundsOk(cat, l, orders[a.id := b], lost)
  {
    var before := orders[a.id := a];
    assert before[a.id := b] == orders[a.id := b];
    assert before[a.id] == a && OrderOk(cat, l, a);
    if a.Remaining() == 0.0 { assert a.price * a.Remaining() == 0.0; }
    assert forall u :: LockedWeight(b, u) == LockedWeight(a, u);
    OrderLocksAsBefore(l.users, before, b);
    SharesRestated(cat, l, before, b, lost);
    assert forall id | id in orders && id != a.id :: before[id] == orders[id];
  }

  /** Writing the taker's row last makes the table what matching produced. */
  lemma FinishSettles(cat: Catalog, l0: Ledger, l: Ledger, r: Row, other: seq<Row>, lost: map<OutcomeId, real>)
    requires Incoming(r) && SideOk(r.side.Opposite(), other) && !HasId(other, r.id)
    requires r.id in l0.orders && l0.orders[r.id] == r
    requires SettlesTo(cat, l0, l, other, Match(r, other), lost)
    ensures var t := Settled(Match(r, other).taker);
      && FinishTaker(l, t).Ok?
      && FinishTaker(l, t).value == l.(orders := l.orders[r.id := t])
      && FundsOk(cat, FinishTaker(l, t).value, l.orders[r.id := t], lost)
  {
    var m := Match(r, other);
    TakerRests(r, other);
    var t := Settled(m.taker);
    assert l.orders[r.id] == r;
    if t.filled > 0.0 {
      assert r.(status := t.status, filled := t.filled) == t;
    } else {
      assert t == r && l.orders[r.id := t] == l.orders;
    }
    FundsRestated(cat, l, l.orders, m.taker, t, lost);
    SameFunds(cat, l, l.(orders := l.orders[r.id := t]), l.orders[r.id := t], lost);
  }

  lemma {:induction false} MatchedIdsKnown(taker: Row, book: seq<Row>, r: Row)
    requires var m := Match(taker, book); r in m.skipped || r in m.rest || r in m.consumed
    ensures HasId(book, r.id)
    decreases |book|
  {
    if Stops(taker, book) {
      MemberHasId(book, r);
    } else {
      assert forall i | 0 <= i < |book[1..]| :: book[1..][i] == book[i + 1];
      var m := Match(taker, book);
      if taker.user == book[0].user {
        if r != book[0] { MatchedIdsKnown(taker, book[1..], r); }
      } else {
        var q := Min(taker.Remaining(), book[0].Remaining());
        var maker := FillMaker(book[0], q);
        if r == maker {
          assert book[0].id == r.id;
        } else if maker.Remaining() <= 0.0 {
          MatchedIdsKnown(taker.(filled := taker.filled + q), book[1..], r);
        } else {
          MemberHasId(book[1..], r);
        }
      }
    }
  }

  lemma TableFollows(orders: map<OrderId, Row>, l: Ledger, l1: Ledger, r: Row, other: seq<Row>, cat: Catalog,
      lost: map<OutcomeId, real>)
    requires r.id !in orders && l.orders == orders[r.id := r] && SideMirrored(l, r, other)
    requires SideOk(r.side.Opposite(), other)
    requires SettlesTo(cat, l, l1, other, Match(r, other), lost)
    ensures TableAfter(orders, l1.orders[r.id := Settled(Match(r, other).taker)], r, other)
  {
    var m := Match(r, other);
    var orders' := l1.orders[r.id := Settled(m.taker)];
    forall o | o in m.skipped || o in m.rest || o in m.consumed ensures o.id in orders' && orders'[o.id] == o {
      MatchedIdsKnown(r, other, o);
      var k := MemberWithId(other, o.id);
    }
    forall id | id in orders && !HasId(other, id) ensures orders'[id] == orders[id] { }
  }

  /** What an accepted placement leaves. */
  lemma AcceptedPlacement(div: Division, cat: Catalog, x: Exchange, r: Row, lost: map<OutcomeId, real>)
    requires KeepsBounds(div)
    requires Inv(cat, x, lost) && Request(cat, x, r) && Accepts(x, r)
    ensures var l := AtEngine(x.ledger, r); var m := MatchAt(x, r);
      && SettleAll(div, l, r.side, r.price, m.trades).Ok?
      && SettlePlacement(div, l, r, m).Ok?
      && var l' := SettlePlacement(div, l, r, m).value;
      && l'.orders == SettleAll(div, l, r.side, r.price, m.trades).value.orders[r.id := Settled(m.taker)]
      && FundsOk(cat, l', l'.orders, lost)
      && TableAfter(x.ledger.orders, l'.orders, r, OtherSide(x.books, r))
  {
    var l := AtEngine(x.ledger, r);
    var other := OtherSide(x.books, r);
    EscrowReady(cat, x, r, lost);
    ReadyBook(x.ledger.orders, x.books, r);
    SideIsMirrored(x, l, r);
    MatchSettles(div, cat, l, r, other, lost);
    var l1 := SettleAll(div, l, r.side, r.price, Match(r, other).trades).value;
    FinishSettles(cat, l, l1, r, other, lost);
    TableFollows(x.ledger.orders, l, l1, r, other, cat, lost);
  }

  /** An accepted placement whose settlement succeeds answers with what the engine made. */
  lemma AcceptedReply(div: Division, x: Exchange, r: Row)
    requires Accepts(x, r) && r.id !in x.ledger.orders
    requires SettlePlacement(div, AtEngine(x.ledger, r), r, MatchAt(x, r)).Ok?
    ensures var m := MatchAt(x, r); var l := AtEngine(x.ledger, r);
      && PlaceOrder(div, x, r)
           == Reply(Exchange(SettlePlacement(div, l, r, m).value, PlacedBooks(x.books, r)),
                    Ok(Placed(Settled(m.taker), m.trades)))
      && SettlePlacement(div, l, r, m).value.users == SettleAll(div, l, r.side, r.price, m.trades).value.users
  {
  }

  lemma RefusedReply(div: Division, x: Exchange, r: Row)
    requires !Accepts(x, r) && r.id !in x.ledger.orders
    ensures PlaceOrder(div, x, r) == Reply(x, Err(Refusal(x, r)))
  {
  }

  /** Placing an order keeps the invariant; a rejected placement changes neither ledger nor
      books; and it is rejected only before the engine has touched a book. */
  lemma PlaceOrderKeepsInv(div: Division, cat: Catalog, x: Exchange, r: Row, lost: map<OutcomeId, real>)
    requires KeepsBounds(div)
    requires Inv(cat, x, lost) && Request(cat, x, r)
    ensures var reply := PlaceOrder(div, x, r);
      && Inv(cat, reply.state, lost)
      && (reply.result.Ok? <==> Accepts(x, r))
      && (reply.result.Err? ==> reply == Reply(x, Err(Refusal(x, r))))
      && (reply.result.Ok? ==> reply.state.books == PlacedBooks(x.books, r))
  {
    if Accepts(x, r) {
      AcceptedPlacement(div, cat, x, r, lost);
      AcceptedReply(div, x, r);
      PlaceKeepsAgreement(x.ledger.orders, SettlePlacement(div, AtEngine(x.ledger, r), r, MatchAt(x, r)).value.orders,
                          x.books, r);
    } else {
      RefusedReply(div, x, r);
    }
  }
}
