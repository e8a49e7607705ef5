/** Cancelling every open order of a market: from any reachable state it goes through to the
    end, and gives everything back. */
module MarketCancellation {
  import opened Domain
  import opened FlatBook
  import opened Ledger
  import opened Exchange
  import opened Funds
  import opened Agreement
  import opened Cancellation

  /** What one cancelled order returns to a position. */
  function ReturnOf(r: Row, h: Holding): real {
    if r.side.Sell? && Holding(r.user, r.outcome) == h then r.Remaining() else 0.0
  }

  function ReturnOfAll(listing: seq<Row>, h: Holding): real {
    if listing == [] then 0.0 else ReturnOf(listing[0], h) + ReturnOfAll(listing[1..], h)
  }

  /** No user's total changes, each position grows by what its orders held, and nothing is
      minted or traded. */
  ghost predicate Returned(l: Ledger, l': Ledger, listing: seq<Row>) {
    && l'.users.Keys == l.users.Keys && l'.positions.Keys == l.positions.Keys
    && l'.mints == l.mints && l'.trades == l.trades
    && (forall u | u in l.users ::
          l'.users[u].balance + l'.users[u].locked == l.users[u].balance + l.users[u].locked)
    && (forall h | h in l.positions ::
          l'.positions[h] == l.positions[h].(quantity := l.positions[h].quantity + ReturnOfAll(listing, h)))
  }

  lemma ReleaseReturns(l: Ledger, r: Row)
    requires ReleaseFunds(l, r).Ok? && r.side.Buy?
    ensures Returned(l, ReleaseFunds(l, r).value, [r])
  {
  }

  lemma RestoreReturns(l: Ledger, r: Row)
    requires RestoreShares(l, r).Ok? && r.side.Sell?
    ensures Returned(l, RestoreShares(l, r).value, [r])
  {
    assert [r][1..] == [];
  }

  lemma CancelListedWorks(cat: Catalog, x: Exchange, r: Row, lost: map<OutcomeId, real>)
    requires Inv(cat, x, lost)
    requires r.id in x.ledger.orders && x.ledger.orders[r.id] == r && r.Live()
    ensures var reply := CancelListed(x, r);
      && reply.result.Ok?
      && Inv(cat, reply.state, lost)
      && reply.state.ledger.orders == x.ledger.orders[r.id := Withdrawn(r)]
      && reply.state.books == CancelledBooks(x.books, r)
      && Returned(x.ledger, reply.state.ledger, [r])
  {
    EngineFindsLiveOrders(x.ledger.orders, x.books, r.id);
    CancelKeepsAgreement(x.ledger.orders, x.books, r);
    if r.side.Buy? {
      ReleaseKeepsFunds(cat, x.ledger, r, lost);
      WithdrawInTable(cat, ReleaseFunds(x.ledger, r).value, r, lost);
      ReleaseReturns(x.ledger, r);
    } else {
      RestoreKeepsFunds(cat, x.ledger, r, lost);
      WithdrawInTable(cat, RestoreShares(x.ledger, r).value, r, lost);
      RestoreReturns(x.ledger, r);
    }
  }

  lemma ReturnedAdds(l: Ledger, l1: Ledger, l2: Ledger, r: Row, rest: seq<Row>)
    requires Returned(l, l1, [r]) && Returned(l1, l2, rest)
    ensures Returned(l, l2, [r] + rest)
  {
    forall h | h in l.positions
      ensures l2.positions[h] == l.positions[h].(quantity := l.positions[h].quantity + ReturnOfAll([r] + rest, h))
    {
      assert [r][1..] == [] && ([r] + rest)[1..] == rest;
      assert ReturnOfAll([r], h) == ReturnOf(r, h);
    }
  }

  lemma ListingShrinks(orders: map<OrderId, Row>, market: MarketId, listing: seq<Row>)
    requires ListsOpen(orders, market, listing) && listing != []
    ensures ListsOpen(orders[listing[0].id := Withdrawn(listing[0])], market, listing[1..])
  {
    var orders' := orders[listing[0].id := Withdrawn(listing[0])];
    assert forall i | 0 <= i < |listing[1..]| :: listing[1..][i] == listing[i + 1];
    forall r ensures r in listing[1..] <==> r.id in orders' && orders'[r.id] == r && r.market == market && r.Live() {
      assert r in listing <==> r == listing[0] || r in listing[1..];
    }
  }

  /** Books outside the market are left alone. */
  ghost predicate OthersKept(books: map<BookKey, Book>, books': map<BookKey, Book>, market: MarketId) {
    forall key: BookKey | key.market != market ::
      (key in books' <==> key in books) && (key in books ==> books'[key] == books[key])
  }

  /** Exactly the market's live orders are withdrawn. */
  ghost predicate TableCancelled(orders: map<OrderId, Row>, orders': map<OrderId, Row>, market: MarketId) {
    && orders'.Keys == orders.Keys
    && forall id | id in orders ::
         orders'[id] == if orders[id].market == market && orders[id].Live() then Withdrawn(orders[id]) else orders[id]
  }

  ghost predicate AllCancelled(x: Exchange, x': Exchange, market: MarketId, listing: seq<Row>) {
    && Returned(x.ledger, x'.ledger, listing)
    && OthersKept(x.books, x'.books, market)
    && TableCancelled(x.ledger.orders, x'.ledger.orders, market)
  }

  lemma NothingListed(x: Exchange, market: MarketId)
    requires ListsOpen(x.ledger.orders, market, []) && forall id | id in x.ledger.orders :: x.ledger.orders[id].id == id
    ensures AllCancelled(x, x, market, [])
  {
    var orders := x.ledger.orders;
    assert forall id | id in orders :: orders[orders[id].id] == orders[id];
  }

  lemma OneMoreCancelled(x: Exchange, x1: Exchange, x': Exchange, market: MarketId, listing: seq<Row>)
    requires listing != [] && listing[0].market == market && listing[0].Live()
    requires listing[0].id in x.ledger.orders && x.ledger.orders[listing[0].id] == listing[0]
    requires x1.ledger.orders == x.ledger.orders[listing[0].id := Withdrawn(listing[0])]
    requires x1.books == CancelledBooks(x.books, listing[0])
    requires Returned(x.ledger, x1.ledger, [listing[0]]) && AllCancelled(x1, x', market, listing[1..])
    ensures AllCancelled(x, x', market, listing)
  {
    ReturnedAdds(x.ledger, x1.ledger, x'.ledger, listing[0], listing[1..]);
    assert [listing[0]] + listing[1..] == listing;
  }

  lemma CancelAllStep(x: Exchange, listing: seq<Row>)
    requires listing != [] && CancelListed(x, listing[0]).result.Ok?
    requires CancelAll(CancelListed(x, listing[0]).state, listing[1..]).result.Ok?
    requires CancelAll(CancelListed(x, listing[0]).state, listing[1..]).result.value == |listing| - 1
    ensures CancelAll(x, listing)
         == Reply(CancelAll(CancelListed(x, listing[0]).state, listing[1..]).state, Ok(|listing|))
  {
  }

  /** Cancel-all never fails midway: it counts every open order, keeps the invariant, and
      returns what each order held. */
  lemma {:induction false} CancelAllWorks(cat: Catalog, x: Exchange, market: MarketId, listing: seq<Row>,
      lost: map<OutcomeId, real>)
    requires Inv(cat, x, lost) && ListsOpen(x.ledger.orders, market, listing)
    ensures var reply := CancelAll(x, listing);
      && reply.result == Ok(|listing|)
      && Inv(cat, reply.state, lost)
      && AllCancelled(x, reply.state, market, listing)
    decreases |listing|
  {
    if listing == [] {
      NothingListed(x, market);
      assert CancelAll(x, listing) == Reply(x, Ok(|listing|));
    } else {
      assert listing[0] in listing;
      CancelListedWorks(cat, x, listing[0], lost);
      ListingShrinks(x.ledger.orders, market, listing);
      var x1 := CancelListed(x, listing[0]).state;
      CancelAllWorks(cat, x1, market, listing[1..], lost);
      CancelAllStep(x, listing);
      OneMoreCancelled(x, x1, CancelAll(x1, listing[1..]).state, market, listing);
    }
  }

  lemma SomeMember(s: seq<Row>)
    ensures s == [] || exists r :: r in s
  {
    if s != [] { assert s[0] in s; }
  }

  lemma MarketHasNoRows(x: Exchange, market: MarketId)
    requires Agree(x.ledger.orders, x.books)
    requires forall id | id in x.ledger.orders && x.ledger.orders[id].Live() :: x.ledger.orders[id].market != market
    ensures forall key | key in x.books && key.market == market :: x.books[key] == EMPTY_BOOK
  {
    forall key | key in x.books && key.market == market ensures x.books[key] == EMPTY_BOOK {
      var b := x.books[key];
      assert BookAgrees(x.ledger.orders, key, b);
      assert forall r | r in b.bids || r in b.asks :: r.Resting() && r.Live();
      SomeMember(b.bids);
      SomeMember(b.asks);
    }
  }

  /** Afterwards no book of the market holds an order, and no user's locked balance is
      backed by anything but open buys in other markets. */
  lemma CancelAllEmptiesMarket(cat: Catalog, x: Exchange, market: MarketId, listing: seq<Row>,
      lost: map<OutcomeId, real>)
    requires Inv(cat, x, lost) && ListsOpen(x.ledger.orders, market, listing)
    ensures var x' := CancelAll(x, listing).state;
      && (forall key | key in x'.books && key.market == market :: x'.books[key] == EMPTY_BOOK)
      && (forall id | id in x'.ledger.orders && x'.ledger.orders[id].Live() :: x'.ledger.orders[id].market != market)
      && AccountsOk(x'.ledger.users, x'.ledger.orders)
  {
    CancelAllWorks(cat, x, market, listing, lost);
    MarketHasNoRows(CancelAll(x, listing).state, market);
  }
}
