/** Engine and ledger agree: the live rows of the order table are exactly the orders resting
    in the books, field for field. */
module Agreement {
  import opened Domain
  import opened FlatBook
  import opened Matching
  import opened MatchedBook
  import opened BookRuns
  import opened Exchange
  import opened Funds

  /** A well-formed book whose rows are the table's, under its own key. */
  ghost predicate BookAgrees(orders: map<OrderId, Row>, key: BookKey, b: Book) {
    && BookOk(b)
    && (forall r | r in b.bids || r in b.asks :: r.id in orders && orders[r.id] == r && KeyOf(r) == key)
  }

  ghost predicate Rests(books: map<BookKey, Book>, r: Row) {
    r in BookAt(books, KeyOf(r)).SideRows(r.side)
  }

  ghost predicate Agree(orders: map<OrderId, Row>, books: map<BookKey, Book>) {
    && (forall id | id in orders :: orders[id].id == id)
    && (forall key | key in books :: BookAgrees(orders, key, books[key]))
    && (forall id | id in orders && orders[id].Live() :: Rests(books, orders[id]))
  }

  /** Every book is that of an outcome under the outcome's own market, so no outcome has two. */
  ghost predicate Catalogued(cat: Catalog, books: map<BookKey, Book>) {
    forall key | key in books :: key.outcome in cat && cat[key.outcome] == key.market
  }

  /** The exchange invariant. */
  ghost predicate Inv(cat: Catalog, x: Exchange, lost: map<OutcomeId, real>) {
    && FundsOk(cat, x.ledger, x.ledger.orders, lost)
    && Agree(x.ledger.orders, x.books)
    && Catalogued(cat, x.books)
  }

  lemma BookAtAgrees(orders: map<OrderId, Row>, books: map<BookKey, Book>, key: BookKey)
    requires Agree(orders, books)
    ensures BookAgrees(orders, key, BookAt(books, key))
  {
  }

  /** A resting order has its identifier in the book of its own key and in no other. */
  lemma RestsOnlyAtItsKey(orders: map<OrderId, Row>, books: map<BookKey, Book>, key: BookKey, id: OrderId)
    requires Agree(orders, books) && key in books && !FreshIn(books[key], id)
    ensures id in orders && orders[id].Live() && KeyOf(orders[id]) == key
    ensures orders[id] in books[key].SideRows(orders[id].side)
  {
    var b := books[key];
    var r := MemberWithId(if HasId(b.bids, id) then b.bids else b.asks, id);
  }

  /** Every order of the side is accounted for after matching. */
  lemma {:induction false} NothingLost(taker: Row, book: seq<Row>, id: OrderId)
    requires HasId(book, id)
    ensures var m := Match(taker, book);
      exists r :: (r in m.consumed || r in m.skipped || r in m.rest) && r.id == id
    decreases |book|
  {
    var m := Match(taker, book);
    var i :| 0 <= i < |book| && book[i].id == id;
    if Stops(taker, book) {
      assert book[i] in m.rest;
    } else if taker.user == book[0].user {
      if i == 0 {
        assert book[0] in m.skipped;
      } else {
        assert book[1..][i - 1].id == id;
        NothingLost(taker, book[1..], id);
      }
    } else {
      var q := Min(taker.Remaining(), book[0].Remaining());
      var maker := FillMaker(book[0], q);
      if maker.Remaining() <= 0.0 {
        if i == 0 {
          assert maker in m.consumed;
        } else {
          assert book[1..][i - 1].id == id;
          NothingLost(taker.(filled := taker.filled + q), book[1..], id);
        }
      } else {
        assert m.rest == [maker] + book[1..];
        assert m.rest[i] in m.rest && m.rest[i].id == id;
      }
    }
  }

  // ---- placing ----

  lemma PlacedRows(b: Book, taker: Row)
    requires BookOk(b) && Incoming(taker) && FreshIn(b, taker.id)
    ensures var m := Match(taker, b.SideRows(taker.side.Opposite()));
      && (forall r :: r in Place(b, taker).SideRows(taker.side.Opposite()) <==> r in m.skipped || r in m.rest)
      && (forall r :: r in Place(b, taker).SideRows(taker.side) <==>
            r in b.SideRows(taker.side) || (m.taker.Remaining() > 0.0 && r == Settled(m.taker)))
  {
    var own, other := b.SideRows(taker.side), b.SideRows(taker.side.Opposite());
    AfterMatchOk(taker, other);
    TakerRests(taker, other);
    if Match(taker, other).taker.Remaining() > 0.0 {
      InsertRestingOk(taker.side, own, Settled(Match(taker, other).taker));
    }
  }

  lemma OwnNotOther(b: Book, side: Side, r: Row)
    requires BookOk(b) && r in b.SideRows(side)
    ensures !HasId(b.SideRows(side.Opposite()), r.id)
  {
    BookOkIsPairOk(b, side);
  }

  lemma UnknownIsFresh(orders: map<OrderId, Row>, key: BookKey, b: Book, id: OrderId)
    requires BookAgrees(orders, key, b) && id !in orders
    ensures FreshIn(b, id)
  {
    if !FreshIn(b, id) {
      var r := MemberWithId(if HasId(b.bids, id) then b.bids else b.asks, id);
    }
  }

  /** The order table after a placement, seen from the table before it. */
  ghost predicate TableAfter(orders: map<OrderId, Row>, orders': map<OrderId, Row>, taker: Row, other: seq<Row>) {
    var m := Match(taker, other);
    && orders'.Keys == orders.Keys + {taker.id}
    && orders'[taker.id] == Settled(m.taker)
    && (forall r | r in m.skipped || r in m.rest || r in m.consumed :: r.id in orders' && orders'[r.id] == r)
    && (forall id | id in orders && !HasId(other, id) :: orders'[id] == orders[id])
  }

  lemma PlacedBookAgrees(orders: map<OrderId, Row>, orders': map<OrderId, Row>, key: BookKey, b: Book, taker: Row)
    requires BookAgrees(orders, key, b) && Incoming(taker) && KeyOf(taker) == key && taker.id !in orders
    requires TableAfter(orders, orders', taker, b.SideRows(taker.side.Opposite()))
    ensures BookAgrees(orders', key, Place(b, taker))
  {
    var other := b.SideRows(taker.side.Opposite());
    var m := Match(taker, other);
    UnknownIsFresh(orders, key, b, taker.id);
    PlaceKeepsBookOk(b, taker);
    PlacedRows(b, taker);
    TakerRests(taker, other);
    SurvivorsAreKnown(taker, other);
    forall r | r in Place(b, taker).SideRows(taker.side.Opposite())
      ensures r.id in orders' && orders'[r.id] == r && KeyOf(r) == key
    {
      assert Known(r, other);
    }
    forall r | r in Place(b, taker).SideRows(taker.side)
      ensures r.id in orders' && orders'[r.id] == r && KeyOf(r) == key
    {
      if r in b.SideRows(taker.side) { OwnNotOther(b, taker.side, r); }
    }
  }

  lemma SurvivorStaysKeyed(orders': map<OrderId, Row>, taker: Row, other: seq<Row>, id: OrderId)
    requires SideOk(taker.side.Opposite(), other) && HasId(other, id)
    requires forall r | r in other :: KeyOf(r) == KeyOf(taker)
    requires var m := Match(taker, other);
      forall r | r in m.skipped || r in m.rest || r in m.consumed :: r.id in orders' && orders'[r.id] == r
    requires id in orders' && orders'[id].Live()
    ensures var m := Match(taker, other); var r := orders'[id];
      (r in m.skipped || r in m.rest) && KeyOf(r) == KeyOf(taker) && r.side == taker.side.Opposite()
  {
    NothingLost(taker, other, id);
    MatchConservesQuantity(taker, other);
    SurvivorsAreKnown(taker, other);
    var r := orders'[id];
    assert r in Match(taker, other).skipped || r in Match(taker, other).rest;
    assert Known(r, other);
    var i :| 0 <= i < |other| && r == other[i].(filled := r.filled, status := r.status);
    assert other[i] in other;
  }

  /** What placing taker at its key makes of the books. */
  function PlacedBooks(books: map<BookKey, Book>, taker: Row): map<BookKey, Book> {
    books[KeyOf(taker) := Place(BookAt(books, KeyOf(taker)), taker)]
  }

  function OtherSide(books: map<BookKey, Book>, taker: Row): seq<Row> {
    BookAt(books, KeyOf(taker)).SideRows(taker.side.Opposite())
  }

  ghost predicate ReadyToPlace(orders: map<OrderId, Row>, books: map<BookKey, Book>, taker: Row) {
    Agree(orders, books) && Incoming(taker) && taker.id !in orders
  }

  lemma ReadyBook(orders: map<OrderId, Row>, books: map<BookKey, Book>, taker: Row)
    requires ReadyToPlace(orders, books, taker)
    ensures BookOk(BookAt(books, KeyOf(taker))) && FreshIn(BookAt(books, KeyOf(taker)), taker.id)
    ensures BookAgrees(orders, KeyOf(taker), BookAt(books, KeyOf(taker)))
  {
    BookAtAgrees(orders, books, KeyOf(taker));
    UnknownIsFresh(orders, KeyOf(taker), BookAt(books, KeyOf(taker)), taker.id);
  }

  lemma TakerRowRests(orders: map<OrderId, Row>, books: map<BookKey, Book>, taker: Row)
    requires ReadyToPlace(orders, books, taker)
    requires Settled(Match(taker, OtherSide(books, taker)).taker).Live()
    ensures Rests(PlacedBooks(books, taker), Settled(Match(taker, OtherSide(books, taker)).taker))
  {
    ReadyBook(orders, books, taker);
    PlacedRows(BookAt(books, KeyOf(taker)), taker);
    TakerRests(taker, OtherSide(books, taker));
  }

  lemma SurvivorRowRests(orders: map<OrderId, Row>, books: map<BookKey, Book>, taker: Row, r: Row)
    requires ReadyToPlace(orders, books, taker)
    requires var m := Match(taker, OtherSide(books, taker));
      (r in m.skipped || r in m.rest) && KeyOf(r) == KeyOf(taker) && r.side == taker.side.Opposite()
    ensures Rests(PlacedBooks(books, taker), r)
  {
    ReadyBook(orders, books, taker);
    PlacedRows(BookAt(books, KeyOf(taker)), taker);
  }

  lemma UntouchedRowRests(orders: map<OrderId, Row>, books: map<BookKey, Book>, taker: Row, r: Row)
    requires ReadyToPlace(orders, books, taker)
    requires Rests(books, r) && !HasId(OtherSide(books, taker), r.id)
    ensures Rests(PlacedBooks(books, taker), r)
  {
    ReadyBook(orders, books, taker);
    PlacedRows(BookAt(books, KeyOf(taker)), taker);
    if KeyOf(r) == KeyOf(taker) && r.side != taker.side { MemberHasId(OtherSide(books, taker), r); }
  }

  lemma PlacedRowRests(orders: map<OrderId, Row>, orders': map<OrderId, Row>, books: map<BookKey, Book>, taker: Row,
      id: OrderId)
    requires ReadyToPlace(orders, books, taker)
    requires TableAfter(orders, orders', taker, OtherSide(books, taker))
    requires id in orders' && orders'[id].Live()
    ensures Rests(PlacedBooks(books, taker), orders'[id])
  {
    if id == taker.id {
      TakerRowRests(orders, books, taker);
    } else if HasId(OtherSide(books, taker), id) {
      ReadyBook(orders, books, taker);
      SurvivorStaysKeyed(orders', taker, OtherSide(books, taker), id);
      SurvivorRowRests(orders, books, taker, orders'[id]);
    } else {
      assert Rests(books, orders[id]);
      UntouchedRowRests(orders, books, taker, orders[id]);
    }
  }

  lemma TableStaysKeyed(orders: map<OrderId, Row>, orders': map<OrderId, Row>, taker: Row, other: seq<Row>)
    requires forall id | id in orders :: orders[id].id == id
    requires TableAfter(orders, orders', taker, other)
    ensures forall id | id in orders' :: orders'[id].id == id
  {
    MatchConservesQuantity(taker, other);
    forall id | id in orders' ensures orders'[id].id == id {
      if HasId(other, id) { NothingLost(taker, other, id); }
    }
  }

  lemma OtherBookAgrees(orders: map<OrderId, Row>, orders': map<OrderId, Row>, books: map<BookKey, Book>, taker: Row,
      k: BookKey)
    requires ReadyToPlace(orders, books, taker)
    requires k in books && k != KeyOf(taker)
    requires TableAfter(orders, orders', taker, OtherSide(books, taker))
    ensures BookAgrees(orders', k, books[k])
  {
    var b := books[k];
    var other := OtherSide(books, taker);
    assert BookAgrees(orders, k, b);
    BookAtAgrees(orders, books, KeyOf(taker));
    forall r | r in b.bids || r in b.asks ensures r.id in orders' && orders'[r.id] == r && KeyOf(r) == k {
      if HasId(other, r.id) { var o := MemberWithId(other, r.id); }
    }
  }

  /** A placement whose settlement wrote what matching produced keeps engine and ledger in
      agreement. */
  lemma PlaceKeepsAgreement(orders: map<OrderId, Row>, orders': map<OrderId, Row>, books: map<BookKey, Book>,
      taker: Row)
    requires ReadyToPlace(orders, books, taker)
    requires TableAfter(orders, orders', taker, OtherSide(books, taker))
    ensures Agree(orders', PlacedBooks(books, taker))
  {
    var key := KeyOf(taker);
    var books' := PlacedBooks(books, taker);
    ReadyBook(orders, books, taker);
    TableStaysKeyed(orders, orders', taker, OtherSide(books, taker));
    forall k | k in books' ensures BookAgrees(orders', k, books'[k]) {
      if k == key {
        PlacedBookAgrees(orders, orders', key, BookAt(books, key), taker);
      } else {
        OtherBookAgrees(orders, orders', books, taker, k);
      }
    }
    forall id | id in orders' && orders'[id].Live() ensures Rests(books', orders'[id]) {
      PlacedRowRests(orders, orders', books, taker, id);
    }
  }
}
