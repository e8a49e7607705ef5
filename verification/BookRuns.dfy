/** What every book reached by placing and cancelling orders satisfies. */
module BookRuns {
  import opened Domain
  import opened FlatBook
  import opened Matching
  import opened MatchedBook

  /** An order as it arrives: accepted in price and quantity, nothing filled yet. */
  predicate Incoming(r: Row) {
    PriceInRange(r.price) && r.quantity > 0.0 && r.filled == 0.0 && r.status == Open
  }

  /** The opposing side after matching is well-formed and holds exactly what was skipped
      and what was left. */
  lemma AfterMatchOk(taker: Row, book: seq<Row>)
    requires SideOk(taker.side.Opposite(), book)
    ensures SideOk(taker.side.Opposite(), AfterMatch(taker, book))
    ensures var m := Match(taker, book);
      && multiset(AfterMatch(taker, book)) == multiset(m.rest) + multiset(m.skipped)
      && forall r :: r in AfterMatch(taker, book) <==> r in m.skipped || r in m.rest
  {
    var m := Match(taker, book);
    var k := MatchLeavesSideOk(taker.side.Opposite(), taker, book);
    InsertAllSideOk(taker.side.Opposite(), m.rest, m.skipped);
    assert forall r :: r in AfterMatch(taker, book) <==> r in multiset(AfterMatch(taker, book));
  }

  lemma SurvivorsAreKnown(taker: Row, book: seq<Row>)
    requires SideOk(taker.side.Opposite(), book)
    ensures forall r | r in Match(taker, book).skipped || r in Match(taker, book).rest :: Known(r, book)
  {
    var m := Match(taker, book);
    var k := MatchLeavesSideOk(taker.side.Opposite(), taker, book);
    forall r | r in m.skipped ensures Known(r, book) {
      var i :| 0 <= i < k && book[..k][i] == r;
      assert r == book[i].(filled := r.filled, status := r.status);
    }
    forall i | 0 <= i < |m.rest| ensures Known(m.rest[i], book) {
      var r := m.rest[i];
      assert Known(r, [book[k + i]]);
      assert r == book[k + i].(filled := r.filled, status := r.status);
    }
  }

  /** A taker that still wants more has stopped at a price it does not accept. */
  lemma RestDoesNotCross(taker: Row, book: seq<Row>)
    requires SideOk(taker.side.Opposite(), book) && Match(taker, book).taker.Remaining() > 0.0
    ensures forall r | r in Match(taker, book).rest :: !Crosses(taker.side, taker.price, r.price)
  {
    var m := Match(taker, book);
    var k := MatchSplitsSide(taker, book);
    var k' := MatchLeavesSideOk(taker.side.Opposite(), taker, book);
    forall i | 0 <= i < |m.rest| ensures !Crosses(taker.side, taker.price, m.rest[i].price) {
      assert i > 0 ==> !Better(taker.side.Opposite(), m.rest[i].price, m.rest[0].price);
    }
  }

  /** Every order left on the opposing side was there before, with the same identity and
      price; if the taker still wants more, each one it accepts in price is its own. */
  lemma AfterMatchSurvivors(taker: Row, book: seq<Row>)
    requires SideOk(taker.side.Opposite(), book)
    ensures forall r | r in AfterMatch(taker, book) ::
      && Known(r, book)
      && (Match(taker, book).taker.Remaining() > 0.0 && Crosses(taker.side, taker.price, r.price) ==>
            r.user == taker.user)
  {
    var k := MatchLeavesSideOk(taker.side.Opposite(), taker, book);
    AfterMatchOk(taker, book);
    SurvivorsAreKnown(taker, book);
    if Match(taker, book).taker.Remaining() > 0.0 { RestDoesNotCross(taker, book); }
  }

  lemma InsertRestingOk(side: Side, s: seq<Row>, r: Row)
    requires SideOk(side, s) && !HasId(s, r.id) && r.side == side && r.Resting()
    ensures SideOk(side, Insert(side, s, r))
    ensures forall x :: x in Insert(side, s, r) <==> x in s || x == r
  {
    InsertKeepsOrder(side, s, r);
    InsertKeepsIdsDistinct(side, s, r);
    InsertKeepsRows(side, s, r);
    assert forall x :: x in Insert(side, s, r) <==> x in multiset(Insert(side, s, r));
  }

  /** The two sides of a book, seen from one of them. */
  predicate PairOk(side: Side, own: seq<Row>, other: seq<Row>) {
    && SideOk(side, own)
    && SideOk(side.Opposite(), other)
    && forall x, y | x in own && y in other ::
         && x.id != y.id
         && (Crosses(side, x.price, y.price) ==> x.user == y.user)
  }

  lemma BookOkIsPairOk(b: Book, side: Side)
    ensures BookOk(b) <==> PairOk(side, b.SideRows(side), b.SideRows(side.Opposite()))
  {
    if PairOk(side, b.SideRows(side), b.SideRows(side.Opposite())) {
      assert forall i | 0 <= i < |b.bids| :: b.bids[i] in b.bids;
      assert forall i | 0 <= i < |b.asks| :: b.asks[i] in b.asks;
    }
  }

  lemma PairAfterMatch(own: seq<Row>, other: seq<Row>, taker: Row)
    requires PairOk(taker.side, own, other)
    ensures PairOk(taker.side, own, AfterMatch(taker, other))
  {
    AfterMatchOk(taker, other);
    AfterMatchSurvivors(taker, other);
  }

  lemma KnownHasId(y: Row, s: seq<Row>)
    requires Known(y, s)
    ensures HasId(s, y.id)
  {
    var i :| 0 <= i < |s| && y == s[i].(filled := y.filled, status := y.status);
    assert s[i].id == y.id;
  }

  lemma {:induction false} TradedNonNegative(ts: seq<Trade>)
    requires forall t | t in ts :: t.quantity > 0.0
    ensures Traded(ts) >= 0.0 && (ts != [] ==> Traded(ts) > 0.0)
  {
    if ts != [] { TradedNonNegative(ts[1..]); }
  }

  /** What rests is the taker with its fill, in the state a resting order has. */
  lemma TakerRests(taker: Row, other: seq<Row>)
    requires Incoming(taker) && SideOk(taker.side.Opposite(), other)
    ensures var m := Match(taker, other);
      && m.taker == taker.(filled := m.taker.filled)
      && 0.0 <= m.taker.filled <= taker.quantity
      && (m.taker.Remaining() > 0.0 ==> Settled(m.taker).Resting())
  {
    MatchConservesQuantity(taker, other);
    TradesRespectLimit(taker, other);
    TradedNonNegative(Match(taker, other).trades);
  }

  /** Resting what is left of a matched order keeps the two sides a pair. */
  lemma RestingKeepsPair(taker: Row, own: seq<Row>, other: seq<Row>)
    requires PairOk(taker.side, own, AfterMatch(taker, other)) && SideOk(taker.side.Opposite(), other)
    requires !HasId(own, taker.id) && !HasId(other, taker.id) && Incoming(taker)
    requires Match(taker, other).taker.Remaining() > 0.0
    ensures PairOk(taker.side, Insert(taker.side, own, Settled(Match(taker, other).taker)), AfterMatch(taker, other))
  {
    var r := Settled(Match(taker, other).taker);
    TakerRests(taker, other);
    InsertRestingOk(taker.side, own, r);
    AfterMatchSurvivors(taker, other);
    forall y | y in AfterMatch(taker, other)
      ensures r.id != y.id && (Crosses(taker.side, r.price, y.price) ==> r.user == y.user)
    {
      assert Known(y, other);
      KnownHasId(y, other);
    }
  }

  /** Placing an order keeps a book well-formed and never leaves two users crossing. */
  lemma PlaceKeepsBookOk(book: Book, taker: Row)
    requires BookOk(book) && FreshIn(book, taker.id) && Incoming(taker)
    ensures BookOk(Place(book, taker))
  {
    var own, other := book.SideRows(taker.side), book.SideRows(taker.side.Opposite());
    BookOkIsPairOk(book, taker.side);
    PairAfterMatch(own, other, taker);
    if Match(taker, other).taker.Remaining() > 0.0 { RestingKeepsPair(taker, own, other); }
    BookOkIsPairOk(Place(book, taker), taker.side);
  }

  lemma CancelKeepsBookOk(book: Book, id: OrderId)
    requires BookOk(book)
    ensures BookOk(Cancel(book, id)) && FreshIn(Cancel(book, id), id)
    ensures forall side, r :: r in Cancel(book, id).SideRows(side) <==> r in book.SideRows(side) && r.id != id
  {
    RemoveKeeps(Buy, book.bids, id);
    RemoveKeeps(Sell, book.asks, id);
    BookOkIsPairOk(book, Buy);
    BookOkIsPairOk(Cancel(book, id), Buy);
  }

  /** Adding a fresh order without matching and cancelling it is the identity. */
  lemma CancelUndoesRest(book: Book, r: Row)
    requires FreshIn(book, r.id)
    ensures Cancel(Rested(book, r), r.id) == book
  {
    RemoveUndoesInsert(r.side, book.SideRows(r.side), r);
    RemoveAbsent(book.SideRows(r.side.Opposite()), r.id);
  }

  // ---- whole runs of one book ----

  datatype BookOp = PlaceOp(order: Row) | CancelOp(id: OrderId)

  function Step(b: Book, op: BookOp): Book {
    match op
    case PlaceOp(r) =>
      if PriceInRange(r.price) && r.quantity > 0.0 then Place(b, r) else b
    case CancelOp(id) => Cancel(b, id)
  }

  function Run(b: Book, ops: seq<BookOp>): Book
    decreases |ops|
  {
    if ops == [] then b else Run(Step(b, ops[0]), ops[1..])
  }

  /** Orders arrive unfilled, under identifiers not in use. */
  predicate FreshRun(b: Book, ops: seq<BookOp>)
    decreases |ops|
  {
    ops != [] ==>
      && (ops[0].PlaceOp? ==>
            && FreshIn(b, ops[0].order.id)
            && ops[0].order.filled == 0.0 && ops[0].order.status == Open)
      && FreshRun(Step(b, ops[0]), ops[1..])
  }

  lemma {:induction false} RunKeepsBookOk(b: Book, ops: seq<BookOp>)
    requires BookOk(b) && FreshRun(b, ops)
    ensures BookOk(Run(b, ops))
    decreases |ops|
  {
    if ops != [] {
      match ops[0] {
        case PlaceOp(r) =>
          if PriceInRange(r.price) && r.quantity > 0.0 { PlaceKeepsBookOk(b, r); }
        case CancelOp(id) => CancelKeepsBookOk(b, id);
      }
      RunKeepsBookOk(Step(b, ops[0]), ops[1..]);
    }
  }

  /** In every book reached from the empty one, a bid priced at or above an ask belongs to
      the same user as that ask. */
  lemma NoCrossingInAnyRun(ops: seq<BookOp>)
    requires FreshRun(EMPTY_BOOK, ops)
    ensures var b := Run(EMPTY_BOOK, ops);
      forall bid, ask | bid in b.bids && ask in b.asks :: bid.price >= ask.price ==> bid.user == ask.user
  {
    RunKeepsBookOk(EMPTY_BOOK, ops);
  }
}
