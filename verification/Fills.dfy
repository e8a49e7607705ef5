/** What an accepted placement writes into the tables of orders and trades: every row and every
    trade, from the rows before and the trades answered. */
module Fills {
  import opened Domain
  import opened FlatBook
  import opened Matching
  import opened BookRuns
  import opened QueueJump
  import opened Ledger
  import opened Exchange
  import opened Funds
  import opened Agreement
  import opened Placement

  /** What an order has traded as a maker. */
  function FilledBy(ts: seq<Trade>, id: OrderId): real {
    if ts == [] then 0.0
    else (if ts[0].makerOrder == id then ts[0].quantity else 0.0) + FilledBy(ts[1..], id)
  }

  /** The status an order has by its fill alone. */
  function StatusFor(filled: real, quantity: real): OrderStatus {
    if filled >= quantity then Filled else if filled > 0.0 then Partial else Open
  }

  /** An order that has traded so much more. */
  function AfterFills(r: Row, q: real): Row {
    if q == 0.0 then r else r.(filled := r.filled + q, status := StatusFor(r.filled + q, r.quantity))
  }

  lemma {:induction false} NotFilled(ts: seq<Trade>, id: OrderId)
    requires forall t | t in ts :: t.makerOrder != id
    ensures FilledBy(ts, id) == 0.0
  {
    if ts != [] {
      assert ts[0] in ts;
      NotFilled(ts[1..], id);
    }
  }

  lemma FilledByFirst(t: Trade, ts: seq<Trade>, id: OrderId)
    ensures FilledBy([t] + ts, id) == (if t.makerOrder == id then t.quantity else 0.0) + FilledBy(ts, id)
  {
    assert ([t] + ts)[1..] == ts;
  }

  lemma NotOnSideNotFilled(taker: Row, book: seq<Row>, id: OrderId)
    requires DistinctIds(book) && !HasId(book, id)
    ensures FilledBy(Match(taker, book).trades, id) == 0.0
  {
    MakersTradeOnce(taker, book);
    NotFilled(Match(taker, book).trades, id);
  }

  predicate AmongRows(m: Matched, r: Row) { r in m.consumed || r in m.skipped || r in m.rest }

  /** Matching leaves every order of the side somewhere, filled by exactly its own trades and
      with the status that goes with its fill. */
  lemma {:induction false} RowAfterMatch(taker: Row, book: seq<Row>, r: Row)
    requires r in book && DistinctIds(book) && forall o | o in book :: 0.0 <= o.filled < o.quantity
    ensures var m := Match(taker, book); AmongRows(m, AfterFills(r, FilledBy(m.trades, r.id)))
    decreases |book|
  {
    if !Stops(taker, book) {
      LaterIds(book);
      assert book == [book[0]] + book[1..];
      if taker.user == book[0].user {
        if r == book[0] {
          NotOnSideNotFilled(taker, book[1..], r.id);
        } else {
          RowAfterMatch(taker, book[1..], r);
        }
      } else {
        RowAfterTrade(taker, book, r);
      }
    }
  }

  lemma {:induction false} RowAfterTrade(taker: Row, book: seq<Row>, r: Row)
    requires r in book && DistinctIds(book) && forall o | o in book :: 0.0 <= o.filled < o.quantity
    requires !Stops(taker, book) && taker.user != book[0].user
    ensures var m := Match(taker, book); AmongRows(m, AfterFills(r, FilledBy(m.trades, r.id)))
    decreases |book|, 0
  {
    LaterIds(book);
    var q := Min(taker.Remaining(), book[0].Remaining());
    var maker, t := FillMaker(book[0], q), TradeOf(taker, book[0], q);
    var taker' := taker.(filled := taker.filled + q);
    var later := if maker.Remaining() <= 0.0 then Match(taker', book[1..]).trades else [];
    FilledByFirst(t, later, r.id);
    assert book[0] in book;
    if r.id == book[0].id {
      if maker.Remaining() <= 0.0 { NotOnSideNotFilled(taker', book[1..], r.id); }
      var i :| 0 <= i < |book| && book[i] == r;
      assert AfterFills(r, q) == maker;
    } else {
      assert r in book[1..] by { assert book == [book[0]] + book[1..]; }
      if maker.Remaining() <= 0.0 { RowAfterMatch(taker', book[1..], r); }
    }
  }

  // ---- the tables ----

  lemma {:induction false} SettledTrades(div: Division, l: Ledger, side: Side, limit: real, ts: seq<Trade>)
    requires SettleAll(div, l, side, limit, ts).Ok?
    ensures SettleAll(div, l, side, limit, ts).value.trades == l.trades + ts
    decreases |ts|
  {
    if ts == [] {
      assert l.trades + [] == l.trades;
    } else {
      SettledTrades(div, SettleTrade(div, l, side, limit, ts[0]).value, side, limit, ts[1..]);
      assert l.trades + [ts[0]] + ts[1..] == l.trades + ts;
    }
  }

  /** An accepted placement stores exactly the trades it answers, behind those there were. */
  lemma PlacementStoresTrades(div: Division, cat: Catalog, x: Exchange, r: Row, lost: map<OutcomeId, real>)
    requires KeepsBounds(div) && Inv(cat, x, lost) && Request(cat, x, r) && Accepts(x, r)
    ensures PlaceOrder(div, x, r).result.Ok?
    ensures PlaceOrder(div, x, r).state.ledger.trades == x.ledger.trades + PlaceOrder(div, x, r).result.value.trades
  {
    AcceptedPlacement(div, cat, x, r, lost);
    AcceptedReply(div, x, r);
    SettledTrades(div, AtEngine(x.ledger, r), r.side, r.price, MatchAt(x, r).trades);
  }

  lemma MakerRowAfter(orders: map<OrderId, Row>, orders': map<OrderId, Row>, books: map<BookKey, Book>, r: Row,
      id: OrderId)
    requires ReadyToPlace(orders, books, r) && TableAfter(orders, orders', r, OtherSide(books, r)) && id in orders
    ensures orders'[id] == AfterFills(orders[id], FilledBy(Match(r, OtherSide(books, r)).trades, id))
  {
    var other := OtherSide(books, r);
    ReadyBook(orders, books, r);
    if HasId(other, id) {
      var b := MemberWithId(other, id);
      RowAfterMatch(r, other, b);
      assert b == orders[id];
    } else {
      NotOnSideNotFilled(r, other, id);
    }
  }

  /** The order as it stands after its own trades. */
  function PlacedRow(r: Row, ts: seq<Trade>): Row {
    r.(filled := Traded(ts), status := StatusFor(Traded(ts), r.quantity))
  }

  lemma TakerRowAfter(orders: map<OrderId, Row>, books: map<BookKey, Book>, r: Row)
    requires ReadyToPlace(orders, books, r)
    ensures var m := Match(r, OtherSide(books, r)); Settled(m.taker) == PlacedRow(r, m.trades)
  {
    ReadyBook(orders, books, r);
    MatchConservesQuantity(r, OtherSide(books, r));
    TakerRests(r, OtherSide(books, r));
  }

  /** After an accepted placement every order row is filled by exactly its own trades: the
      order answered and stored has the fill and status of the trades answered, each maker's
      row has grown by its trades, and all other rows are as they were. */
  lemma PlacementFillsRows(div: Division, cat: Catalog, x: Exchange, r: Row, lost: map<OutcomeId, real>)
    requires KeepsBounds(div) && Inv(cat, x, lost) && Request(cat, x, r) && Accepts(x, r)
    ensures PlaceOrder(div, x, r).result.Ok?
    ensures var orders, orders' := x.ledger.orders, PlaceOrder(div, x, r).state.ledger.orders;
      var placed := PlaceOrder(div, x, r).result.value;
      && orders'.Keys == orders.Keys + {r.id}
      && orders'[r.id] == placed.order == PlacedRow(r, placed.trades)
      && Traded(placed.trades) <= r.quantity
      && forall id | id in orders :: orders'[id] == AfterFills(orders[id], FilledBy(placed.trades, id))
  {
    AcceptedPlacement(div, cat, x, r, lost);
    AcceptedReply(div, x, r);
    TakerRowAfter(x.ledger.orders, x.books, r);
    ReadyBook(x.ledger.orders, x.books, r);
    TakerRests(r, OtherSide(x.books, r));
    var orders, orders' := x.ledger.orders, PlaceOrder(div, x, r).state.ledger.orders;
    forall id | id in orders ensures orders'[id] == AfterFills(orders[id], FilledBy(MatchAt(x, r).trades, id)) {
      MakerRowAfter(orders, orders', x.books, r, id);
    }
  }
}
