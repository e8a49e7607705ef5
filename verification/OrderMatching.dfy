/** Matching an incoming order against a book of price levels: the loop that consumes the
    opposing side, proved to compute FlatBook.Match and to leave FlatBook.AfterMatch. */
module OrderMatching {
  import opened Domain
  import opened FlatBook
  import opened Queue
  import opened PriceLevels
  import opened Orderbook

  // ---- following the specification step by step ----

  /** What has been matched so far, followed by a match still to come. */
  function Glue(trades: seq<Trade>, consumed: seq<Row>, skipped: seq<Row>, m: Matched): Matched {
    Matched(trades + m.trades, m.taker, consumed + m.consumed, skipped + m.skipped, m.rest)
  }

  lemma GlueSkip(trades: seq<Trade>, consumed: seq<Row>, skipped: seq<Row>, taker: Row, book: seq<Row>)
    requires !Stops(taker, book) && taker.user == book[0].user
    ensures Glue(trades, consumed, skipped, Match(taker, book))
         == Glue(trades, consumed, skipped + [book[0]], Match(taker, book[1..]))
  {
  }

  lemma GlueFill(trades: seq<Trade>, consumed: seq<Row>, skipped: seq<Row>, taker: Row, book: seq<Row>, q: real)
    requires !Stops(taker, book) && taker.user != book[0].user
    requires q == Min(taker.Remaining(), book[0].Remaining()) && FillMaker(book[0], q).Remaining() <= 0.0
    ensures Glue(trades, consumed, skipped, Match(taker, book))
         == Glue(trades + [TradeOf(taker, book[0], q)], consumed + [FillMaker(book[0], q)], skipped,
                 Match(taker.(filled := taker.filled + q), book[1..]))
  {
    var m' := Match(taker.(filled := taker.filled + q), book[1..]);
    assert trades + ([TradeOf(taker, book[0], q)] + m'.trades) == trades + [TradeOf(taker, book[0], q)] + m'.trades;
    assert consumed + ([FillMaker(book[0], q)] + m'.consumed) == consumed + [FillMaker(book[0], q)] + m'.consumed;
  }

  lemma GluePartial(trades: seq<Trade>, consumed: seq<Row>, skipped: seq<Row>, taker: Row, book: seq<Row>, q: real)
    requires !Stops(taker, book) && taker.user != book[0].user
    requires q == Min(taker.Remaining(), book[0].Remaining()) && FillMaker(book[0], q).Remaining() > 0.0
    ensures taker.(filled := taker.filled + q).Remaining() <= 0.0
    ensures Glue(trades, consumed, skipped, Match(taker, book))
         == Glue(trades + [TradeOf(taker, book[0], q)], consumed, skipped,
                 Match(taker.(filled := taker.filled + q), [FillMaker(book[0], q)] + book[1..]))
  {
    var taker' := taker.(filled := taker.filled + q);
    var rest := [FillMaker(book[0], q)] + book[1..];
    assert Match(taker', rest) == Matched([], taker', [], [], rest);
    assert trades + ([TradeOf(taker, book[0], q)] + []) == trades + [TradeOf(taker, book[0], q)] + [];
  }

  /** Orders and their identifiers appear once among those still on the side and those set
      aside. */
  predicate SetAside(skipped: seq<Order>, orderMap: map<OrderId, Order>, side: Side) {
    && (forall i | 0 <= i < |skipped| :: skipped[i].side == side && skipped[i].id !in orderMap)
    && (forall i, j | 0 <= i < j < |skipped| :: skipped[i].id != skipped[j].id)
  }

  /** One trade between the taker and the best opposing order. */
  method ExecuteTrade(taker: Order, maker: Order) returns (trade: Trade)
    requires taker != maker
    modifies taker, maker
    ensures trade.price == maker.price && trade.makerOrder == maker.id && trade.makerUser == maker.user
    ensures trade.takerOrder == taker.id && trade.takerUser == taker.user
    ensures trade.market == taker.market && trade.outcome == taker.outcome
    ensures trade.quantity <= old(taker.quantity - taker.filled) && trade.quantity <= old(maker.quantity - maker.filled)
    ensures trade.quantity == old(taker.quantity - taker.filled) || trade.quantity == old(maker.quantity - maker.filled)
    ensures taker.filled == old(taker.filled) + trade.quantity && taker.status == old(taker.status)
    ensures maker.filled == old(maker.filled) + trade.quantity
    ensures maker.status == if maker.filled >= maker.quantity then Filled else Partial
    ensures var q := Min(old(taker.Snapshot().Remaining()), old(maker.Snapshot().Remaining()));
      && trade == TradeOf(old(taker.Snapshot()), old(maker.Snapshot()), q)
      && taker.Snapshot() == old(taker.Snapshot()).(filled := old(taker.filled) + q)
      && maker.Snapshot() == FillMaker(old(maker.Snapshot()), q)
  {
    var remainingQty := taker.quantity - taker.filled;
    var makerRemainingQty := maker.quantity - maker.filled;
    var tradeQty := if remainingQty < makerRemainingQty then remainingQty else makerRemainingQty;
    trade := Trade(taker.market, taker.outcome, maker.id, taker.id, maker.user, taker.user, maker.price, tradeQty);
    taker.filled := taker.filled + tradeQty;
    maker.filled := maker.filled + tradeQty;
    if maker.quantity - maker.filled <= 0.0 { maker.status := Filled; } else { maker.status := Partial; }
  }

  /** ExecuteTrade, with bystanders: a book only depends on which orders rest in it, and a
      and b are orders that stand by. */
  method TradeKeeping(taker: Order, maker: Order, ghost ob: Orderbook, ghost a: seq<Order>, ghost b: seq<Order>)
    returns (trade: Trade)
    requires ob.Valid() && taker != maker && taker !in a && maker !in a && taker !in b && maker !in b
    modifies taker, maker
    ensures ob.Valid() && Rows(a) == old(Rows(a)) && Rows(b) == old(Rows(b))
    ensures ob.Flat(Buy) == old(ob.Flat(Buy)) && ob.Flat(Sell) == old(ob.Flat(Sell))
    ensures var q := Min(old(taker.Snapshot().Remaining()), old(maker.Snapshot().Remaining()));
      && trade == TradeOf(old(taker.Snapshot()), old(maker.Snapshot()), q)
      && taker.Snapshot() == old(taker.Snapshot()).(filled := old(taker.filled) + q)
      && maker.Snapshot() == FillMaker(old(maker.Snapshot()), q)
  {
    trade := ExecuteTrade(taker, maker);
  }

  /** The identifier map once more orders have been added. */
  function Remembering(m: map<OrderId, Order>, os: seq<Order>): map<OrderId, Order> {
    if os == [] then m else Remembering(m, os[..|os| - 1])[os[|os| - 1].id := os[|os| - 1]]
  }

  lemma {:induction false} RememberingKeys(m: map<OrderId, Order>, os: seq<Order>)
    ensures forall id :: id in Remembering(m, os) <==> id in m || exists i :: 0 <= i < |os| && os[i].id == id
  {
    if os != [] {
      RememberingKeys(m, os[..|os| - 1]);
      var last := os[|os| - 1];
      assert last.id in Remembering(m, os);
      forall id ensures id in Remembering(m, os) <==> id in m || exists i :: 0 <= i < |os| && os[i].id == id {
        if i :| 0 <= i < |os| && os[i].id == id && i < |os| - 1 { assert os[..|os| - 1][i].id == id; }
      }
    }
  }

  /** Where putting set-aside orders back has got to. */
  ghost predicate Readding(ob: Orderbook, side: Side, flat: seq<Order>, known: map<OrderId, Order>, done: seq<Order>)
    reads ob, ob.SideOf(side)
  {
    && ob.Flat(side) == InsertOrders(side, flat, done)
    && ob.orderMap == Remembering(known, done)
  }

  lemma ReaddNext(side: Side, flat: seq<Order>, known: map<OrderId, Order>, skipped: seq<Order>, i: nat)
    requires i < |skipped| && forall j, k | 0 <= j < k < |skipped| :: skipped[j].id != skipped[k].id
    requires skipped[i].id !in known
    ensures skipped[i].id !in Remembering(known, skipped[..i])
    ensures Remembering(known, skipped[..i + 1]) == Remembering(known, skipped[..i])[skipped[i].id := skipped[i]]
    ensures InsertOrders(side, flat, skipped[..i + 1])
         == InsertOrder(side, InsertOrders(side, flat, skipped[..i]), skipped[i])
  {
    InsertOneMoreOrder(side, flat, skipped, i);
    RememberingKeys(known, skipped[..i]);
    assert skipped[..i + 1][..i] == skipped[..i];
  }

  /** Puts the next set-aside order back. */
  method ReaddTurn(ob: Orderbook, skipped: seq<Order>, i: nat, side: Side, ghost flat: seq<Order>,
                   ghost known: map<OrderId, Order>)
    requires i < |skipped| && SetAside(skipped, known, side)
    requires ob.Valid() && Readding(ob, side, flat, known, skipped[..i])
    modifies ob, ob.bids, ob.asks, ob.bids.Nodes, ob.asks.Nodes
    ensures ob.Valid() && Readding(ob, side, flat, known, skipped[..i + 1])
    ensures forall q: OrderQueue | old(allocated(q)) && q in ob.bids.Nodes :: q in old(ob.bids.Nodes)
    ensures forall q: OrderQueue | old(allocated(q)) && q in ob.asks.Nodes :: q in old(ob.asks.Nodes)
    ensures ob.Flat(side.Opposite()) == old(ob.Flat(side.Opposite()))
  {
    ReaddNext(side, flat, known, skipped, i);
    ob.AddOrderUnlocked(skipped[i]);
  }

  /** Puts set-aside orders back on the book, in order. */
  method ReaddSkipped(ob: Orderbook, skipped: seq<Order>, side: Side)
    requires ob.Valid() && SetAside(skipped, ob.orderMap, side)
    modifies ob, ob.bids, ob.asks, ob.bids.Nodes, ob.asks.Nodes
    ensures ob.Valid() && fresh(ob.bids.Nodes - old(ob.bids.Nodes)) && fresh(ob.asks.Nodes - old(ob.asks.Nodes))
    ensures ob.Flat(side) == InsertOrders(side, old(ob.Flat(side)), skipped)
    ensures ob.Flat(side.Opposite()) == old(ob.Flat(side.Opposite()))
    ensures ob.orderMap == Remembering(old(ob.orderMap), skipped)
  {
    ghost var flat, known := ob.Flat(side), ob.orderMap;
    for i := 0 to |skipped|
      invariant ob.Valid() && Readding(ob, side, flat, known, skipped[..i])
      invariant forall q: OrderQueue | old(allocated(q)) && q in ob.bids.Nodes :: q in old(ob.bids.Nodes)
      invariant forall q: OrderQueue | old(allocated(q)) && q in ob.asks.Nodes :: q in old(ob.asks.Nodes)
      invariant ob.Flat(side.Opposite()) == old(ob.Flat(side.Opposite()))
    {
      ReaddTurn(ob, skipped, i, side, flat, known);
    }
    assert skipped[..|skipped|] == skipped;
  }

  lemma RowsOfParts(a: seq<Order>, b: seq<Order>)
    ensures Rows(a) == Rows(a + b)[..|a|] && Rows(b) == Rows(a + b)[|a|..]
  {
    RowsAppend(a, b);
  }

  /** Takes the best order of a side that has one off the book. */
  method DequeueFront(ob: Orderbook, side: Side)
    requires ob.Valid() && ob.Flat(side) != []
    modifies ob, ob.bids, ob.asks, ob.bids.Nodes, ob.asks.Nodes
    ensures ob.Valid() && ob.bids.Nodes == old(ob.bids.Nodes) && ob.asks.Nodes == old(ob.asks.Nodes)
    ensures ob.Flat(side) == old(ob.Flat(side))[1..]
    ensures ob.Flat(side.Opposite()) == old(ob.Flat(side.Opposite()))
    ensures ob.orderMap == old(ob.orderMap) - {old(ob.Flat(side))[0].id}
  {
    var _ := ob.DequeueBest(side);
  }

  /** DequeueFront; a are orders that stand by. */
  method DequeueKeeping(ob: Orderbook, side: Side, ghost a: seq<Order>)
    requires ob.Valid() && ob.Flat(side) != []
    modifies ob, ob.bids, ob.asks, ob.bids.Nodes, ob.asks.Nodes
    ensures Rows(a) == old(Rows(a))
    ensures ob.Valid() && ob.bids.Nodes == old(ob.bids.Nodes) && ob.asks.Nodes == old(ob.asks.Nodes)
    ensures ob.Flat(side) == old(ob.Flat(side))[1..]
    ensures ob.Flat(side.Opposite()) == old(ob.Flat(side.Opposite()))
    ensures ob.orderMap == old(ob.orderMap) - {old(ob.Flat(side))[0].id}
  {
    DequeueFront(ob, side);
  }

  /** DequeueKeeping, with two groups of bystanders. */
  method DequeueFilled(ob: Orderbook, side: Side, ghost a: seq<Order>, ghost b: seq<Order>)
    requires ob.Valid() && ob.Flat(side) != []
    modifies ob, ob.bids, ob.asks, ob.bids.Nodes, ob.asks.Nodes
    ensures ob.Valid() && ob.bids.Nodes == old(ob.bids.Nodes) && ob.asks.Nodes == old(ob.asks.Nodes)
    ensures ob.Flat(side) == old(ob.Flat(side))[1..]
    ensures ob.Flat(side.Opposite()) == old(ob.Flat(side.Opposite()))
    ensures ob.orderMap == old(ob.orderMap) - {old(ob.Flat(side))[0].id}
    ensures Rows(a) == old(Rows(a)) && Rows(b) == old(Rows(b))
  {
    RowsOfParts(a, b);
    DequeueKeeping(ob, side, a + b);
    RowsOfParts(a, b);
  }

  /** Trades with the best opposing order, and takes it off the book once it is filled; a and
      b are orders that stand by. */
  method TradeWithBest(taker: Order, maker: Order, ob: Orderbook, ghost a: seq<Order>, ghost b: seq<Order>)
    returns (trade: Trade)
    requires ob.Valid() && ob.Flat(taker.side.Opposite()) != [] && maker == ob.Flat(taker.side.Opposite())[0]
    requires taker != maker && taker !in a && maker !in a && taker !in b && maker !in b
    modifies taker, maker, ob, ob.bids, ob.asks, ob.bids.Nodes, ob.asks.Nodes
    ensures ob.Valid() && ob.bids.Nodes == old(ob.bids.Nodes) && ob.asks.Nodes == old(ob.asks.Nodes)
    ensures var q := Min(old(taker.Snapshot().Remaining()), old(maker.Snapshot().Remaining()));
      && trade == TradeOf(old(taker.Snapshot()), old(maker.Snapshot()), q)
      && taker.Snapshot() == old(taker.Snapshot()).(filled := old(taker.filled) + q)
      && maker.Snapshot() == FillMaker(old(maker.Snapshot()), q)
    ensures ob.Flat(taker.side) == old(ob.Flat(taker.side))
    ensures var flat := old(ob.Flat(taker.side.Opposite()));
      ob.Flat(taker.side.Opposite()) == if maker.Snapshot().Remaining() <= 0.0 then flat[1..] else flat
    ensures ob.orderMap == if maker.Snapshot().Remaining() <= 0.0 then old(ob.orderMap) - {maker.id}
                           else old(ob.orderMap)
    ensures Rows(a) == old(Rows(a)) && Rows(b) == old(Rows(b))
  {
    trade := TradeKeeping(taker, maker, ob, a, b);
    if maker.quantity - maker.filled <= 0.0 {
      DequeueFilled(ob, taker.side.Opposite(), a, b);
    }
  }

  /** What has happened so far, followed by matching the taker against what is left, is the
      whole match. */
  ghost predicate Following(m: Matched, trades: seq<Trade>, consumed: seq<Row>, skipped: seq<Row>, t: Row,
      rows: seq<Row>) {
    m == Glue(trades, consumed, skipped, Match(t, rows))
  }

  /** What one trade does to the taker's row and the opposing rows. */
  ghost predicate TradedRows(t: Row, rows: seq<Row>, trade: Trade, t': Row, rows': seq<Row>)
    requires rows != []
  {
    var q := Min(t.Remaining(), rows[0].Remaining());
    var maker := FillMaker(rows[0], q);
    && trade == TradeOf(t, rows[0], q)
    && t' == t.(filled := t.filled + q)
    && rows' == (if maker.Remaining() <= 0.0 then rows[1..] else [maker] + rows[1..])
  }

  lemma FollowTrade(m: Matched, trades: seq<Trade>, consumed: seq<Row>, skipped: seq<Row>, t: Row, rows: seq<Row>,
                    trade: Trade, t': Row, rows': seq<Row>) returns (consumed': seq<Row>)
    requires Following(m, trades, consumed, skipped, t, rows)
    requires !Stops(t, rows) && t.user != rows[0].user && TradedRows(t, rows, trade, t', rows')
    ensures Following(m, trades + [trade], consumed', skipped, t', rows')
  {
    var q := Min(t.Remaining(), rows[0].Remaining());
    if FillMaker(rows[0], q).Remaining() <= 0.0 {
      GlueFill(trades, consumed, skipped, t, rows, q);
      consumed' := consumed + [FillMaker(rows[0], q)];
    } else {
      GluePartial(trades, consumed, skipped, t, rows, q);
      consumed' := consumed;
    }
  }

  lemma FollowSkip(m: Matched, trades: seq<Trade>, consumed: seq<Row>, skipped: seq<Row>, t: Row, rows: seq<Row>)
    requires Following(m, trades, consumed, skipped, t, rows)
    requires !Stops(t, rows) && t.user == rows[0].user
    ensures Following(m, trades, consumed, skipped + [rows[0]], t, rows[1..])
  {
    GlueSkip(trades, consumed, skipped, t, rows);
  }

  lemma FollowStop(m: Matched, trades: seq<Trade>, consumed: seq<Row>, skipped: seq<Row>, t: Row, rows: seq<Row>)
    requires Following(m, trades, consumed, skipped, t, rows) && Stops(t, rows)
    ensures m == Matched(trades, t, consumed, skipped, rows)
  {
  }

  lemma FollowStart(t: Row, rows: seq<Row>, skipped: seq<Row>)
    requires skipped == []
    ensures Following(Match(t, rows), [], [], skipped, t, rows)
  {
    var m := Match(t, rows);
    assert [] + m.trades == m.trades && [] + m.consumed == m.consumed && [] + m.skipped == m.skipped;
  }

  lemma WhenToStop(taker: Order, maker: Order?, flat: seq<Order>)
    requires maker == if flat == [] then null else flat[0]
    ensures Stops(taker.Snapshot(), Rows(flat)) <==>
         || taker.quantity - taker.filled <= 0.0
         || maker == null
         || (if taker.side.Buy? then taker.price < maker.price else taker.price > maker.price)
    ensures maker != null ==> Rows(flat)[0].user == maker.user && maker in flat
  {
  }

  /** No order but the two that trade is touched by the trade. */
  lemma Bystanders(taker: Order, maker: Order, ob: Orderbook, skipped: seq<Order>)
    requires ob.Valid() && ob.Flat(taker.side.Opposite()) != [] && maker == ob.Flat(taker.side.Opposite())[0]
    requires SetAside(skipped, ob.orderMap, taker.side.Opposite())
    ensures taker != maker && maker.id in ob.orderMap
    ensures forall o | o in skipped :: o != maker && o != taker
    ensures forall o | o in ob.Flat(taker.side.Opposite())[1..] :: o != maker && o != taker
    ensures ob.Flat(taker.side.Opposite()) == [maker] + ob.Flat(taker.side.Opposite())[1..]
  {
    ghost var flat := ob.Flat(taker.side.Opposite());
    assert maker in flat;
  }

  predicate Submap(a: map<OrderId, Order>, b: map<OrderId, Order>) {
    forall id | id in a :: id in b && a[id] == b[id]
  }

  lemma TradeInRows(t: Row, maker: Row, rest: seq<Row>, trade: Trade, t': Row, maker': Row, rows: seq<Row>,
      rows': seq<Row>)
    requires var q := Min(t.Remaining(), maker.Remaining());
      trade == TradeOf(t, maker, q) && t' == t.(filled := t.filled + q) && maker' == FillMaker(maker, q)
    requires rows == [maker] + rest
    requires rows' == if maker'.Remaining() <= 0.0 then rest else [maker'] + rest
    ensures TradedRows(t, rows, trade, t', rows')
  {
    assert rows[1..] == rest;
  }

  lemma MapAfterTrade(skipped: seq<Order>, m: map<OrderId, Order>, m': map<OrderId, Order>, id: OrderId, side: Side)
    requires SetAside(skipped, m, side) && (m' == m || m' == m - {id})
    ensures SetAside(skipped, m', side) && Submap(m', m)
  {
  }

  /** TradeWithBest, in rows, with set-aside orders untouched. */
  method TradeRows(taker: Order, maker: Order, ob: Orderbook, ghost skipped: seq<Order>) returns (trade: Trade)
    requires ob.Valid() && ob.Flat(taker.side.Opposite()) != [] && maker == ob.Flat(taker.side.Opposite())[0]
    requires SetAside(skipped, ob.orderMap, taker.side.Opposite())
    modifies taker, maker, ob, ob.bids, ob.asks, ob.bids.Nodes, ob.asks.Nodes
    ensures ob.Valid() && ob.bids.Nodes == old(ob.bids.Nodes) && ob.asks.Nodes == old(ob.asks.Nodes)
    ensures TradedRows(old(taker.Snapshot()), old(Rows(ob.Flat(taker.side.Opposite()))), trade,
                       taker.Snapshot(), Rows(ob.Flat(taker.side.Opposite())))
    ensures Rows(skipped) == old(Rows(skipped)) && SetAside(skipped, ob.orderMap, taker.side.Opposite())
    ensures ob.Flat(taker.side) == old(ob.Flat(taker.side))
    ensures Submap(ob.orderMap, old(ob.orderMap))
    ensures ob.Flat(taker.side.Opposite()) == old(ob.Flat(taker.side.Opposite()))[1..]
         || (taker.quantity - taker.filled <= 0.0
             && ob.Flat(taker.side.Opposite()) == old(ob.Flat(taker.side.Opposite())))
  {
    ghost var flat, known := ob.Flat(taker.side.Opposite()), ob.orderMap;
    ghost var t, mk, rest := taker.Snapshot(), maker.Snapshot(), flat[1..];
    ghost var rows, others := Rows(flat), Rows(rest);
    Bystanders(taker, maker, ob, skipped);
    RowsAppend([maker], rest);
    trade := TradeWithBest(taker, maker, ob, rest, skipped);
    RowsAppend([maker], rest);
    MapAfterTrade(skipped, known, ob.orderMap, maker.id, taker.side.Opposite());
    TradeInRows(t, mk, others, trade, taker.Snapshot(), maker.Snapshot(), rows, Rows(ob.Flat(taker.side.Opposite())));
  }

  lemma SetAsideMore(skipped: seq<Order>, flat: seq<Order>, orderMap: map<OrderId, Order>, side: Side)
    requires SetAside(skipped, orderMap, side) && flat != [] && flat[0].id in orderMap && flat[0].side == side
    ensures SetAside(skipped + [flat[0]], orderMap - {flat[0].id}, side)
    ensures Rows(skipped + [flat[0]]) == Rows(skipped) + [Rows(flat)[0]] && Rows(flat[1..]) == Rows(flat)[1..]
  {
    RowsAppend(skipped, [flat[0]]);
  }

  /** Takes one of the taker's own orders off the book for the time being. */
  method SkipBest(ob: Orderbook, side: Side, ghost skipped: seq<Order>)
    requires ob.Valid() && ob.Flat(side) != [] && SetAside(skipped, ob.orderMap, side)
    modifies ob, ob.bids, ob.asks, ob.bids.Nodes, ob.asks.Nodes
    ensures ob.Valid() && ob.bids.Nodes == old(ob.bids.Nodes) && ob.asks.Nodes == old(ob.asks.Nodes)
    ensures ob.Flat(side) == old(ob.Flat(side))[1..] && ob.Flat(side.Opposite()) == old(ob.Flat(side.Opposite()))
    ensures ob.orderMap == old(ob.orderMap) - {old(ob.Flat(side))[0].id}
    ensures var maker := old(ob.Flat(side))[0];
      && SetAside(skipped + [maker], ob.orderMap, side)
      && Rows(skipped + [maker]) == old(Rows(skipped)) + [old(Rows(ob.Flat(side)))[0]]
    ensures Rows(ob.Flat(side)) == old(Rows(ob.Flat(side)))[1..]
  {
    ghost var flat := ob.Flat(side);
    assert flat[0] in flat;
    SetAsideMore(skipped, flat, ob.orderMap, side);
    DequeueFilled(ob, side, flat[1..], skipped + [flat[0]]);
  }

  /** What the matching loop keeps: no order is new to the book, and those set aside came
      from it. `now` is what is left of the side. */
  ghost predicate FromBook(orderMap: map<OrderId, Order>, now: seq<Order>, side: Side, skipped: seq<Order>,
                           flat: seq<Order>, known: map<OrderId, Order>)
  {
    && SetAside(skipped, orderMap, side) && Submap(orderMap, known)
    && (forall o | o in skipped :: o.id in known && known[o.id] == o)
    && (forall o | o in now :: o in flat)
  }

  lemma SkipKeepsFromBook(orderMap: map<OrderId, Order>, now: seq<Order>, side: Side, skipped: seq<Order>,
                          flat: seq<Order>, known: map<OrderId, Order>)
    requires FromBook(orderMap, now, side, skipped, flat, known)
    requires now != [] && now[0].side == side && now[0].id in orderMap && orderMap[now[0].id] == now[0]
    ensures FromBook(orderMap - {now[0].id}, now[1..], side, skipped + [now[0]], flat, known)
  {
  }

  lemma TradeKeepsFromBook(orderMap: map<OrderId, Order>, now: seq<Order>, side: Side, skipped: seq<Order>,
                           flat: seq<Order>, known: map<OrderId, Order>, orderMap': map<OrderId, Order>,
                           now': seq<Order>)
    requires FromBook(orderMap, now, side, skipped, flat, known)
    requires Submap(orderMap', orderMap) && forall o | o in now' :: o in now
    ensures FromBook(orderMap', now', side, skipped, flat, known)
  {
  }

  /** The loop's turn on one of the taker's own orders. */
  method SkipTurn(taker: Order, maker: Order, ob: Orderbook, side: Side, ghost trades: seq<Trade>,
                  ghost consumed: seq<Row>, skipped: seq<Order>, ghost m: Matched, ghost flat: seq<Order>,
                  ghost known: map<OrderId, Order>)
    returns (skipped': seq<Order>)
    requires ob.Valid() && FromBook(ob.orderMap, ob.Flat(side), side, skipped, flat, known)
    requires Following(m, trades, consumed, Rows(skipped), taker.Snapshot(), Rows(ob.Flat(side)))
    requires !Stops(taker.Snapshot(), Rows(ob.Flat(side))) && Rows(ob.Flat(side))[0].user == taker.user
    requires maker == ob.Flat(side)[0]
    modifies ob, ob.bids, ob.asks, ob.bids.Nodes, ob.asks.Nodes
    ensures ob.Valid() && ob.bids.Nodes == old(ob.bids.Nodes) && ob.asks.Nodes == old(ob.asks.Nodes)
    ensures FromBook(ob.orderMap, ob.Flat(side), side, skipped', flat, known)
    ensures Following(m, trades, consumed, Rows(skipped'), taker.Snapshot(), Rows(ob.Flat(side)))
    ensures ob.Flat(side) == old(ob.Flat(side))[1..] && ob.Flat(side.Opposite()) == old(ob.Flat(side.Opposite()))
  {
    ghost var now, t, rows, aside := ob.Flat(side), taker.Snapshot(), Rows(ob.Flat(side)), Rows(skipped);
    FollowSkip(m, trades, consumed, aside, t, rows);
    assert maker in now;
    SkipKeepsFromBook(ob.orderMap, now, side, skipped, flat, known);
    SkipBest(ob, side, skipped);
    assert taker.Snapshot() == t && Rows(ob.Flat(side)) == rows[1..] && Rows(skipped + [maker]) == aside + [rows[0]];
    skipped' := skipped + [maker];
  }

  /** The loop's turn on another user's order. */
  method TradeTurn(taker: Order, maker: Order, ob: Orderbook, side: Side, trades: seq<Trade>, ghost consumed: seq<Row>,
                   ghost skipped: seq<Order>, ghost m: Matched, ghost flat: seq<Order>,
                   ghost known: map<OrderId, Order>)
    returns (trades': seq<Trade>, ghost consumed': seq<Row>)
    requires ob.Valid() && FromBook(ob.orderMap, ob.Flat(side), side, skipped, flat, known)
        && side == taker.side.Opposite()
    requires Following(m, trades, consumed, Rows(skipped), taker.Snapshot(), Rows(ob.Flat(side)))
    requires !Stops(taker.Snapshot(), Rows(ob.Flat(side))) && Rows(ob.Flat(side))[0].user != taker.user
    requires maker == ob.Flat(side)[0]
    modifies taker, maker, ob, ob.bids, ob.asks, ob.bids.Nodes, ob.asks.Nodes
    ensures ob.Valid() && ob.bids.Nodes == old(ob.bids.Nodes) && ob.asks.Nodes == old(ob.asks.Nodes)
    ensures FromBook(ob.orderMap, ob.Flat(side), side, skipped, flat, known)
    ensures Following(m, trades', consumed', Rows(skipped), taker.Snapshot(), Rows(ob.Flat(side)))
    ensures ob.Flat(taker.side) == old(ob.Flat(taker.side))
    ensures |ob.Flat(side)| < old(|ob.Flat(side)|)
         || (taker.quantity - taker.filled <= 0.0 && ob.Flat(side) == old(ob.Flat(side)))
  {
    ghost var t, rows, aside := taker.Snapshot(), Rows(ob.Flat(side)), Rows(skipped);
    ghost var orderMap, now := ob.orderMap, ob.Flat(side);
    var trade := TradeRows(taker, maker, ob, skipped);
    consumed' := FollowTrade(m, trades, consumed, aside, t, rows, trade, taker.Snapshot(), Rows(ob.Flat(side)));
    TradeKeepsFromBook(orderMap, now, side, skipped, flat, known, ob.orderMap, ob.Flat(side));
    trades' := trades + [trade];
  }

  /** What matching an incoming order against a book comes to. */
  ghost function MatchedAgainst(ob: Orderbook, taker: Order): Matched
    reads taker, ob.SideOf(taker.side.Opposite()), ob.Flat(taker.side.Opposite())
  {
    Match(taker.Snapshot(), Rows(ob.Flat(taker.side.Opposite())))
  }

  /** Consumes the opposing side in price-time order while prices cross, setting the taker's
      own orders aside. */
  method MatchLoop(taker: Order, ob: Orderbook, side: Side) returns (trades: seq<Trade>, skipped: seq<Order>)
    requires ob.Valid() && side == taker.side.Opposite()
    modifies taker, ob, ob.bids, ob.asks, ob.bids.Nodes, ob.asks.Nodes, ob.Flat(side)
    ensures ob.Valid() && ob.bids.Nodes == old(ob.bids.Nodes) && ob.asks.Nodes == old(ob.asks.Nodes)
    ensures var m := old(MatchedAgainst(ob, taker));
      && trades == m.trades && taker.Snapshot() == m.taker
      && Rows(ob.Flat(side)) == m.rest && Rows(skipped) == m.skipped
    ensures ob.Flat(taker.side) == old(ob.Flat(taker.side))
    ensures FromBook(ob.orderMap, ob.Flat(side), side, skipped, old(ob.Flat(side)), old(ob.orderMap))
  {
    ghost var flat, known := ob.Flat(side), ob.orderMap;
    ghost var m := Match(taker.Snapshot(), Rows(flat));
    ghost var consumed: seq<Row> := [];
    trades, skipped := [], [];
    FollowStart(taker.Snapshot(), Rows(flat), Rows(skipped));
    while true
      invariant ob.Valid() && ob.bids.Nodes == old(ob.bids.Nodes) && ob.asks.Nodes == old(ob.asks.Nodes)
      invariant Following(m, trades, consumed, Rows(skipped), taker.Snapshot(), Rows(ob.Flat(side)))
      invariant ob.Flat(taker.side) == old(ob.Flat(taker.side))
      invariant FromBook(ob.orderMap, ob.Flat(side), side, skipped, flat, known)
      decreases |ob.Flat(side)| + if taker.quantity - taker.filled > 0.0 then 1 else 0
    {
      var best := ob.Best(side);
      WhenToStop(taker, best, ob.Flat(side));
      if taker.quantity - taker.filled <= 0.0 { break; }
      if best == null { break; }
      var maker: Order := best;
      if if taker.side.Buy? then taker.price < maker.price else taker.price > maker.price { break; }
      if taker.user == maker.user {
        skipped := SkipTurn(taker, maker, ob, side, trades, consumed, skipped, m, flat, known);
      } else {
        trades, consumed := TradeTurn(taker, maker, ob, side, trades, consumed, skipped, m, flat, known);
      }
    }
    FollowStop(m, trades, consumed, Rows(skipped), taker.Snapshot(), Rows(ob.Flat(side)));
  }

  lemma {:induction false} RememberingKnown(m: map<OrderId, Order>, os: seq<Order>, known: map<OrderId, Order>)
    requires Submap(m, known) && forall o | o in os :: o.id in known && known[o.id] == o
    ensures Submap(Remembering(m, os), known)
  {
    if os != [] { RememberingKnown(m, os[..|os| - 1], known); }
  }

  /** ReaddSkipped, with orders a that stand by. */
  method ReaddKeeping(ob: Orderbook, skipped: seq<Order>, side: Side, ghost a: seq<Order>)
    requires ob.Valid() && SetAside(skipped, ob.orderMap, side)
    modifies ob, ob.bids, ob.asks, ob.bids.Nodes, ob.asks.Nodes
    ensures ob.Valid() && fresh(ob.bids.Nodes - old(ob.bids.Nodes)) && fresh(ob.asks.Nodes - old(ob.asks.Nodes))
    ensures ob.Flat(side) == InsertOrders(side, old(ob.Flat(side)), skipped)
    ensures ob.Flat(side.Opposite()) == old(ob.Flat(side.Opposite()))
    ensures ob.orderMap == Remembering(old(ob.orderMap), skipped) && Rows(a) == old(Rows(a))
  {
    ReaddSkipped(ob, skipped, side);
  }

  /** ReaddSkipped, in rows; a are orders that stand by. */
  method ReaddRows(ob: Orderbook, skipped: seq<Order>, side: Side, ghost a: seq<Order>)
    requires ob.Valid() && SetAside(skipped, ob.orderMap, side)
    modifies ob, ob.bids, ob.asks, ob.bids.Nodes, ob.asks.Nodes
    ensures ob.Valid() && fresh(ob.bids.Nodes - old(ob.bids.Nodes)) && fresh(ob.asks.Nodes - old(ob.asks.Nodes))
    ensures Rows(ob.Flat(side)) == old(InsertAll(side, Rows(ob.Flat(side)), Rows(skipped)))
    ensures ob.Flat(side.Opposite()) == old(ob.Flat(side.Opposite())) && Rows(a) == old(Rows(a))
    ensures ob.orderMap == Remembering(old(ob.orderMap), skipped)
  {
    RowsOfInsertOrders(side, ob.Flat(side), skipped);
    ghost var after := InsertOrders(side, ob.Flat(side), skipped);
    RowsOfParts(after, a);
    ReaddKeeping(ob, skipped, side, after + a);
    RowsOfParts(after, a);
  }

  /** Puts the orders passed over back, after the match m of a taker that stands by. */
  method PutBack(taker: Order, ob: Orderbook, side: Side, skipped: seq<Order>, ghost m: Matched,
                 ghost known: map<OrderId, Order>)
    requires ob.Valid() && SetAside(skipped, ob.orderMap, side)
    requires Submap(ob.orderMap, known) && forall o | o in skipped :: o.id in known && known[o.id] == o
    requires taker.Snapshot() == m.taker && Rows(ob.Flat(side)) == m.rest && Rows(skipped) == m.skipped
    modifies ob, ob.bids, ob.asks, ob.bids.Nodes, ob.asks.Nodes
    ensures ob.Valid() && fresh(ob.bids.Nodes - old(ob.bids.Nodes)) && fresh(ob.asks.Nodes - old(ob.asks.Nodes))
    ensures taker.Snapshot() == m.taker && Rows(ob.Flat(side)) == InsertAll(side, m.rest, m.skipped)
    ensures ob.Flat(side.Opposite()) == old(ob.Flat(side.Opposite())) && Submap(ob.orderMap, known)
  {
    RememberingKnown(ob.orderMap, skipped, known);
    ReaddRows(ob, skipped, side, [taker]);
    assert Rows([taker])[0] == taker.Snapshot();
  }

  /** Matches an incoming order against the opposing side of a book, and puts the orders it
      passed over back. */
  method MatchOrder(taker: Order, ob: Orderbook) returns (trades: seq<Trade>)
    requires ob.Valid() && taker.id !in ob.orderMap
    modifies taker, ob, ob.bids, ob.asks, ob.bids.Nodes, ob.asks.Nodes, ob.Flat(taker.side.Opposite())
    ensures ob.Valid() && fresh(ob.bids.Nodes - old(ob.bids.Nodes)) && fresh(ob.asks.Nodes - old(ob.asks.Nodes))
    ensures trades == old(MatchedAgainst(ob, taker)).trades && taker.Snapshot() == old(MatchedAgainst(ob, taker)).taker
    ensures Rows(ob.Flat(taker.side.Opposite()))
         == old(AfterMatch(taker.Snapshot(), Rows(ob.Flat(taker.side.Opposite()))))
    ensures ob.Flat(taker.side) == old(ob.Flat(taker.side))
    ensures Submap(ob.orderMap, old(ob.orderMap))
  {
    var side := taker.side.Opposite();
    var skipped;
    trades, skipped := MatchLoop(taker, ob, side);
    PutBack(taker, ob, side, skipped, old(MatchedAgainst(ob, taker)), old(ob.orderMap));
  }
}
