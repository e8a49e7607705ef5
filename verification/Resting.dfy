/** Placing an order in a book: matching it, giving it its final status, and resting what is
    left of it. Proved to compute FlatBook.Place. */
module Resting {
  import opened Domain
  import opened FlatBook
  import opened PriceLevels
  import opened Orderbook
  import opened OrderMatching

  lemma SidesApart(ob: Orderbook, side: Side)
    requires ob.Valid()
    ensures forall o | o in ob.Flat(side) :: o !in ob.Flat(side.Opposite()) && o.id in ob.orderMap
  {
  }

  /** The status an order has once matching is over; the book does not hold it. */
  method FinishMatching(order: Order, ghost ob: Orderbook) returns (rests: bool)
    requires ob.Valid() && order.id !in ob.orderMap
    modifies order
    ensures ob.Valid() && Rows(ob.Flat(Buy)) == old(Rows(ob.Flat(Buy)))
        && Rows(ob.Flat(Sell)) == old(Rows(ob.Flat(Sell)))
    ensures order.Snapshot() == Settled(old(order.Snapshot()))
    ensures order.filled == old(order.filled)
    ensures order.filled >= order.quantity ==> order.status == Filled
    ensures 0.0 < order.filled < order.quantity ==> order.status == Partial
    ensures order.filled <= 0.0 && order.filled < order.quantity ==> order.status == old(order.status)
    ensures rests == (order.Snapshot().Remaining() > 0.0)
  {
    SidesApart(ob, Buy);
    SidesApart(ob, Sell);
    var remainingQty := order.quantity - order.filled;
    rests := remainingQty > 0.0;
    if rests {
      if order.filled > 0.0 { order.status := Partial; }
    } else {
      order.status := Filled;
    }
  }

  /** Adds an order to a book; a are orders that stand by. */
  method AddKeeping(ob: Orderbook, order: Order, ghost a: seq<Order>)
    requires ob.Valid() && order.id !in ob.orderMap
    modifies ob, ob.bids, ob.asks, ob.bids.Nodes, ob.asks.Nodes
    ensures ob.Valid() && fresh(ob.bids.Nodes - old(ob.bids.Nodes)) && fresh(ob.asks.Nodes - old(ob.asks.Nodes))
    ensures ob.Flat(order.side) == InsertOrder(order.side, old(ob.Flat(order.side)), order)
    ensures ob.Flat(order.side.Opposite()) == old(ob.Flat(order.side.Opposite()))
    ensures ob.orderMap == old(ob.orderMap)[order.id := order] && Rows(a) == old(Rows(a))
  {
    ob.AddOrderUnlocked(order);
  }

  /** Rests an order, in rows. */
  method Rest(ob: Orderbook, order: Order)
    requires ob.Valid() && order.id !in ob.orderMap
    modifies ob, ob.bids, ob.asks, ob.bids.Nodes, ob.asks.Nodes
    ensures ob.Valid() && fresh(ob.bids.Nodes - old(ob.bids.Nodes)) && fresh(ob.asks.Nodes - old(ob.asks.Nodes))
    ensures Rows(ob.Flat(order.side)) == Insert(order.side, old(Rows(ob.Flat(order.side))), old(order.Snapshot()))
    ensures Rows(ob.Flat(order.side.Opposite())) == old(Rows(ob.Flat(order.side.Opposite())))
    ensures order.Snapshot() == old(order.Snapshot()) && ob.orderMap == old(ob.orderMap)[order.id := order]
  {
    ghost var other, own := ob.Flat(order.side.Opposite()), InsertOrder(order.side, ob.Flat(order.side), order);
    RowsOfInsert(order.side, ob.Flat(order.side), order);
    RowsOfParts(own, other);
    AddKeeping(ob, order, own + other);
    RowsOfParts(own, other);
  }

  /** MatchOrder; a are orders that stand by. */
  method MatchKeeping(taker: Order, ob: Orderbook, ghost a: seq<Order>) returns (trades: seq<Trade>)
    requires ob.Valid() && taker.id !in ob.orderMap
    requires forall o | o in a :: o != taker && o !in ob.Flat(taker.side.Opposite())
    modifies taker, ob, ob.bids, ob.asks, ob.bids.Nodes, ob.asks.Nodes, ob.Flat(taker.side.Opposite())
    ensures ob.Valid() && fresh(ob.bids.Nodes - old(ob.bids.Nodes)) && fresh(ob.asks.Nodes - old(ob.asks.Nodes))
    ensures trades == old(MatchedAgainst(ob, taker)).trades && taker.Snapshot() == old(MatchedAgainst(ob, taker)).taker
    ensures Rows(ob.Flat(taker.side.Opposite()))
         == old(AfterMatch(taker.Snapshot(), Rows(ob.Flat(taker.side.Opposite()))))
    ensures ob.Flat(taker.side) == old(ob.Flat(taker.side)) && Rows(a) == old(Rows(a))
    ensures Submap(ob.orderMap, old(ob.orderMap))
  {
    trades := MatchOrder(taker, ob);
  }

  /** MatchOrder, in rows: the taker's own side stands by. */
  method MatchRows(taker: Order, ob: Orderbook) returns (trades: seq<Trade>)
    requires ob.Valid() && taker.id !in ob.orderMap
    modifies taker, ob, ob.bids, ob.asks, ob.bids.Nodes, ob.asks.Nodes, ob.Flat(taker.side.Opposite())
    ensures ob.Valid() && fresh(ob.bids.Nodes - old(ob.bids.Nodes)) && fresh(ob.asks.Nodes - old(ob.asks.Nodes))
    ensures trades == old(MatchedAgainst(ob, taker)).trades && taker.Snapshot() == old(MatchedAgainst(ob, taker)).taker
    ensures Rows(ob.Flat(taker.side.Opposite()))
         == old(AfterMatch(taker.Snapshot(), Rows(ob.Flat(taker.side.Opposite()))))
    ensures Rows(ob.Flat(taker.side)) == old(Rows(ob.Flat(taker.side)))
    ensures Submap(ob.orderMap, old(ob.orderMap))
  {
    SidesApart(ob, taker.side);
    trades := MatchKeeping(taker, ob, ob.Flat(taker.side));
  }

  /** Gives an order its final status and rests it if anything of it is left. */
  method FinishOrder(order: Order, ob: Orderbook) returns (rests: bool)
    requires ob.Valid() && order.id !in ob.orderMap
    modifies order, ob, ob.bids, ob.asks, ob.bids.Nodes, ob.asks.Nodes
    ensures ob.Valid() && fresh(ob.bids.Nodes - old(ob.bids.Nodes)) && fresh(ob.asks.Nodes - old(ob.asks.Nodes))
    ensures order.Snapshot() == Settled(old(order.Snapshot())) && rests == (order.Snapshot().Remaining() > 0.0)
    ensures var own := old(Rows(ob.Flat(order.side)));
      Rows(ob.Flat(order.side)) == if rests then Insert(order.side, own, order.Snapshot()) else own
    ensures Rows(ob.Flat(order.side.Opposite())) == old(Rows(ob.Flat(order.side.Opposite())))
    ensures ob.orderMap == if rests then old(ob.orderMap)[order.id := order] else old(ob.orderMap)
  {
    rests := FinishMatching(order, ob);
    if rests { Rest(ob, order); }
  }

  lemma SubmapAdds(a: map<OrderId, Order>, b: map<OrderId, Order>, o: Order)
    requires Submap(a, b) && o.id !in b
    ensures Submap(a, b[o.id := o]) && Submap(a[o.id := o], b[o.id := o]) && o.id !in a
  {
  }

  /** Place, put together from its two sides. */
  lemma PlacedSides(b: Book, t: Row, b': Book)
    requires var m := Match(t, b.SideRows(t.side.Opposite())); var own := b.SideRows(t.side);
      && b'.SideRows(t.side.Opposite()) == AfterMatch(t, b.SideRows(t.side.Opposite()))
      && b'.SideRows(t.side) == if m.taker.Remaining() > 0.0 then Insert(t.side, own, Settled(m.taker)) else own
    ensures b' == Place(b, t)
  {
  }

  /** FinishOrder, after t has been matched against b. */
  method FinishPlacing(order: Order, ob: Orderbook, ghost b: Book, ghost t: Row, ghost known: map<OrderId, Order>)
    returns (rests: bool)
    requires ob.Valid() && order.id !in known && Submap(ob.orderMap, known) && order.side == t.side
    requires var m := Match(t, b.SideRows(t.side.Opposite()));
      && order.Snapshot() == m.taker
      && Rows(ob.Flat(t.side.Opposite())) == AfterMatch(t, b.SideRows(t.side.Opposite()))
      && Rows(ob.Flat(t.side)) == b.SideRows(t.side)
    modifies order, ob, ob.bids, ob.asks, ob.bids.Nodes, ob.asks.Nodes
    ensures ob.Valid() && fresh(ob.bids.Nodes - old(ob.bids.Nodes)) && fresh(ob.asks.Nodes - old(ob.asks.Nodes))
    ensures order.Snapshot() == Settled(old(order.Snapshot())) && rests == (order.Snapshot().Remaining() > 0.0)
    ensures ob.View() == Place(b, t) && Submap(ob.orderMap, known[order.id := order])
  {
    SubmapAdds(ob.orderMap, known, order);
    rests := FinishOrder(order, ob);
    PlacedSides(b, t, ob.View());
  }

  /** The engine's part of placing an order that happens under the book's lock: matching,
      then resting what is left. */
  method PlaceInBook(order: Order, ob: Orderbook) returns (trades: seq<Trade>, rests: bool)
    requires ob.Valid() && order.id !in ob.orderMap
    modifies order, ob, ob.bids, ob.asks, ob.bids.Nodes, ob.asks.Nodes, ob.Flat(order.side.Opposite())
    ensures ob.Valid() && fresh(ob.bids.Nodes - old(ob.bids.Nodes)) && fresh(ob.asks.Nodes - old(ob.asks.Nodes))
    ensures trades == old(MatchedAgainst(ob, order)).trades
        && order.Snapshot() == Settled(old(MatchedAgainst(ob, order)).taker)
    ensures rests == (order.Snapshot().Remaining() > 0.0)
    ensures ob.View() == old(Place(ob.View(), order.Snapshot()))
    ensures Submap(ob.orderMap, old(ob.orderMap)[order.id := order])
  {
    ghost var b, t, known := ob.View(), order.Snapshot(), ob.orderMap;
    trades := MatchRows(order, ob);
    rests := FinishPlacing(order, ob, b, t, known);
  }
}
