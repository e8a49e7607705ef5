/** The order book of one outcome: two sides of price levels, and two maps that mirror the
    whole book. */
module Orderbook {
  import opened Domain
  import opened FlatBook
  import opened Queue
  import opened PriceLevels
  import opened BookSide

  /** Both maps hold exactly the resting orders, a and b being the two sides. */
  ghost predicate Mapped(orderSide: map<OrderId, Side>, orderMap: map<OrderId, Order>, a: seq<Order>, b: seq<Order>) {
    && orderSide.Keys == orderMap.Keys
    && (forall o | o in a :: o.id in orderMap && orderMap[o.id] == o && o.side == Buy)
    && (forall o | o in b :: o.id in orderMap && orderMap[o.id] == o && o.side == Sell)
    && (forall id | id in orderMap :: orderMap[id].id == id && orderSide[id] == orderMap[id].side)
    && (forall id | id in orderMap :: orderMap[id] in if orderMap[id].side.Buy? then a else b)
  }

  predicate DistinctOrders(os: seq<Order>) {
    forall i, j | 0 <= i < j < |os| :: os[i].id != os[j].id
  }

  /** No identifier rests twice, and the maps hold exactly what rests. */
  ghost predicate Consistent(orderSide: map<OrderId, Side>, orderMap: map<OrderId, Order>, a: seq<Order>,
      b: seq<Order>) {
    DistinctOrders(a) && DistinctOrders(b) && Mapped(orderSide, orderMap, a, b)
  }

  lemma MappedAdds(orderSide: map<OrderId, Side>, orderMap: map<OrderId, Order>, a: seq<Order>, b: seq<Order>,
                   a': seq<Order>, b': seq<Order>, o: Order)
    requires Mapped(orderSide, orderMap, a, b) && o.id !in orderMap
    requires forall x :: x in a' <==> x in a || (x == o && o.side.Buy?)
    requires forall x :: x in b' <==> x in b || (x == o && o.side.Sell?)
    ensures Mapped(orderSide[o.id := o.side], orderMap[o.id := o], a', b')
  {
  }

  lemma MappedRemoves(orderSide: map<OrderId, Side>, orderMap: map<OrderId, Order>, a: seq<Order>, b: seq<Order>,
                      a': seq<Order>, b': seq<Order>, id: OrderId)
    requires Mapped(orderSide, orderMap, a, b)
    requires forall x :: x in a' <==> x in a && x.id != id
    requires forall x :: x in b' <==> x in b && x.id != id
    ensures Mapped(orderSide - {id}, orderMap - {id}, a', b')
  {
  }

  lemma InsertKeepsDistinct(side: Side, os: seq<Order>, o: Order)
    requires DistinctOrders(os) && forall x | x in os :: x.id != o.id
    ensures DistinctOrders(InsertOrder(side, os, o))
  {
    var k := 0;
    while k < |os| && !Better(side, o.price, os[k].price)
      invariant k <= |os|
      invariant forall i | 0 <= i < k :: !Better(side, o.price, os[i].price)
    {
      k := k + 1;
    }
    InsertOrderAt(side, os, o, k);
  }

  lemma ConsistentAdds(orderSide: map<OrderId, Side>, orderMap: map<OrderId, Order>, a: seq<Order>, b: seq<Order>,
      o: Order)
    requires Consistent(orderSide, orderMap, a, b) && o.id !in orderMap
    ensures o.side.Buy? ==> Consistent(orderSide[o.id := o.side], orderMap[o.id := o], InsertOrder(Buy, a, o), b)
    ensures o.side.Sell? ==> Consistent(orderSide[o.id := o.side], orderMap[o.id := o], a, InsertOrder(Sell, b, o))
  {
    if o.side.Buy? {
      InsertOrderMembers(Buy, a, o);
      InsertKeepsDistinct(Buy, a, o);
      MappedAdds(orderSide, orderMap, a, b, InsertOrder(Buy, a, o), b, o);
    } else {
      InsertOrderMembers(Sell, b, o);
      InsertKeepsDistinct(Sell, b, o);
      MappedAdds(orderSide, orderMap, a, b, a, InsertOrder(Sell, b, o), o);
    }
  }

  lemma WithoutAbsent(os: seq<Order>, id: OrderId)
    requires forall o | o in os :: o.id != id
    ensures Without(os, id) == os
  {
    WithoutSkips(os, [], id);
    assert os + [] == os;
  }

  lemma WithoutOne(os: seq<Order>, k: nat)
    requires DistinctOrders(os) && k < |os|
    ensures DistinctOrders(os[..k] + os[k + 1..])
    ensures forall o :: o in os[..k] + os[k + 1..] <==> o in os && o.id != os[k].id
  {
    var left := os[..k] + os[k + 1..];
    forall i | 0 <= i < |left| ensures left[i] == os[if i < k then i else i + 1] { }
    forall i | 0 <= i < |os| && i != k ensures left[if i < k then i else i - 1] == os[i] { }
  }

  lemma WithoutKeepsDistinct(os: seq<Order>, id: OrderId)
    requires DistinctOrders(os)
    ensures DistinctOrders(Without(os, id))
    ensures forall o :: o in Without(os, id) <==> o in os && o.id != id
  {
    if k :| 0 <= k < |os| && os[k].id == id {
      WithoutAt(os, id, k);
      WithoutOne(os, k);
    } else {
      WithoutAbsent(os, id);
    }
  }

  lemma ConsistentRemoves(orderSide: map<OrderId, Side>, orderMap: map<OrderId, Order>, a: seq<Order>, b: seq<Order>,
      id: OrderId)
    requires Consistent(orderSide, orderMap, a, b)
    ensures Consistent(orderSide - {id}, orderMap - {id}, Without(a, id), Without(b, id))
  {
    WithoutKeepsDistinct(a, id);
    WithoutKeepsDistinct(b, id);
    MappedRemoves(orderSide, orderMap, a, b, Without(a, id), Without(b, id), id);
  }

  /** An identifier is on its own side only. */
  lemma OtherSideUntouched(orderSide: map<OrderId, Side>, orderMap: map<OrderId, Order>, a: seq<Order>,
      b: seq<Order>, id: OrderId)
    requires Mapped(orderSide, orderMap, a, b)
    ensures id !in orderMap || orderMap[id].side.Sell? ==> Without(a, id) == a
    ensures id !in orderMap || orderMap[id].side.Buy? ==> Without(b, id) == b
  {
    if id !in orderMap || orderMap[id].side.Sell? { WithoutAbsent(a, id); }
    if id !in orderMap || orderMap[id].side.Buy? { WithoutAbsent(b, id); }
  }

  /** Taking the front order off one side. */
  lemma ConsistentDequeues(orderSide: map<OrderId, Side>, orderMap: map<OrderId, Order>, a: seq<Order>,
      b: seq<Order>, side: Side)
    requires Consistent(orderSide, orderMap, a, b) && (if side.Buy? then a else b) != []
    ensures side.Buy? ==> Consistent(orderSide - {a[0].id}, orderMap - {a[0].id}, a[1..], b)
    ensures side.Sell? ==> Consistent(orderSide - {b[0].id}, orderMap - {b[0].id}, a, b[1..])
  {
    var front := if side.Buy? then a[0] else b[0];
    ConsistentRemoves(orderSide, orderMap, a, b, front.id);
    OtherSideUntouched(orderSide, orderMap, a, b, front.id);
  }

  class Orderbook {
    const outcome: OutcomeId
    const bids: BookSide
    const asks: BookSide
    var orderSide: map<OrderId, Side>
    var orderMap: map<OrderId, Order>

    function SideOf(side: Side): BookSide { if side.Buy? then bids else asks }

    ghost function Flat(side: Side): seq<Order>
      reads SideOf(side)
    {
      SideOf(side).Flat()
    }

    /** The book's value. */
    ghost function View(): Book
      reads bids, asks, Flat(Buy), Flat(Sell)
    {
      Book(Rows(Flat(Buy)), Rows(Flat(Sell)))
    }

    /** The objects the book is made of, its orders apart. */
    ghost function Footprint(): set<object>
      reads bids, asks
    {
      {this, bids, asks} + bids.Nodes + asks.Nodes
    }

    /** Both sides well-formed and apart from each other. */
    ghost predicate SidesOk()
      reads bids, asks, bids.Nodes, asks.Nodes
    {
      && bids != asks && bids.Nodes !! asks.Nodes
      && bids.side == Buy && asks.side == Sell
      && bids.Valid() && asks.Valid()
    }

    /** The representation invariant of the whole book. */
    ghost predicate Valid()
      reads this, bids, asks, bids.Nodes, asks.Nodes
    {
      SidesOk() && Consistent(orderSide, orderMap, bids.Flat(), asks.Flat())
    }

    constructor (outcome: OutcomeId)
      ensures Valid() && this.outcome == outcome && fresh(Footprint())
      ensures Flat(Buy) == [] && Flat(Sell) == [] && orderMap == map[]
    {
      this.outcome := outcome;
      bids := new BookSide(Buy);
      asks := new BookSide(Sell);
      orderSide, orderMap := map[], map[];
    }

    /** Deletes an identifier from both maps, once its order has left its side. */
    method Forget(id: OrderId)
      requires SidesOk() && Consistent(orderSide - {id}, orderMap - {id}, bids.Flat(), asks.Flat())
      modifies this`orderSide, this`orderMap
      ensures Valid() && orderMap == old(orderMap) - {id}
    {
      orderSide := orderSide - {id};
      orderMap := orderMap - {id};
    }

    method AddToSide(order: Order)
      requires SidesOk() && forall o | o in Flat(order.side) :: o.id != order.id
      modifies bids, asks, bids.Nodes, asks.Nodes
      ensures SidesOk() && fresh(bids.Nodes - old(bids.Nodes)) && fresh(asks.Nodes - old(asks.Nodes))
      ensures Flat(order.side) == InsertOrder(order.side, old(Flat(order.side)), order)
      ensures Flat(order.side.Opposite()) == old(Flat(order.side.Opposite()))
    {
      if order.side.Buy? { bids.Add(order); } else { asks.Add(order); }
    }

    method RemoveFromSide(side: Side, id: OrderId) returns (found: bool)
      requires SidesOk()
      modifies bids, asks, bids.Nodes, asks.Nodes
      ensures SidesOk() && bids.Nodes == old(bids.Nodes) && asks.Nodes == old(asks.Nodes)
      ensures found == exists o :: o in old(Flat(side)) && o.id == id
      ensures Flat(side) == Without(old(Flat(side)), id) && Flat(side.Opposite()) == old(Flat(side.Opposite()))
    {
      if side.Buy? { found := bids.RemoveOrder(id); } else { found := asks.RemoveOrder(id); }
    }

    /** Rests an order without matching. */
    method AddOrderUnlocked(order: Order)
      requires Valid() && order.id !in orderMap
      modifies this, bids, asks, bids.Nodes, asks.Nodes
      ensures Valid() && fresh(bids.Nodes - old(bids.Nodes)) && fresh(asks.Nodes - old(asks.Nodes))
      ensures Flat(order.side) == InsertOrder(order.side, old(Flat(order.side)), order)
      ensures Flat(order.side.Opposite()) == old(Flat(order.side.Opposite()))
      ensures orderMap == old(orderMap)[order.id := order]
    {
      ConsistentAdds(orderSide, orderMap, bids.Flat(), asks.Flat(), order);
      orderSide := orderSide[order.id := order.side];
      orderMap := orderMap[order.id := order];
      AddToSide(order);
      assert Consistent(orderSide, orderMap, Flat(Buy), Flat(Sell));
    }

    function Best(side: Side): (order: Order?)
      requires Valid()
      reads this, bids, asks, bids.Nodes, asks.Nodes
      ensures order == if Flat(side) == [] then null else Flat(side)[0]
    {
      SideOf(side).Best()
    }

    method TakeBestBid() returns (front: Order)
      requires Valid() && Flat(Buy) != []
      modifies this, bids, bids.Nodes
      ensures Valid() && bids.Nodes == old(bids.Nodes) && asks.Nodes == old(asks.Nodes)
      ensures Flat(Buy) == old(Flat(Buy))[1..] && Flat(Sell) == old(Flat(Sell))
      ensures front == old(Flat(Buy))[0] && orderMap == old(orderMap) - {front.id}
    {
      ConsistentDequeues(orderSide, orderMap, bids.Flat(), asks.Flat(), Buy);
      front := bids.TakeBest();
      Forget(front.id);
    }

    method TakeBestAsk() returns (front: Order)
      requires Valid() && Flat(Sell) != []
      modifies this, asks, asks.Nodes
      ensures Valid() && bids.Nodes == old(bids.Nodes) && asks.Nodes == old(asks.Nodes)
      ensures Flat(Sell) == old(Flat(Sell))[1..] && Flat(Buy) == old(Flat(Buy))
      ensures front == old(Flat(Sell))[0] && orderMap == old(orderMap) - {front.id}
    {
      ConsistentDequeues(orderSide, orderMap, bids.Flat(), asks.Flat(), Sell);
      front := asks.TakeBest();
      Forget(front.id);
    }

    /** Takes the best order of a side off the book. */
    method TakeBest(side: Side) returns (front: Order)
      requires Valid() && Flat(side) != []
      modifies this, bids, asks, bids.Nodes, asks.Nodes
      ensures Valid() && bids.Nodes == old(bids.Nodes) && asks.Nodes == old(asks.Nodes)
      ensures Flat(side) == old(Flat(side))[1..]
      ensures Flat(side.Opposite()) == old(Flat(side.Opposite()))
      ensures front == old(Flat(side))[0] && orderMap == old(orderMap) - {front.id}
    {
      if side.Buy? { front := TakeBestBid(); } else { front := TakeBestAsk(); }
    }

    /** Takes the best order of a side off the book; an empty side stays as it is. */
    method DequeueBest(side: Side) returns (front: Order?)
      requires Valid()
      modifies this, bids, asks, bids.Nodes, asks.Nodes
      ensures Valid() && bids.Nodes == old(bids.Nodes) && asks.Nodes == old(asks.Nodes)
      ensures Flat(side.Opposite()) == old(Flat(side.Opposite()))
      ensures old(Flat(side)) == [] ==> front == null && Flat(side) == [] && orderMap == old(orderMap)
      ensures old(Flat(side)) != [] ==>
        && front == old(Flat(side))[0] && Flat(side) == old(Flat(side))[1..]
        && orderMap == old(orderMap) - {front.id}
    {
      if Best(side) == null { return null; }
      front := TakeBest(side);
    }

    /** Takes an order off the book by its identifier. The maps and the queues agree, so
        whenever the maps know the order, some queue of its side holds it. */
    method CancelOrder(id: OrderId) returns (order: Order?, found: bool)
      requires Valid()
      modifies this, bids, asks, bids.Nodes, asks.Nodes
      ensures Valid() && bids.Nodes == old(bids.Nodes) && asks.Nodes == old(asks.Nodes)
      ensures found == (id in old(orderMap)) && order == if found then old(orderMap)[id] else null
      ensures orderMap == old(orderMap) - {id}
      ensures Flat(Buy) == Without(old(Flat(Buy)), id) && Flat(Sell) == Without(old(Flat(Sell)), id)
    {
      ConsistentRemoves(orderSide, orderMap, bids.Flat(), asks.Flat(), id);
      OtherSideUntouched(orderSide, orderMap, bids.Flat(), asks.Flat(), id);
      if id !in orderSide {
        assert orderMap - {id} == orderMap;
        return null, false;
      }
      var side := orderSide[id];
      order := orderMap[id];
      found := RemoveFromSide(side, id);
      assert found;
      Forget(id);
    }

    method GetBids() returns (result: seq<Order>)
      requires Valid()
      ensures result == Flat(Buy)
    {
      result := bids.Orders();
    }

    method GetAsks() returns (result: seq<Order>)
      requires Valid()
      ensures result == Flat(Sell)
    {
      result := asks.Orders();
    }

    /** The best levels of both sides, aggregated. */
    method GetDepth(levels: nat) returns (bidLevels: seq<PriceLevel>, askLevels: seq<PriceLevel>)
      requires Valid()
      ensures D.ShowsBest(Buy, old(View()).bids, levels, bidLevels)
      ensures D.ShowsBest(Sell, old(View()).asks, levels, askLevels)
    {
      ghost var view := View();
      bidLevels := bids.GetDepth(levels);
      askLevels := asks.GetDepth(levels);
    }
  }

  /** The book as it was: the same orders in the same levels and queues, and the same maps. */
  twostate predicate Restored(ob: Orderbook)
    reads ob, ob.bids, ob.asks
  {
    && ob.bids.view == old(ob.bids.view) && ob.asks.view == old(ob.asks.view)
    && ob.orderMap == old(ob.orderMap) && ob.orderSide == old(ob.orderSide)
  }

  lemma MapRestored(m: map<OrderId, Order>, o: Order)
    requires o.id !in m
    ensures m[o.id := o] - {o.id} == m
  {
  }

  lemma SidesAreDetermined(s: map<OrderId, Side>, t: map<OrderId, Side>, orderMap: map<OrderId, Order>,
                           a: seq<Order>, b: seq<Order>)
    requires Mapped(s, orderMap, a, b) && Mapped(t, orderMap, a, b)
    ensures s == t
  {
    forall id | id in orderMap ensures s[id] == t[id] { }
  }

  lemma OthersKept(ob: Orderbook, order: Order)
    requires ob.Valid() && order.id !in ob.orderMap
    ensures Without(InsertOrder(order.side, ob.Flat(order.side), order), order.id) == ob.Flat(order.side)
    ensures Without(ob.Flat(order.side.Opposite()), order.id) == ob.Flat(order.side.Opposite())
  {
    WithoutUndoesInsert(order.side, ob.Flat(order.side), order);
    WithoutAbsent(ob.Flat(order.side.Opposite()), order.id);
  }

  /** Adding a fresh order and cancelling it, order by order. */
  method AddAndCancel(ob: Orderbook, order: Order)
    requires ob.Valid() && order.id !in ob.orderMap
    modifies ob, ob.bids, ob.asks, ob.bids.Nodes, ob.asks.Nodes
    ensures ob.orderMap == old(ob.orderMap) && ob.Flat(Buy) == old(ob.Flat(Buy)) && ob.Flat(Sell) == old(ob.Flat(Sell))
    ensures ob.Valid()
  {
    MapRestored(ob.orderMap, order);
    OthersKept(ob, order);
    ob.AddOrderUnlocked(order);
    var cancelled, found := ob.CancelOrder(order.id);
  }

  /** Adding a fresh order and cancelling it restores levels, queues and maps on both sides. */
  method AddThenCancel(ob: Orderbook, order: Order)
    requires ob.Valid() && order.id !in ob.orderMap
    modifies ob, ob.bids, ob.asks, ob.bids.Nodes, ob.asks.Nodes
    ensures ob.Valid() && Restored(ob)
  {
    ghost var bids, asks, sides := ob.bids.view, ob.asks.view, ob.orderSide;
    AddAndCancel(ob, order);
    LevelsAreDetermined(Buy, bids, ob.bids.view);
    LevelsAreDetermined(Sell, asks, ob.asks.view);
    SidesAreDetermined(sides, ob.orderSide, ob.orderMap, ob.Flat(Buy), ob.Flat(Sell));
  }
}
