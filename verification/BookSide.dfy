/** One side of an order book: a list of price levels kept sorted by binary search, with a
    FIFO queue per level. */
module BookSide {
  import opened Domain
  import opened FlatBook
  import opened Queue
  import opened PriceLevels
  import opened Matching
  import D = Depth

  datatype PriceQueue = PriceQueue(price: real, queue: OrderQueue)

  /** The sequence with x inserted at i. */
  function Spliced<T>(s: seq<T>, i: nat, x: T): (r: seq<T>)
    requires i <= |s|
    ensures |r| == |s| + 1
    ensures forall k | 0 <= k < |r| :: r[k] == if k < i then s[k] else if k == i then x else s[k - 1]
  {
    s[..i] + [x] + s[i..]
  }

  /** The sequence without its element at i. */
  function Cut<T>(s: seq<T>, i: nat): (r: seq<T>)
    requires i < |s|
    ensures |r| == |s| - 1
    ensures forall k | 0 <= k < |r| :: r[k] == if k < i then s[k] else s[k + 1]
  {
    s[..i] + s[i + 1..]
  }

  /** A level as depth shows it. */
  ghost function Aggregate(l: Level): PriceLevel
    reads l.orders
  {
    PriceLevel(l.price, SumRemaining(Rows(l.orders)), |l.orders|)
  }

  lemma RemainingStep(orders: seq<Order>, j: nat)
    requires j < |orders|
    ensures SumRemaining(Rows(orders[..j + 1]))
         == SumRemaining(Rows(orders[..j])) + (orders[j].quantity - orders[j].filled)
  {
    RowsAppend(orders[..j], [orders[j]]);
    D.SumRemainingAppend(Rows(orders[..j]), Rows([orders[j]]));
    assert orders[..j + 1] == orders[..j] + [orders[j]];
    assert Rows([orders[j]]) == [orders[j].Snapshot()] && Rows([orders[j]])[1..] == [];
  }

  /** One level: the inner loop of the aggregation. */
  method AggregateLevel(price: real, orders: seq<Order>, ghost l: Level) returns (level: PriceLevel)
    requires price == l.price && orders == l.orders
    ensures level == Aggregate(l)
  {
    var totalQty := 0.0;
    for j := 0 to |orders|
      invariant totalQty == SumRemaining(Rows(orders[..j]))
    {
      RemainingStep(orders, j);
      totalQty := totalQty + (orders[j].quantity - orders[j].filled);
    }
    assert orders[..|orders|] == orders;
    level := PriceLevel(price, totalQty, |orders|);
  }

  ghost predicate PairedAt(qs: seq<PriceQueue>, ls: seq<Level>, m: int, q: PriceQueue, l: Level) {
    0 <= m < |qs| == |ls| && qs[m] == q && ls[m] == l
  }

  ghost predicate PairedApart(qs: seq<PriceQueue>, ls: seq<Level>, i: nat, q: PriceQueue, l: Level) {
    exists m | m != i :: PairedAt(qs, ls, m, q, l)
  }

  /** Cutting at i leaves the other pairs of queue and level, no queue twice. */
  lemma CutParts(qs: seq<PriceQueue>, ls: seq<Level>, i: nat)
    requires i < |qs| == |ls| && forall j, k | 0 <= j < k < |qs| :: qs[j].queue != qs[k].queue
    ensures forall j, k | 0 <= j < k < |qs| - 1 :: Cut(qs, i)[j].queue != Cut(qs, i)[k].queue
    ensures forall j | 0 <= j < |qs| - 1 :: PairedApart(qs, ls, i, Cut(qs, i)[j], Cut(ls, i)[j])
  {
    forall j | 0 <= j < |qs| - 1 ensures PairedApart(qs, ls, i, Cut(qs, i)[j], Cut(ls, i)[j]) {
      assert PairedAt(qs, ls, if j < i then j else j + 1, Cut(qs, i)[j], Cut(ls, i)[j]);
    }
  }

  class BookSide {
    const side: Side
    var levels: seq<PriceQueue>

    /** The levels as values, and all queues ever created. */
    ghost var view: seq<Level>
    ghost var Nodes: set<OrderQueue>

    /** Queues and values correspond, and no two levels share a queue. */
    ghost predicate Mirrors()
      reads this, Nodes
    {
      && |levels| == |view|
      && (forall i | 0 <= i < |levels| ::
            && levels[i].queue in Nodes && levels[i].queue.Valid()
            && levels[i].price == view[i].price && levels[i].queue.orders == view[i].orders)
      && (forall i, j | 0 <= i < j < |levels| :: levels[i].queue != levels[j].queue)
    }

    /** Level prices strictly sorted, no level empty, every order at its level's price, and
        every queue's index holding exactly its orders. */
    ghost predicate Valid()
      reads this, Nodes
    {
      Mirrors() && LevelsOk(side, view)
    }

    /** The side as one sequence, best price first, oldest first within a price. */
    ghost function Flat(): seq<Order>
      reads this
    {
      FlatOf(view)
    }

    constructor (side: Side)
      ensures Valid() && this.side == side && Flat() == [] && Nodes == {}
    {
      this.side := side;
      levels, view, Nodes := [], [], {};
    }

    /** The binary search: the first level strictly worse than the price. */
    method Search(price: real) returns (idx: nat)
      requires Valid()
      ensures Splits(side, view, price, idx)
    {
      idx := 0;
      var j := |levels|;
      while idx < j
        invariant 0 <= idx <= j <= |levels|
        invariant forall i | 0 <= i < idx :: !Better(side, price, view[i].price)
        invariant forall i | j <= i < |levels| :: Better(side, price, view[i].price)
      {
        var h := (idx + j) / 2;
        if !Better(side, price, levels[h].price) { idx := h + 1; } else { j := h; }
      }
    }

    /** An order outside the side is in no queue's index. */
    lemma FreshToQueues(id: OrderId)
      requires Valid() && forall o | o in Flat() :: o.id != id
      ensures forall i | 0 <= i < |levels| :: id !in levels[i].queue.index
    {
      forall i | 0 <= i < |levels| ensures id !in levels[i].queue.index {
        var q := levels[i].queue;
        if id in q.index { HeldInFlat(view, i, q.index[id]); }
      }
    }

    method EnqueueAt(i: nat, order: Order)
      requires Mirrors() && i < |levels| && order.id !in levels[i].queue.index
      modifies this`view, Nodes
      ensures Mirrors()
      ensures view == old(view)[i := Level(old(view)[i].price, old(view)[i].orders + [order])]
    {
      levels[i].queue.Enqueue(order);
      view := view[i := Level(view[i].price, view[i].orders + [order])];
    }

    method InsertLevel(idx: nat, order: Order)
      requires Mirrors() && idx <= |levels|
      modifies this
      ensures Mirrors() && fresh(Nodes - old(Nodes)) && old(Nodes) <= Nodes
      ensures view == Spliced(old(view), idx, Level(order.price, [order]))
    {
      var queue := new OrderQueue();
      queue.Enqueue(order);
      Nodes := Nodes + {queue};
      levels := Spliced(levels, idx, PriceQueue(order.price, queue));
      view := Spliced(view, idx, Level(order.price, [order]));
    }

    /** Adds an order behind all orders of a price at least as good. */
    method Add(order: Order)
      requires Valid() && order.side == side && forall o | o in Flat() :: o.id != order.id
      modifies this, Nodes
      ensures Valid() && fresh(Nodes - old(Nodes)) && old(Nodes) <= Nodes
      ensures Flat() == InsertOrder(side, old(Flat()), order)
    {
      FreshToQueues(order.id);
      var idx := Search(order.price);
      AddedOk(side, view, order, idx);
      AddedFlat(side, view, order, idx);
      ghost var added := Added(view, order, idx);
      if idx > 0 && levels[idx - 1].price == order.price {
        EnqueueAt(idx - 1, order);
      } else {
        InsertLevel(idx, order);
      }
      assert view == added;
    }

    function Best(): (order: Order?)
      requires Valid()
      reads this, Nodes
      ensures order == if Flat() == [] then null else Flat()[0]
    {
      if |levels| == 0 then null
      else
        assert LevelOk(side, view[0]);
        levels[0].queue.Peek()
    }

    /** Mirrors, except that the queue of level i has come down to other orders. */
    ghost predicate MirrorsBut(i: nat, left: seq<Order>)
      reads this, Nodes
    {
      && i < |levels| == |view|
      && (forall j | 0 <= j < |levels| ::
            && levels[j].queue in Nodes && levels[j].queue.Valid() && levels[j].price == view[j].price
            && levels[j].queue.orders == if j == i then left else view[j].orders)
      && (forall j, k | 0 <= j < k < |levels| :: levels[j].queue != levels[k].queue)
    }

    /** Drops a level whose queue has run empty. */
    method DropIfEmpty(i: nat, ghost left: seq<Order>)
      requires MirrorsBut(i, left)
      modifies this`levels, this`view
      ensures Mirrors() && view == Reduced(old(view), i, left)
    {
      if levels[i].queue.Len() == 0 {
        CutParts(levels, view, i);
        levels, view := Cut(levels, i), Cut(view, i);
      } else {
        view := view[i := Level(view[i].price, left)];
      }
    }

    /** Takes the front order out of the best level's queue. */
    method DequeueFront() returns (front: Order)
      requires Valid() && levels != []
      modifies Nodes
      ensures front == view[0].orders[0] && view[0].orders != [] && MirrorsBut(0, view[0].orders[1..])
    {
      assert LevelOk(side, view[0]);
      front := levels[0].queue.Dequeue();
    }

    /** Removes the front order of the best level, and the level with it if it was the last. */
    method TakeBest() returns (front: Order)
      requires Valid() && Flat() != []
      modifies this, Nodes
      ensures Valid() && Nodes == old(Nodes)
      ensures front == old(Flat())[0] && Flat() == old(Flat())[1..]
    {
      TakenFlat(side, view);
      ghost var left := view[0].orders[1..];
      front := DequeueFront();
      DropIfEmpty(0, left);
    }

    /** Takes the best order off the side; an empty side stays as it is. */
    method DequeueBest() returns (front: Order?)
      requires Valid()
      modifies this, Nodes
      ensures Valid() && Nodes == old(Nodes)
      ensures old(Flat()) == [] ==> front == null && Flat() == []
      ensures old(Flat()) != [] ==> front == old(Flat())[0] && Flat() == old(Flat())[1..]
    {
      if |levels| == 0 { return null; }
      assert LevelOk(side, view[0]);
      front := TakeBest();
    }

    /** Takes an order out of the queue of a level if it is there. */
    method RemoveFromQueue(i: nat, id: OrderId) returns (found: bool)
      requires Valid() && i < |levels|
      modifies Nodes
      ensures found == (id in old(levels[i].queue.index))
      ensures MirrorsBut(i, if found then Without(view[i].orders, id) else view[i].orders)
    {
      found := levels[i].queue.Remove(id);
    }

    /** Removes the order from one level's queue if it is there, and the level with it if
        that was its last order. */
    method RemoveFromLevel(i: nat, id: OrderId) returns (found: bool)
      requires Valid() && i < |levels|
      modifies this, Nodes
      ensures Mirrors() && Nodes == old(Nodes)
      ensures found == (id in old(levels[i].queue.index))
      ensures found ==> view == Reduced(old(view), i, Without(old(view)[i].orders, id))
      ensures !found ==> view == old(view) && levels == old(levels)
    {
      found := RemoveFromQueue(i, id);
      if found { DropIfEmpty(i, Without(view[i].orders, id)); }
    }

    /** What leaving level i says about the levels up to it. */
    lemma NotInLevel(i: nat, id: OrderId)
      requires Valid() && i < |levels| && id !in levels[i].queue.index
      requires forall o | o in FlatOf(view[..i]) :: o.id != id
      ensures forall o | o in FlatOf(view[..i + 1]) :: o.id != id
    {
      FlatSplit(view[..i + 1], i);
      assert view[..i + 1][..i] == view[..i] && view[..i + 1][i + 1..] == [];
    }

    lemma FoundInLevel(i: nat, id: OrderId)
      requires Valid() && i < |levels| && id in levels[i].queue.index
      requires forall o | o in FlatOf(view[..i]) :: o.id != id
      ensures exists o :: o in Flat() && o.id == id
      ensures var left := Reduced(view, i, Without(view[i].orders, id));
        LevelsOk(side, left) && FlatOf(left) == Without(Flat(), id)
    {
      var o := levels[i].queue.index[id];
      HeldInFlat(view, i, o);
      WithoutMembers(view[i].orders, id);
      ReducedOk(side, view, i, Without(view[i].orders, id));
      ReducedFlat(side, view, i, id);
    }

    /** Searches the levels in order and removes the order from the first queue that has it. */
    method RemoveOrder(id: OrderId) returns (found: bool)
      requires Valid()
      modifies this, Nodes
      ensures Valid() && Nodes == old(Nodes)
      ensures found == exists o :: o in old(Flat()) && o.id == id
      ensures Flat() == Without(old(Flat()), id)
    {
      for i := 0 to |levels|
        invariant Valid() && view == old(view) && levels == old(levels) && Nodes == old(Nodes)
        invariant forall o | o in FlatOf(view[..i]) :: o.id != id
      {
        if id in levels[i].queue.index { FoundInLevel(i, id); } else { NotInLevel(i, id); }
        var removed := RemoveFromLevel(i, id);
        if removed { return true; }
      }
      assert view[..|view|] == view;
      WithoutSkips(Flat(), [], id);
      assert Flat() + [] == Flat();
      return false;
    }

    /** All orders, level by level. */
    method Orders() returns (result: seq<Order>)
      requires Valid()
      ensures result == Flat()
    {
      result := [];
      for i := 0 to |levels|
        invariant result == FlatOf(view[..i])
      {
        var orders := levels[i].queue.Orders();
        FlatSplit(view[..i + 1], i);
        assert view[..i + 1][..i] == view[..i] && view[..i + 1][i + 1..] == [];
        result := result + orders;
      }
      assert view[..|view|] == view;
    }

    /** The total remaining quantity and number of orders of one level. */
    method LevelAt(i: nat) returns (level: PriceLevel)
      requires Valid() && i < |levels|
      ensures i < |view| && level == Aggregate(view[i])
    {
      level := AggregateLevel(levels[i].price, levels[i].queue.orders, view[i]);
    }

    /** The best levels, each with its total remaining quantity and number of orders. */
    method AggregateLevels(maxLevels: nat) returns (result: seq<PriceLevel>)
      requires Valid()
      ensures |result| == if |view| > maxLevels then maxLevels else |view|
      ensures forall k | 0 <= k < |result| :: result[k] == Aggregate(view[k])
    {
      var n := if |levels| > maxLevels then maxLevels else |levels|;
      result := [];
      for i := 0 to n
        invariant |result| == i
        invariant forall k | 0 <= k < i :: result[k] == old(Aggregate(view[k]))
      {
        var level := LevelAt(i);
        result := result + [level];
      }
    }

    /** The leading levels of the side's rows. */
    method LeadingLevels(maxLevels: nat) returns (result: seq<PriceLevel>)
      requires Valid()
      ensures D.Leading(result, old(D.Levels(Rows(Flat()))), maxLevels)
    {
      LevelsOfFlat(side, view);
      ghost var depth := D.Levels(Rows(Flat()));
      result := AggregateLevels(maxLevels);
    }

    /** The side's best levels; rows are its orders' rows. */
    method GetDepth(maxLevels: nat) returns (result: seq<PriceLevel>)
      requires Valid()
      ensures D.ShowsBest(side, old(Rows(Flat())), maxLevels, result)
    {
      ghost var rows := Rows(Flat());
      FlatIsSorted(side, view);
      result := LeadingLevels(maxLevels);
      D.LeadingShowsBest(side, rows, maxLevels, result);
    }
  }
}
