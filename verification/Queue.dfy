/** The FIFO queue of one price level, with its index by order identifier. */
module Queue {
  import opened Domain

  /** The queue without the order of that identifier, the others in unchanged order. */
  function Without(orders: seq<Order>, id: OrderId): seq<Order> {
    if orders == [] then []
    else if orders[0].id == id then orders[1..]
    else [orders[0]] + Without(orders[1..], id)
  }

  lemma {:induction false} WithoutAt(orders: seq<Order>, id: OrderId, k: nat)
    requires k < |orders| && orders[k].id == id
    requires forall i, j | 0 <= i < j < |orders| :: orders[i].id != orders[j].id
    ensures Without(orders, id) == orders[..k] + orders[k + 1..]
  {
    if k > 0 {
      WithoutAt(orders[1..], id, k - 1);
      assert orders[1..][..k - 1] == orders[1..k] && orders[1..][k..] == orders[k + 1..];
      assert [orders[0]] + orders[1..k] == orders[..k];
    }
  }

  /** The index holds exactly the queued orders, each identifier once. */
  ghost predicate Indexed(orders: seq<Order>, index: map<OrderId, Order>) {
    && (forall i, j | 0 <= i < j < |orders| :: orders[i].id != orders[j].id)
    && (forall o | o in orders :: o.id in index && index[o.id] == o)
    && (forall id | id in index :: index[id] in orders && index[id].id == id)
  }

  lemma WithoutStaysIndexed(orders: seq<Order>, index: map<OrderId, Order>, id: OrderId, k: nat)
    requires Indexed(orders, index) && k < |orders| && orders[k].id == id
    ensures Indexed(orders[..k] + orders[k + 1..], index - {id})
  {
    var rest := orders[..k] + orders[k + 1..];
    forall i | 0 <= i < |rest| ensures rest[i] == orders[if i < k then i else i + 1] { }
    forall x | x in index - {id} ensures (index - {id})[x] in rest {
      var j :| 0 <= j < |orders| && orders[j] == index[x];
      assert index[x] == rest[if j < k then j else j - 1];
    }
  }

  class OrderQueue {
    var orders: seq<Order>
    var index: map<OrderId, Order>

    ghost predicate Valid()
      reads this
    {
      Indexed(orders, index)
    }

    constructor ()
      ensures Valid() && orders == [] && index == map[]
    {
      orders := [];
      index := map[];
    }

    method Enqueue(order: Order)
      requires Valid() && order.id !in index
      modifies this
      ensures Valid() && orders == old(orders) + [order]
      ensures index == old(index)[order.id := order]
    {
      orders := orders + [order];
      index := index[order.id := order];
    }

    method Dequeue() returns (order: Order?)
      requires Valid()
      modifies this
      ensures Valid()
      ensures old(orders) == [] ==> order == null && orders == [] && index == old(index)
      ensures old(orders) != [] ==>
        order == old(orders)[0] && orders == old(orders)[1..] && index == old(index) - {order.id}
    {
      if |orders| == 0 { return null; }
      order := orders[0];
      orders := orders[1..];
      index := index - {order.id};
    }

    function Peek(): (order: Order?)
      reads this
    {
      if |orders| == 0 then null else orders[0]
    }

    method Remove(id: OrderId) returns (found: bool)
      requires Valid()
      modifies this
      ensures Valid()
      ensures found == (id in old(index))
      ensures index == old(index) - {id} && orders == if found then Without(old(orders), id) else old(orders)
    {
      if id !in index {
        assert index == index - {id};
        return false;
      }
      var elem := index[id];
      var k :| 0 <= k < |orders| && orders[k] == elem;
      WithoutAt(orders, id, k);
      WithoutStaysIndexed(orders, index, id, k);
      orders := orders[..k] + orders[k + 1..];
      index := index - {id};
      return true;
    }

    function Len(): nat
      reads this
    {
      |orders|
    }

    method Orders() returns (result: seq<Order>)
      ensures result == orders
    {
      result := [];
      for i := 0 to |orders|
        invariant result == orders[..i]
      {
        result := result + [orders[i]];
      }
    }
  }
}
