/** Price levels as values: what the order book's queues hold, level by level, and how that
    relates to one flat priority sequence. */
module PriceLevels {
  import opened Domain
  import opened FlatBook
  import opened Queue
  import opened Matching
  import MB = MatchedBook
  import D = Depth

  datatype Level = Level(price: real, orders: seq<Order>)

  function FlatOf(ls: seq<Level>): seq<Order> {
    if ls == [] then [] else ls[0].orders + FlatOf(ls[1..])
  }

  /** A level is never empty, and holds orders of its own price and side only. */
  ghost predicate LevelOk(side: Side, l: Level) {
    l.orders != [] && forall o | o in l.orders :: o.price == l.price && o.side == side
  }

  /** Levels run strictly from best to worst. */
  ghost predicate LevelsOk(side: Side, ls: seq<Level>) {
    && (forall i, j | 0 <= i < j < |ls| :: Better(side, ls[i].price, ls[j].price))
    && (forall i | 0 <= i < |ls| :: LevelOk(side, ls[i]))
  }

  ghost function Rows(os: seq<Order>): (rows: seq<Row>)
    reads os
    ensures |rows| == |os| && forall i | 0 <= i < |os| :: rows[i] == os[i].Snapshot()
  {
    if os == [] then [] else [os[0].Snapshot()] + Rows(os[1..])
  }

  /** Places an order behind every order of a price at least as good. */
  function InsertOrder(side: Side, os: seq<Order>, o: Order): seq<Order> {
    if os == [] || Better(side, o.price, os[0].price) then [o] + os
    else [os[0]] + InsertOrder(side, os[1..], o)
  }

  lemma {:induction false} InsertOrderAt(side: Side, os: seq<Order>, o: Order, k: nat)
    requires k <= |os|
    requires forall i | 0 <= i < k :: !Better(side, o.price, os[i].price)
    requires k < |os| ==> Better(side, o.price, os[k].price)
    ensures InsertOrder(side, os, o) == os[..k] + [o] + os[k..]
  {
    if k != 0 {
      assert os[1..][..k - 1] == os[1..k] && os[1..][k - 1..] == os[k..];
      InsertOrderAt(side, os[1..], o, k - 1);
      assert [os[0]] + os[1..k] == os[..k];
    }
  }

  lemma {:induction false} InsertOrderMembers(side: Side, os: seq<Order>, o: Order)
    ensures forall x :: x in InsertOrder(side, os, o) <==> x in os || x == o
  {
    if os != [] && !Better(side, o.price, os[0].price) {
      InsertOrderMembers(side, os[1..], o);
      assert os == [os[0]] + os[1..];
    }
  }

  function InsertOrders(side: Side, os: seq<Order>, more: seq<Order>): seq<Order>
    decreases |more|
  {
    if more == [] then os else InsertOrders(side, InsertOrder(side, os, more[0]), more[1..])
  }

  lemma {:induction false} InsertOneMoreOrder(side: Side, os: seq<Order>, more: seq<Order>, i: nat)
    requires i < |more|
    ensures InsertOrders(side, os, more[..i + 1]) == InsertOrder(side, InsertOrders(side, os, more[..i]), more[i])
    decreases |more|
  {
    if i > 0 {
      assert more[..i + 1][1..] == more[1..][..i] && more[..i][1..] == more[1..][..i - 1];
      InsertOneMoreOrder(side, InsertOrder(side, os, more[0]), more[1..], i - 1);
    }
  }

  /** Inserting an order object inserts its row. */
  lemma {:induction false} RowsOfInsert(side: Side, os: seq<Order>, o: Order)
    ensures Rows(InsertOrder(side, os, o)) == Insert(side, Rows(os), o.Snapshot())
  {
    if os != [] && !Better(side, o.price, os[0].price) {
      RowsOfInsert(side, os[1..], o);
    }
  }

  lemma {:induction false} RowsOfInsertOrders(side: Side, os: seq<Order>, more: seq<Order>)
    ensures Rows(InsertOrders(side, os, more)) == InsertAll(side, Rows(os), Rows(more))
    decreases |more|
  {
    if more != [] {
      RowsOfInsert(side, os, more[0]);
      RowsOfInsertOrders(side, InsertOrder(side, os, more[0]), more[1..]);
    }
  }

  lemma {:induction false} RowsOfWithout(os: seq<Order>, id: OrderId)
    ensures Rows(Without(os, id)) == RemoveId(Rows(os), id)
  {
    if os != [] { RowsOfWithout(os[1..], id); }
  }

  lemma {:induction false} FlatAppend(a: seq<Level>, b: seq<Level>)
    ensures FlatOf(a + b) == FlatOf(a) + FlatOf(b)
  {
    if a == [] {
      assert a + b == b;
    } else {
      assert (a + b)[1..] == a[1..] + b;
      FlatAppend(a[1..], b);
    }
  }

  lemma FlatSplit(ls: seq<Level>, i: nat)
    requires i < |ls|
    ensures FlatOf(ls) == FlatOf(ls[..i]) + ls[i].orders + FlatOf(ls[i + 1..])
  {
    assert ls == ls[..i] + ls[i..];
    FlatAppend(ls[..i], ls[i..]);
  }

  lemma {:induction false} LevelHolding(ls: seq<Level>, o: Order) returns (i: nat)
    requires o in FlatOf(ls)
    ensures i < |ls| && o in ls[i].orders
  {
    if o in ls[0].orders {
      i := 0;
    } else {
      i := LevelHolding(ls[1..], o);
      i := i + 1;
    }
  }

  lemma HeldInFlat(ls: seq<Level>, i: nat, o: Order)
    requires i < |ls| && o in ls[i].orders
    ensures o in FlatOf(ls)
  {
    FlatSplit(ls, i);
  }

  lemma SortedParts(side: Side, a: seq<Row>, b: seq<Row>, price: real)
    requires Sorted(side, b)
    requires forall i | 0 <= i < |a| :: a[i].price == price
    requires forall i | 0 <= i < |b| :: Better(side, price, b[i].price)
    ensures Sorted(side, a + b)
  {
  }

  lemma {:induction false} RowsAppend(a: seq<Order>, b: seq<Order>)
    ensures Rows(a + b) == Rows(a) + Rows(b)
  {
    if a == [] {
      assert a + b == b;
    } else {
      assert (a + b)[1..] == a[1..] + b;
      RowsAppend(a[1..], b);
    }
  }

  /** The flat sequence of well-formed levels runs from best to worst. */
  lemma {:induction false} FlatIsSorted(side: Side, ls: seq<Level>)
    requires LevelsOk(side, ls)
    ensures Sorted(side, Rows(FlatOf(ls)))
  {
    if ls != [] {
      var head, tail := ls[0].orders, FlatOf(ls[1..]);
      assert forall i | 0 <= i < |ls[1..]| :: ls[1..][i] == ls[i + 1];
      FlatIsSorted(side, ls[1..]);
      assert LevelOk(side, ls[0]);
      forall o | o in tail ensures Better(side, ls[0].price, o.price) {
        var j := LevelHolding(ls[1..], o);
        assert LevelOk(side, ls[j + 1]);
      }
      RowsAppend(head, tail);
      SortedParts(side, Rows(head), Rows(tail), ls[0].price);
    }
  }

  // ---- adding ----

  /** idx is where the strictly worse prices begin. */
  predicate Splits(side: Side, ls: seq<Level>, price: real, idx: nat) {
    && idx <= |ls|
    && (forall i | 0 <= i < idx :: !Better(side, price, ls[i].price))
    && (forall i | idx <= i < |ls| :: Better(side, price, ls[i].price))
  }

  function Added(ls: seq<Level>, o: Order, idx: nat): seq<Level>
    requires idx <= |ls|
  {
    if idx > 0 && ls[idx - 1].price == o.price then
      ls[idx - 1 := Level(o.price, ls[idx - 1].orders + [o])]
    else ls[..idx] + [Level(o.price, [o])] + ls[idx..]
  }

  lemma AddedOk(side: Side, ls: seq<Level>, o: Order, idx: nat)
    requires LevelsOk(side, ls) && Splits(side, ls, o.price, idx) && o.side == side
    ensures LevelsOk(side, Added(ls, o, idx))
  {
    var ls' := Added(ls, o, idx);
    if !(idx > 0 && ls[idx - 1].price == o.price) {
      assert forall i | 0 <= i < idx :: ls[i].price != o.price;
      forall i, j | 0 <= i < j < |ls'| ensures Better(side, ls'[i].price, ls'[j].price) { }
    }
  }

  lemma AheadNotWorse(side: Side, ls: seq<Level>, price: real, idx: nat)
    requires LevelsOk(side, ls) && Splits(side, ls, price, idx)
    ensures forall o | o in FlatOf(ls[..idx]) :: !Better(side, price, o.price)
    ensures forall o | o in FlatOf(ls[idx..]) :: Better(side, price, o.price)
  {
    forall o | o in FlatOf(ls[..idx]) ensures !Better(side, price, o.price) {
      var i := LevelHolding(ls[..idx], o);
      assert LevelOk(side, ls[i]);
    }
    forall o | o in FlatOf(ls[idx..]) ensures Better(side, price, o.price) {
      var i := LevelHolding(ls[idx..], o);
      assert LevelOk(side, ls[idx + i]);
    }
  }

  lemma Regroup(a: seq<Order>, b: seq<Order>, c: seq<Order>, d: seq<Order>)
    ensures a + (b + c) + d == (a + b + []) + c + d
  {
  }

  lemma AddedFlatParts(ls: seq<Level>, o: Order, idx: nat)
    requires idx <= |ls|
    ensures FlatOf(Added(ls, o, idx)) == FlatOf(ls[..idx]) + [o] + FlatOf(ls[idx..])
  {
    var ls' := Added(ls, o, idx);
    if idx > 0 && ls[idx - 1].price == o.price {
      FlatSplit(ls', idx - 1);
      assert ls'[..idx - 1] == ls[..idx - 1] && ls'[idx..] == ls[idx..];
      FlatSplit(ls[..idx], idx - 1);
      assert ls[..idx][..idx - 1] == ls[..idx - 1] && ls[..idx][idx..] == [];
      Regroup(FlatOf(ls[..idx - 1]), ls[idx - 1].orders, [o], FlatOf(ls[idx..]));
      assert FlatOf(ls[..idx]) == FlatOf(ls[..idx - 1]) + ls[idx - 1].orders + [];
    } else {
      FlatSplit(ls', idx);
      assert ls'[..idx] == ls[..idx] && ls'[idx + 1..] == ls[idx..];
    }
  }

  /** Adding to the levels is inserting into the flat sequence. */
  lemma AddedFlat(side: Side, ls: seq<Level>, o: Order, idx: nat)
    requires LevelsOk(side, ls) && Splits(side, ls, o.price, idx)
    ensures FlatOf(Added(ls, o, idx)) == InsertOrder(side, FlatOf(ls), o)
  {
    var front, back := FlatOf(ls[..idx]), FlatOf(ls[idx..]);
    AheadNotWorse(side, ls, o.price, idx);
    FlatAppend(ls[..idx], ls[idx..]);
    assert ls == ls[..idx] + ls[idx..];
    InsertOrderAt(side, front + back, o, |front|);
    assert (front + back)[..|front|] == front && (front + back)[|front|..] == back;
    AddedFlatParts(ls, o, idx);
  }

  // ---- removing ----

  /** Takes a level's orders down to what is left of them, dropping an empty level. */
  function Reduced(ls: seq<Level>, i: nat, left: seq<Order>): seq<Level>
    requires i < |ls|
  {
    if left == [] then ls[..i] + ls[i + 1..] else ls[i := Level(ls[i].price, left)]
  }

  lemma ReducedOk(side: Side, ls: seq<Level>, i: nat, left: seq<Order>)
    requires LevelsOk(side, ls) && i < |ls| && forall o | o in left :: o in ls[i].orders
    ensures LevelsOk(side, Reduced(ls, i, left))
    ensures FlatOf(Reduced(ls, i, left)) == FlatOf(ls[..i]) + left + FlatOf(ls[i + 1..])
  {
    var ls' := Reduced(ls, i, left);
    assert LevelOk(side, ls[i]);
    if left == [] {
      FlatAppend(ls[..i], ls[i + 1..]);
    } else {
      FlatSplit(ls', i);
      assert ls'[..i] == ls[..i] && ls'[i + 1..] == ls[i + 1..];
    }
  }

  lemma WithoutFront(a: seq<Order>, rest: seq<Order>)
    requires a != []
    ensures (a + rest)[0] == a[0] && (a + rest)[1..] == [] + a[1..] + rest
    ensures forall o | o in a[1..] :: o in a
  {
  }

  /** Taking the front of the best level takes the first of the flat sequence. */
  lemma TakenFlat(side: Side, ls: seq<Level>)
    requires LevelsOk(side, ls) && ls != []
    ensures ls[0].orders != [] && FlatOf(ls) != [] && FlatOf(ls)[0] == ls[0].orders[0]
    ensures LevelsOk(side, Reduced(ls, 0, ls[0].orders[1..]))
    ensures FlatOf(Reduced(ls, 0, ls[0].orders[1..])) == FlatOf(ls)[1..]
  {
    assert LevelOk(side, ls[0]);
    WithoutFront(ls[0].orders, FlatOf(ls[1..]));
    ReducedOk(side, ls, 0, ls[0].orders[1..]);
    assert FlatOf(ls[..0]) == [];
  }

  lemma {:induction false} WithoutMembers(os: seq<Order>, id: OrderId)
    ensures forall o | o in Without(os, id) :: o in os
    ensures forall o | o in os && o.id != id :: o in Without(os, id)
  {
    if os != [] {
      WithoutMembers(os[1..], id);
      assert os == [os[0]] + os[1..];
    }
  }

  lemma {:induction false} WithoutSkips(a: seq<Order>, b: seq<Order>, id: OrderId)
    requires forall o | o in a :: o.id != id
    ensures Without(a + b, id) == a + Without(b, id)
  {
    if a == [] {
      assert a + b == b;
    } else {
      assert (a + b)[1..] == a[1..] + b;
      WithoutSkips(a[1..], b, id);
    }
  }

  lemma {:induction false} WithoutStops(a: seq<Order>, b: seq<Order>, id: OrderId)
    requires exists o :: o in a && o.id == id
    ensures Without(a + b, id) == Without(a, id) + b
  {
    assert (a + b)[1..] == a[1..] + b;
    if a[0].id != id {
      assert a == [a[0]] + a[1..];
      WithoutStops(a[1..], b, id);
    }
  }

  lemma WithoutInside(a: seq<Order>, b: seq<Order>, c: seq<Order>, id: OrderId)
    requires forall o | o in a :: o.id != id
    requires exists o :: o in b && o.id == id
    ensures Without(a + b + c, id) == a + Without(b, id) + c
  {
    assert a + b + c == a + (b + c);
    WithoutSkips(a, b + c, id);
    WithoutStops(b, c, id);
    assert a + Without(b, id) + c == a + (Without(b, id) + c);
  }

  /** Removing an order from its level removes it from the flat sequence. */
  lemma ReducedFlat(side: Side, ls: seq<Level>, i: nat, id: OrderId)
    requires LevelsOk(side, ls) && i < |ls|
    requires exists o :: o in ls[i].orders && o.id == id
    requires forall o | o in FlatOf(ls[..i]) :: o.id != id
    ensures FlatOf(Reduced(ls, i, Without(ls[i].orders, id))) == Without(FlatOf(ls), id)
  {
    var a, b, c := FlatOf(ls[..i]), ls[i].orders, FlatOf(ls[i + 1..]);
    WithoutMembers(b, id);
    ReducedOk(side, ls, i, Without(b, id));
    FlatSplit(ls, i);
    WithoutInside(a, b, c, id);
  }

  // ---- aggregating ----

  lemma FirstRun(side: Side, ls: seq<Level>)
    requires LevelsOk(side, ls) && ls != []
    ensures FlatOf(ls) != []
    ensures MB.RunLength(Rows(FlatOf(ls)), ls[0].price) == |ls[0].orders|
    ensures Rows(FlatOf(ls))[0].price == ls[0].price
  {
    var rows := Rows(FlatOf(ls));
    var n := |ls[0].orders|;
    assert LevelOk(side, ls[0]);
    forall i | 0 <= i < n ensures rows[i].price == ls[0].price {
      assert FlatOf(ls)[i] == ls[0].orders[i] && ls[0].orders[i] in ls[0].orders;
    }
    if n < |rows| {
      var o := FlatOf(ls)[n];
      assert o == FlatOf(ls[1..])[0] && o in FlatOf(ls[1..]);
      var j := LevelHolding(ls[1..], o);
      assert LevelOk(side, ls[j + 1]);
    }
  }

  /** The depth of a flat side is the aggregation of its levels. */
  lemma {:induction false} LevelsOfFlat(side: Side, ls: seq<Level>)
    requires LevelsOk(side, ls)
    ensures var depth := D.Levels(Rows(FlatOf(ls)));
      && |depth| == |ls|
      && forall i | 0 <= i < |ls| ::
           depth[i] == PriceLevel(ls[i].price, SumRemaining(Rows(ls[i].orders)), |ls[i].orders|)
    decreases |ls|
  {
    if ls != [] {
      FirstRun(side, ls);
      RowsAppend(ls[0].orders, FlatOf(ls[1..]));
      var n := |ls[0].orders|;
      assert Rows(FlatOf(ls))[..n] == Rows(ls[0].orders);
      assert Rows(FlatOf(ls))[n..] == Rows(FlatOf(ls[1..]));
      assert forall i | 0 <= i < |ls[1..]| :: ls[1..][i] == ls[i + 1];
      LevelsOfFlat(side, ls[1..]);
    }
  }

  lemma LaterLevelsOk(side: Side, ls: seq<Level>)
    requires LevelsOk(side, ls) && ls != []
    ensures LevelsOk(side, ls[1..])
  {
    assert forall i | 0 <= i < |ls[1..]| :: ls[1..][i] == ls[i + 1];
  }

  /** Well-formed levels are determined by the flat sequence they hold. */
  lemma {:induction false} LevelsAreDetermined(side: Side, a: seq<Level>, b: seq<Level>)
    requires LevelsOk(side, a) && LevelsOk(side, b) && FlatOf(a) == FlatOf(b)
    ensures a == b
    decreases |a|
  {
    if a != [] { FirstRun(side, a); }
    if b != [] { FirstRun(side, b); }
    if a != [] && b != [] {
      var n := |a[0].orders|;
      assert a[0].orders == FlatOf(a)[..n] && b[0].orders == FlatOf(b)[..n];
      assert FlatOf(a[1..]) == FlatOf(a)[n..] && FlatOf(b[1..]) == FlatOf(b)[n..];
      LaterLevelsOk(side, a);
      LaterLevelsOk(side, b);
      LevelsAreDetermined(side, a[1..], b[1..]);
      assert a == [a[0]] + a[1..] && b == [b[0]] + b[1..];
    }
  }

  /** Inserting an order of a new identifier and taking it out again changes nothing. */
  lemma {:induction false} WithoutUndoesInsert(side: Side, os: seq<Order>, o: Order)
    requires forall x | x in os :: x.id != o.id
    ensures Without(InsertOrder(side, os, o), o.id) == os
  {
    if os != [] && !Better(side, o.price, os[0].price) {
      WithoutUndoesInsert(side, os[1..], o);
      assert os == [os[0]] + os[1..];
    } else {
      assert ([o] + os)[1..] == os;
    }
  }
}
