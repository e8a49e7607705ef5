/** Aggregated depth of a side, and rebuilding a side from a list of orders. */
module Depth {
  import opened Domain
  import opened FlatBook
  import opened Matching
  import opened MatchedBook

  /** The price levels of a sorted side, best first. */
  function Levels(s: seq<Row>): seq<PriceLevel>
    decreases |s|
  {
    if s == [] then []
    else
      var n := RunLength(s, s[0].price);
      [PriceLevel(s[0].price, SumRemaining(s[..n]), n)] + Levels(s[n..])
  }

  /** A depth answer to k levels: the leading ones, as many as there are up to k. */
  predicate Leading(shown: seq<PriceLevel>, levels: seq<PriceLevel>, k: nat) {
    shown <= levels && |shown| == if |levels| <= k then |levels| else k
  }

  function AtPrice(s: seq<Row>, p: real): seq<Row> {
    if s == [] then []
    else (if s[0].price == p then [s[0]] else []) + AtPrice(s[1..], p)
  }

  function LevelQuantity(ls: seq<PriceLevel>): real {
    if ls == [] then 0.0 else ls[0].quantity + LevelQuantity(ls[1..])
  }

  function LevelCount(ls: seq<PriceLevel>): nat {
    if ls == [] then 0 else ls[0].count + LevelCount(ls[1..])
  }

  lemma {:induction false} SumRemainingAppend(a: seq<Row>, b: seq<Row>)
    ensures SumRemaining(a + b) == SumRemaining(a) + SumRemaining(b)
  {
    if a == [] {
      assert a + b == b;
    } else {
      assert (a + b)[1..] == a[1..] + b;
      SumRemainingAppend(a[1..], b);
    }
  }

  lemma {:induction false} SumRemainingTakeOut(s: seq<Row>, j: nat)
    requires j < |s|
    ensures SumRemaining(s) == s[j].Remaining() + SumRemaining(s[..j] + s[j + 1..])
    ensures multiset(s) == multiset(s[..j] + s[j + 1..]) + multiset{s[j]}
  {
    var t := [s[j]] + s[j + 1..];
    assert s == s[..j] + t && t[1..] == s[j + 1..];
    SumRemainingAppend(s[..j], t);
    SumRemainingAppend(s[..j], s[j + 1..]);
  }

  lemma {:induction false} SumRemainingOfSameRows(a: seq<Row>, b: seq<Row>)
    requires multiset(a) == multiset(b)
    ensures SumRemaining(a) == SumRemaining(b)
  {
    if a == [] {
      assert |multiset(b)| == 0;
    } else {
      assert a[0] in multiset(b);
      var j :| 0 <= j < |b| && b[j] == a[0];
      SumRemainingTakeOut(b, j);
      assert a == [a[0]] + a[1..];
      assert multiset(a[1..]) == multiset(a) - multiset{a[0]};
      SumRemainingOfSameRows(a[1..], b[..j] + b[j + 1..]);
    }
  }

  /** All levels together hold the whole side. */
  lemma {:induction false} DepthTotals(s: seq<Row>)
    ensures LevelQuantity(Levels(s)) == SumRemaining(s)
    ensures LevelCount(Levels(s)) == |s|
    decreases |s|
  {
    if s != [] {
      var n := RunLength(s, s[0].price);
      DepthTotals(s[n..]);
      SumRemainingAppend(s[..n], s[n..]);
      assert s[..n] + s[n..] == s;
      assert Levels(s)[1..] == Levels(s[n..]);
    }
  }

  lemma Reassociate(a: seq<Row>, b: seq<Row>, c: seq<Row>)
    ensures a + b + c == a + (b + c)
  {
  }

  lemma {:induction false} AtPriceAppend(a: seq<Row>, b: seq<Row>, p: real)
    ensures AtPrice(a + b, p) == AtPrice(a, p) + AtPrice(b, p)
  {
    if a == [] {
      assert a + b == b;
    } else {
      assert (a + b)[0] == a[0] && (a + b)[1..] == a[1..] + b;
      AtPriceAppend(a[1..], b, p);
      Reassociate(if a[0].price == p then [a[0]] else [], AtPrice(a[1..], p), AtPrice(b, p));
    }
  }

  lemma {:induction false} AtPriceAll(s: seq<Row>, p: real)
    requires forall r | r in s :: r.price == p
    ensures AtPrice(s, p) == s
  {
    if s != [] {
      AtPriceAll(s[1..], p);
      assert s == [s[0]] + s[1..];
    }
  }

  lemma {:induction false} AtPriceNone(s: seq<Row>, p: real)
    requires forall r | r in s :: r.price != p
    ensures AtPrice(s, p) == []
  {
    if s != [] { AtPriceNone(s[1..], p); }
  }

  lemma WorseAfterRun(side: Side, s: seq<Row>)
    requires Sorted(side, s) && s != []
    ensures var n := RunLength(s, s[0].price);
      && 0 < n
      && (forall i | 0 <= i < n :: s[i].price == s[0].price)
      && (forall i | n <= i < |s| :: Better(side, s[0].price, s[i].price))
  {
    var n := RunLength(s, s[0].price);
    forall i | n <= i < |s| ensures Better(side, s[0].price, s[i].price) {
      assert !Better(side, s[n].price, s[0].price);
      assert i > n ==> !Better(side, s[i].price, s[n].price);
    }
  }

  lemma RunMembers(side: Side, s: seq<Row>)
    requires Sorted(side, s) && s != []
    ensures var p := s[0].price; var n := RunLength(s, p);
      && (forall r | r in s[..n] :: r.price == p)
      && (forall r | r in s[n..] :: Better(side, p, r.price))
  {
    var n := RunLength(s, s[0].price);
    WorseAfterRun(side, s);
    forall r | r in s[n..] ensures Better(side, s[0].price, r.price) {
      var i :| 0 <= i < |s[n..]| && s[n..][i] == r;
      assert s[n + i] == r;
    }
  }

  lemma AtPriceOfTail(s: seq<Row>, n: nat, p: real)
    requires n <= |s| && forall r | r in s[..n] :: r.price != p
    ensures AtPrice(s, p) == AtPrice(s[n..], p)
  {
    AtPriceNone(s[..n], p);
    AtPriceAppend(s[..n], s[n..], p);
    assert s[..n] + s[n..] == s;
  }

  lemma AtPriceSplit(a: seq<Row>, b: seq<Row>, p: real)
    requires forall r | r in a :: r.price == p
    requires forall r | r in b :: r.price != p
    ensures AtPrice(a + b, p) == a
  {
    AtPriceAll(a, p);
    AtPriceNone(b, p);
    AtPriceAppend(a, b, p);
  }

  lemma AtPriceSplitAt(s: seq<Row>, n: nat, p: real)
    requires n <= |s|
    requires forall r | r in s[..n] :: r.price == p
    requires forall r | r in s[n..] :: r.price != p
    ensures AtPrice(s, p) == s[..n]
  {
    AtPriceSplit(s[..n], s[n..], p);
    assert s[..n] + s[n..] == s;
  }

  /** The leading run of a sorted side holds every row of its price, and all later rows
      are strictly worse. */
  lemma RunHoldsPrice(side: Side, s: seq<Row>)
    requires Sorted(side, s) && s != []
    ensures var p := s[0].price; var n := RunLength(s, p);
      && 0 < n && AtPrice(s, p) == s[..n]
      && (forall r | r in s[..n] :: r.price == p)
      && (forall r | r in s[n..] :: Better(side, p, r.price))
  {
    var p := s[0].price;
    var n := RunLength(s, p);
    WorseAfterRun(side, s);
    RunMembers(side, s);
    AtPriceSplitAt(s, n, p);
  }

  /** A level reports every order of its price and no other. */
  predicate Reports(s: seq<Row>, l: PriceLevel) {
    l.count == |AtPrice(s, l.price)| > 0 && l.quantity == SumRemaining(AtPrice(s, l.price))
  }

  lemma LevelsStep(s: seq<Row>)
    requires s != []
    ensures var n := RunLength(s, s[0].price);
      0 < n && Levels(s) == [PriceLevel(s[0].price, SumRemaining(s[..n]), n)] + Levels(s[n..])
  {
  }

  lemma {:induction false} AtPriceMembers(s: seq<Row>, p: real)
    ensures forall r :: r in AtPrice(s, p) <==> r in s && r.price == p
  {
    if s != [] {
      AtPriceMembers(s[1..], p);
      assert s == [s[0]] + s[1..];
    }
  }

  lemma LaterLevelReports(side: Side, s: seq<Row>, n: nat, l: PriceLevel)
    requires s != [] && n <= |s| && Reports(s[n..], l)
    requires forall r | r in s[..n] :: r.price == s[0].price
    requires forall r | r in s[n..] :: Better(side, s[0].price, r.price)
    ensures Better(side, s[0].price, l.price) && Reports(s, l)
  {
    AtPriceMembers(s[n..], l.price);
    assert AtPrice(s[n..], l.price)[0] in s[n..];
    AtPriceOfTail(s, n, l.price);
  }

  /** Every level reports the resting orders of its price exactly, and levels run strictly
      from best to worst. */
  lemma {:induction false} LevelsReport(side: Side, s: seq<Row>)
    requires Sorted(side, s)
    ensures forall l | l in Levels(s) :: Reports(s, l)
    ensures forall i, j | 0 <= i < j < |Levels(s)| :: Better(side, Levels(s)[i].price, Levels(s)[j].price)
    decreases |s|
  {
    if s != [] {
      var p := s[0].price;
      var n := RunLength(s, p);
      RunHoldsPrice(side, s);
      LevelsReport(side, s[n..]);
      forall l | l in Levels(s[n..]) ensures Better(side, p, l.price) && Reports(s, l) {
        LaterLevelReports(side, s, n, l);
      }
      LevelsStep(s);
    }
  }

  lemma SortedTail(side: Side, s: seq<Row>, n: nat)
    requires Sorted(side, s) && n <= |s|
    ensures Sorted(side, s[n..])
  {
  }

  /** Every price with a resting order has a level. */
  lemma {:induction false} EveryPriceHasLevel(side: Side, s: seq<Row>, r: Row) returns (l: PriceLevel)
    requires Sorted(side, s) && r in s
    ensures l in Levels(s) && l.price == r.price
    decreases |s|
  {
    var n := RunLength(s, s[0].price);
    LevelsStep(s);
    if r in s[n..] {
      SortedTail(side, s, n);
      l := EveryPriceHasLevel(side, s[n..], r);
    } else {
      RunMembers(side, s);
      assert r in s[..n] by { assert s == s[..n] + s[n..]; }
      l := Levels(s)[0];
    }
  }

  predicate Shown(shown: seq<PriceLevel>, price: real) { exists l | l in shown :: l.price == price }

  predicate BehindAll(side: Side, shown: seq<PriceLevel>, price: real) {
    forall l | l in shown :: if side.Buy? then price < l.price else price > l.price
  }

  /** What a depth query to k levels shows of a side: levels from best to worst, bids downwards
      and asks upwards in price, each reporting exactly the orders of its price; and an order
      is left out only behind k levels that are all at strictly better prices. */
  ghost predicate ShowsBest(side: Side, s: seq<Row>, k: nat, shown: seq<PriceLevel>) {
    && |shown| <= k
    && (forall l | l in shown :: Reports(s, l))
    && (forall i, j | 0 <= i < j < |shown| ::
          if side.Buy? then shown[i].price > shown[j].price else shown[i].price < shown[j].price)
    && (forall r | r in s :: Shown(shown, r.price) || (|shown| == k && BehindAll(side, shown, r.price)))
  }

  /** The leading levels of a side are its best. */
  lemma LeadingShowsBest(side: Side, s: seq<Row>, k: nat, shown: seq<PriceLevel>)
    requires Sorted(side, s) && Leading(shown, Levels(s), k)
    ensures ShowsBest(side, s, k, shown)
  {
    var levels := Levels(s);
    LevelsReport(side, s);
    assert forall i | 0 <= i < |shown| :: shown[i] == levels[i];
    forall r | r in s ensures Shown(shown, r.price) || (|shown| == k && BehindAll(side, shown, r.price)) {
      var l := EveryPriceHasLevel(side, s, r);
      var i :| 0 <= i < |levels| && levels[i] == l;
      if i < |shown| { assert shown[i] in shown; }
    }
  }

  lemma SameBestPrice(side: Side, s: seq<Row>, t: seq<Row>)
    requires Sorted(side, s) && Sorted(side, t) && multiset(s) == multiset(t)
    requires s != [] && t != []
    ensures s[0].price == t[0].price
  {
    assert s[0] in multiset(t) && t[0] in multiset(s);
  }

  lemma PartsAtAndAfter(side: Side, p: real, a: seq<Row>, b: seq<Row>, c: seq<Row>, d: seq<Row>)
    requires multiset(a + b) == multiset(c + d)
    requires forall r | r in a || r in c :: r.price == p
    requires forall r | r in b || r in d :: Better(side, p, r.price)
    ensures multiset(a) == multiset(c) && multiset(b) == multiset(d)
  {
    forall r ensures multiset(a)[r] == multiset(c)[r] && multiset(b)[r] == multiset(d)[r] {
      assert multiset(a)[r] + multiset(b)[r] == multiset(a + b)[r] == multiset(c)[r] + multiset(d)[r];
      if r.price == p {
        assert r !in multiset(b) && r !in multiset(d);
      } else {
        assert r !in multiset(a) && r !in multiset(c);
      }
    }
  }

  lemma SplitMultisets(side: Side, p: real, s: seq<Row>, n: nat, t: seq<Row>, k: nat)
    requires n <= |s| && k <= |t| && multiset(s) == multiset(t)
    requires forall r | r in s[..n] || r in t[..k] :: r.price == p
    requires forall r | r in s[n..] || r in t[k..] :: Better(side, p, r.price)
    ensures n == k && multiset(s[..n]) == multiset(t[..k]) && multiset(s[n..]) == multiset(t[k..])
  {
    var a, b, c, d := s[..n], s[n..], t[..k], t[k..];
    assert s == a + b && t == c + d;
    PartsAtAndAfter(side, p, a, b, c, d);
    assert |multiset(a)| == |a| && |multiset(c)| == |c|;
  }

  lemma SameRowsSameRun(side: Side, s: seq<Row>, t: seq<Row>)
    requires Sorted(side, s) && Sorted(side, t) && multiset(s) == multiset(t)
    requires s != [] && t != []
    ensures s[0].price == t[0].price
    ensures var n := RunLength(s, s[0].price);
      && n == RunLength(t, t[0].price) > 0
      && multiset(s[..n]) == multiset(t[..n]) && multiset(s[n..]) == multiset(t[n..])
  {
    SameBestPrice(side, s, t);
    var p := s[0].price;
    var n, k := RunLength(s, p), RunLength(t, p);
    WorseAfterRun(side, s);
    RunMembers(side, s);
    RunMembers(side, t);
    SplitMultisets(side, p, s, n, t, k);
  }

  /** Depth sees which orders rest, not how they queue. */
  lemma {:induction false} DepthIgnoresQueueOrder(side: Side, s: seq<Row>, t: seq<Row>)
    requires Sorted(side, s) && Sorted(side, t) && multiset(s) == multiset(t)
    ensures Levels(s) == Levels(t)
    decreases |s|
  {
    if s == [] || t == [] {
      assert |multiset(s)| == |multiset(t)|;
    } else {
      SameRowsSameRun(side, s, t);
      var n := RunLength(s, s[0].price);
      SumRemainingOfSameRows(s[..n], t[..n]);
      DepthIgnoresQueueOrder(side, s[n..], t[n..]);
    }
  }

  // ---- restoring a side from a list ----

  lemma InsertIsStable(side: Side, s: seq<Row>, r: Row, p: real)
    requires Sorted(side, s)
    ensures AtPrice(Insert(side, s, r), p) == AtPrice(s, p) + (if r.price == p then [r] else [])
  {
    var k := InsertPosition(side, s, r);
    assert s[..k] + s[k..] == s;
    AtPriceAppend(s[..k], s[k..], p);
    AtPriceAppend(s[..k] + [r], s[k..], p);
    AtPriceAppend(s[..k], [r], p);
    assert [r][1..] == [];
    if r.price == p { AtPriceNone(s[k..], p); }
  }

  /** Inserting a list one by one is a stable sort by price: sorted, nothing lost, and at
      every price the listed order. */
  lemma {:induction false} InsertAllIsStable(side: Side, s: seq<Row>, rs: seq<Row>, p: real)
    requires Sorted(side, s)
    ensures Sorted(side, InsertAll(side, s, rs))
    ensures multiset(InsertAll(side, s, rs)) == multiset(s) + multiset(rs)
    ensures AtPrice(InsertAll(side, s, rs), p) == AtPrice(s, p) + AtPrice(rs, p)
    decreases |rs|
  {
    if rs != [] {
      var s' := Insert(side, s, rs[0]);
      InsertKeepsOrder(side, s, rs[0]);
      InsertKeepsRows(side, s, rs[0]);
      InsertIsStable(side, s, rs[0], p);
      InsertAllIsStable(side, s', rs[1..], p);
      assert rs == [rs[0]] + rs[1..];
      assert AtPrice(rs, p) == (if rs[0].price == p then [rs[0]] else []) + AtPrice(rs[1..], p);
      Reassociate(AtPrice(s, p), if rs[0].price == p then [rs[0]] else [], AtPrice(rs[1..], p));
    }
  }

  lemma SameEmptiness(s: seq<Row>, t: seq<Row>)
    requires forall p :: AtPrice(s, p) == AtPrice(t, p)
    ensures s == [] ==> t == []
  {
    if t != [] { AtPriceMembers(s, t[0].price); }
  }

  /** Two sorted lists that agree at every price are the same list: stable sorting by
      price has one result. */
  lemma {:induction false} StableSortIsUnique(side: Side, s: seq<Row>, t: seq<Row>)
    requires Sorted(side, s) && Sorted(side, t)
    requires forall p :: AtPrice(s, p) == AtPrice(t, p)
    ensures s == t
  {
    SameEmptiness(s, t);
    SameEmptiness(t, s);
    if s != [] && t != [] {
      var p, q := s[0].price, t[0].price;
      AtPriceMembers(t, p);
      AtPriceMembers(s, q);
      assert AtPrice(s, p)[0] == s[0] && AtPrice(t, q)[0] == t[0];
      assert AtPrice(s, p)[0] in AtPrice(t, p) && AtPrice(t, q)[0] in AtPrice(s, q);
      assert p == q;
      forall x ensures AtPrice(s[1..], x) == AtPrice(t[1..], x) {
        assert AtPrice(s, x) == AtPrice(t, x);
        assert AtPrice(s, x) == (if p == x then [s[0]] else []) + AtPrice(s[1..], x);
        assert AtPrice(t, x) == (if p == x then [t[0]] else []) + AtPrice(t[1..], x);
        var skip := if p == x then 1 else 0;
        assert AtPrice(s[1..], x) == AtPrice(s, x)[skip..];
        assert AtPrice(t[1..], x) == AtPrice(t, x)[skip..];
      }
      StableSortIsUnique(side, s[1..], t[1..]);
    }
  }

  lemma {:induction false} OccursOnce(s: seq<Row>, r: Row)
    requires DistinctIds(s)
    ensures multiset(s)[r] == if r in s then 1 else 0
  {
    if s != [] {
      OccursOnce(s[1..], r);
      assert s == [s[0]] + s[1..];
    }
  }

  /** A list without repeated identifiers is determined, up to order, by its members. */
  lemma SameMembersSameRows(s: seq<Row>, t: seq<Row>)
    requires DistinctIds(s) && DistinctIds(t)
    requires forall r :: r in s <==> r in t
    ensures multiset(s) == multiset(t)
  {
    forall r ensures multiset(s)[r] == multiset(t)[r] {
      OccursOnce(s, r);
      OccursOnce(t, r);
    }
  }
}
