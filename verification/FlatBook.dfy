/** The order book as a flat specification: each side is one sequence of rows, best price
    first and oldest first within a price. The level/queue/map book of Orderbook refines it. */
module FlatBook {
  import opened Domain

  datatype Book = Book(bids: seq<Row>, asks: seq<Row>) {
    function SideRows(side: Side): seq<Row> { if side.Buy? then bids else asks }

    function WithSide(side: Side, s: seq<Row>): Book {
      if side.Buy? then this.(bids := s) else this.(asks := s)
    }
  }

  const EMPTY_BOOK := Book([], [])

  /** On the given side, price p is served strictly before price q. */
  predicate Better(side: Side, p: real, q: real) { if side.Buy? then p > q else p < q }

  /** A taker on the given side with limit p accepts a resting price q. */
  predicate Crosses(side: Side, p: real, q: real) { if side.Buy? then p >= q else p <= q }

  predicate Sorted(side: Side, s: seq<Row>) {
    forall i, j | 0 <= i < j < |s| :: !Better(side, s[j].price, s[i].price)
  }

  predicate DistinctIds(s: seq<Row>) {
    forall i, j | 0 <= i < j < |s| :: s[i].id != s[j].id
  }

  predicate HasId(s: seq<Row>, id: OrderId) {
    exists i | 0 <= i < |s| :: s[i].id == id
  }

  /** Places a row behind every row of a price at least as good. */
  function Insert(side: Side, s: seq<Row>, r: Row): seq<Row> {
    if s == [] || Better(side, r.price, s[0].price) then [r] + s
    else [s[0]] + Insert(side, s[1..], r)
  }

  function InsertAll(side: Side, s: seq<Row>, rs: seq<Row>): seq<Row>
    decreases |rs|
  {
    if rs == [] then s else InsertAll(side, Insert(side, s, rs[0]), rs[1..])
  }

  function RemoveId(s: seq<Row>, id: OrderId): seq<Row> {
    if s == [] then []
    else if s[0].id == id then s[1..]
    else [s[0]] + RemoveId(s[1..], id)
  }

  /** A maker's row after a trade of quantity q. */
  function FillMaker(r: Row, q: real): Row {
    r.(filled := r.filled + q,
       status := if r.quantity - (r.filled + q) <= 0.0 then Filled else Partial)
  }

  function Min(a: real, b: real): real { if a < b then a else b }

  function TradeOf(taker: Row, maker: Row, q: real): Trade {
    Trade(taker.market, taker.outcome, maker.id, taker.id, maker.user, taker.user, maker.price, q)
  }

  /** What matching leaves: the trades in order, the taker with its new fill, the makers it
      filled completely, the taker's own orders it passed over, and the rest of the side. */
  datatype Matched = Matched(
    trades: seq<Trade>,
    taker: Row,
    consumed: seq<Row>,
    skipped: seq<Row>,
    rest: seq<Row>)

  predicate Stops(taker: Row, book: seq<Row>) {
    || taker.Remaining() <= 0.0
    || book == []
    || !Crosses(taker.side, taker.price, book[0].price)
  }

  function Match(taker: Row, book: seq<Row>): Matched
    decreases |book|
  {
    if Stops(taker, book) then Matched([], taker, [], [], book)
    else if taker.user == book[0].user then
      var m := Match(taker, book[1..]);
      m.(skipped := [book[0]] + m.skipped)
    else
      var q := Min(taker.Remaining(), book[0].Remaining());
      var maker := FillMaker(book[0], q);
      var taker' := taker.(filled := taker.filled + q);
      var m :=
        if maker.Remaining() <= 0.0 then
          var m' := Match(taker', book[1..]);
          m'.(consumed := [maker] + m'.consumed)
        else
          Matched([], taker', [], [], [maker] + book[1..]);
      m.(trades := [TradeOf(taker, book[0], q)] + m.trades)
  }

  /** The opposing side once the skipped orders have been put back, one by one. */
  function AfterMatch(taker: Row, book: seq<Row>): seq<Row> {
    var m := Match(taker, book);
    InsertAll(taker.side.Opposite(), m.rest, m.skipped)
  }

  /** The taker's row once matching is over. */
  function Settled(taker: Row): Row {
    if taker.Remaining() > 0.0 then
      taker.(status := if taker.filled > 0.0 then Partial else taker.status)
    else taker.(status := Filled)
  }

  /** Matching and resting as one step on a book. */
  function Place(book: Book, taker: Row): Book {
    var opposite := taker.side.Opposite();
    var m := Match(taker, book.SideRows(opposite));
    var matched := book.WithSide(opposite, AfterMatch(taker, book.SideRows(opposite)));
    if m.taker.Remaining() > 0.0 then
      matched.WithSide(taker.side, Insert(taker.side, matched.SideRows(taker.side), Settled(m.taker)))
    else matched
  }

  /** Putting an order into a book without matching. */
  function Rested(book: Book, r: Row): Book {
    book.WithSide(r.side, Insert(r.side, book.SideRows(r.side), r))
  }

  function Cancel(book: Book, id: OrderId): Book {
    Book(RemoveId(book.bids, id), RemoveId(book.asks, id))
  }

  // ---- insertion and removal ----

  lemma MemberHasId(s: seq<Row>, r: Row)
    requires r in s
    ensures HasId(s, r.id)
  {
    var i :| 0 <= i < |s| && s[i] == r;
  }

  lemma MemberWithId(s: seq<Row>, id: OrderId) returns (r: Row)
    requires HasId(s, id)
    ensures r in s && r.id == id
  {
    var i :| 0 <= i < |s| && s[i].id == id;
    r := s[i];
  }

  /** Insert is determined by where the strictly worse prices begin. */
  lemma {:induction false} InsertAt(side: Side, s: seq<Row>, r: Row, k: nat)
    requires k <= |s|
    requires forall i | 0 <= i < k :: !Better(side, r.price, s[i].price)
    requires k < |s| ==> Better(side, r.price, s[k].price)
    ensures Insert(side, s, r) == s[..k] + [r] + s[k..]
  {
    if k != 0 {
      assert s[1..][..k - 1] == s[1..k] && s[1..][k - 1..] == s[k..];
      InsertAt(side, s[1..], r, k - 1);
      assert [s[0]] + s[1..k] == s[..k];
    }
  }

  lemma {:induction false} InsertPosition(side: Side, s: seq<Row>, r: Row) returns (k: nat)
    ensures k <= |s|
    ensures forall i | 0 <= i < k :: !Better(side, r.price, s[i].price)
    ensures k < |s| ==> Better(side, r.price, s[k].price)
    ensures Insert(side, s, r) == s[..k] + [r] + s[k..]
  {
    k := 0;
    while k < |s| && !Better(side, r.price, s[k].price)
      invariant k <= |s|
      invariant forall i | 0 <= i < k :: !Better(side, r.price, s[i].price)
    {
      k := k + 1;
    }
    InsertAt(side, s, r, k);
  }

  lemma InsertKeepsOrder(side: Side, s: seq<Row>, r: Row)
    requires Sorted(side, s)
    ensures Sorted(side, Insert(side, s, r))
  {
    var k := InsertPosition(side, s, r);
  }

  lemma InsertKeepsRows(side: Side, s: seq<Row>, r: Row)
    ensures multiset(Insert(side, s, r)) == multiset(s) + multiset{r}
    ensures |Insert(side, s, r)| == |s| + 1
  {
    var k := InsertPosition(side, s, r);
    assert s == s[..k] + s[k..];
  }

  lemma InsertKeepsIdsDistinct(side: Side, s: seq<Row>, r: Row)
    requires DistinctIds(s) && !HasId(s, r.id)
    ensures DistinctIds(Insert(side, s, r))
  {
    var k := InsertPosition(side, s, r);
  }

  lemma {:induction false} RemoveAt(s: seq<Row>, id: OrderId, k: nat)
    requires k < |s| && s[k].id == id
    requires forall i | 0 <= i < k :: s[i].id != id
    ensures RemoveId(s, id) == s[..k] + s[k + 1..]
  {
    if k != 0 {
      assert s[1..][..k - 1] == s[1..k] && s[1..][k..] == s[k + 1..];
      RemoveAt(s[1..], id, k - 1);
      assert [s[0]] + s[1..k] == s[..k];
    }
  }

  lemma {:induction false} RemoveAbsent(s: seq<Row>, id: OrderId)
    requires !HasId(s, id)
    ensures RemoveId(s, id) == s
  {
    if s != [] {
      assert forall i | 0 <= i < |s[1..]| :: s[1..][i] == s[i + 1];
      RemoveAbsent(s[1..], id);
    }
  }

  /** Adding a fresh order and cancelling it restores the side, row for row. */
  lemma {:induction false} RemoveUndoesInsert(side: Side, s: seq<Row>, r: Row)
    requires !HasId(s, r.id)
    ensures RemoveId(Insert(side, s, r), r.id) == s
  {
    var k := InsertPosition(side, s, r);
    var t := Insert(side, s, r);
    RemoveAt(t, r.id, k);
    assert t[..k] == s[..k] && t[k + 1..] == s[k..];
  }

  /** Where the row of an identifier is taken out, or the end of the sequence if there is none. */
  lemma RemovePosition(s: seq<Row>, id: OrderId) returns (k: nat)
    requires DistinctIds(s)
    ensures k <= |s| && RemoveId(s, id) == s[..k] + (if k < |s| then s[k + 1..] else [])
    ensures forall i | 0 <= i < |s| :: s[i].id == id <==> i == k
  {
    if HasId(s, id) {
      k :| k < |s| && s[k].id == id;
      RemoveAt(s, id, k);
    } else {
      RemoveAbsent(s, id);
      k := |s|;
    }
  }

  lemma RemovedRows(s: seq<Row>, t: seq<Row>, id: OrderId, k: nat)
    requires k <= |s| && t == s[..k] + (if k < |s| then s[k + 1..] else [])
    requires forall i | 0 <= i < |s| :: s[i].id == id <==> i == k
    ensures forall r | r in t :: r in s && r.id != id
    ensures forall r | r in s && r.id != id :: r in t
  {
    if k < |s| { assert s == s[..k] + [s[k]] + s[k + 1..]; }
  }

  lemma RemovedOrder(side: Side, s: seq<Row>, t: seq<Row>, k: nat)
    requires Sorted(side, s) && DistinctIds(s)
    requires k <= |s| && t == s[..k] + (if k < |s| then s[k + 1..] else [])
    ensures Sorted(side, t) && DistinctIds(t)
  {
    forall i | 0 <= i < |t| ensures t[i] == s[if i < k then i else i + 1] { }
    forall i, j | 0 <= i < j < |t| ensures t[i].id != t[j].id && !Better(side, t[j].price, t[i].price) {
      var i', j' := if i < k then i else i + 1, if j < k then j else j + 1;
      assert t[i] == s[i'] && t[j] == s[j'] && i' < j';
    }
  }

  lemma {:induction false} RemoveKeeps(side: Side, s: seq<Row>, id: OrderId)
    requires Sorted(side, s) && DistinctIds(s)
    ensures Sorted(side, RemoveId(s, id)) && DistinctIds(RemoveId(s, id))
    ensures forall r :: r in RemoveId(s, id) <==> r in s && r.id != id
  {
    var k := RemovePosition(s, id);
    RemovedRows(s, RemoveId(s, id), id, k);
    RemovedOrder(side, s, RemoveId(s, id), k);
  }
}
