/** Starting the trading service: an empty registry, into which every open order of the
    database is restored. */
module Startup {
  import opened Domain
  import opened FlatBook
  import opened MatchedBook
  import opened Exchange
  import opened BookFamily
  import opened Registry
  import opened Stores
  import R = Restart

  lemma {:induction false} RestoreOneMore(books: map<BookKey, Book>, listing: seq<Row>, i: nat)
    requires i < |listing|
    ensures R.RestoreAll(books, listing[..i + 1]) == R.RestoreOrder(R.RestoreAll(books, listing[..i]), listing[i])
    decreases |listing|
  {
    if i > 0 {
      assert listing[..i + 1][1..] == listing[1..][..i] && listing[..i][1..] == listing[1..][..i - 1];
      RestoreOneMore(R.RestoreOrder(books, listing[0]), listing[1..], i - 1);
    }
  }

  lemma MembersOnly(s: seq<Row>, t: seq<Row>, id: OrderId)
    requires multiset(s) == multiset(t) && HasId(s, id)
    ensures exists r :: r in t && r.id == id
  {
    var r := MemberWithId(s, id);
    assert r in multiset(s);
  }

  /** An order not yet restored is new to every book. */
  lemma NotYetRestored(listing: seq<Row>, i: nat, key: BookKey)
    requires i < |listing| && DistinctIds(listing)
    ensures FreshIn(BookAt(R.RestoreAll(map[], listing[..i]), key), listing[i].id)
  {
    var b := BookAt(R.RestoreAll(map[], listing[..i]), key);
    forall side: Side ensures !HasId(b.SideRows(side), listing[i].id) {
      R.RestoreIsStableSort(listing[..i], key, side, 0.0);
      R.OnSideMembers(listing[..i], key, side);
      if HasId(b.SideRows(side), listing[i].id) {
        MembersOnly(b.SideRows(side), R.OnSide(listing[..i], key, side), listing[i].id);
      }
    }
    assert !HasId(b.SideRows(Buy), listing[i].id) && !HasId(b.SideRows(Sell), listing[i].id);
  }

  /** Restores one row, as an order object of its own. */
  method RestoreRow(engine: Registry, r: Row)
    requires engine.Valid() && FreshIn(BookAt(engine.Books(), KeyOf(r)), r.id)
    modifies engine, engine.engines.Values, engine.arena
    ensures engine.Valid() && engine.Books() == R.RestoreOrder(old(engine.Books()), r)
    ensures forall x: object | old(allocated(x)) && x in engine.engines.Values :: x in old(engine.engines.Values)
    ensures forall x: object | old(allocated(x)) && x in engine.arena :: x in old(engine.arena)
  {
    ViewIsBook(engine.shelves, KeyOf(r));
    var order := new Order(r);
    engine.RestoreOrder(order);
  }

  /** Rebuilds the books from the open order rows. */
  method RestoreBooks(orders: OrderRepository) returns (engine: Registry, ghost listing: seq<Row>)
    requires orders.Keyed()
    ensures fresh(engine) && fresh(engine.arena) && engine.Valid() && R.ListsLive(orders.orders, listing)
    ensures engine.Books() == R.RestoreAll(map[], listing)
  {
    engine := new Registry();
    var openOrders := orders.ListAllOpen();
    listing := openOrders;
    for i := 0 to |openOrders|
      invariant engine.Valid() && fresh(engine.engines.Values) && fresh(engine.arena)
      invariant engine.Books() == R.RestoreAll(map[], openOrders[..i])
    {
      NotYetRestored(openOrders, i, KeyOf(openOrders[i]));
      RestoreOneMore(map[], openOrders, i);
      RestoreRow(engine, openOrders[i]);
    }
    assert openOrders[..|openOrders|] == openOrders;
  }
}
