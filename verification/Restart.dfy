/** Rebuilding the books from the open order rows after a restart. */
module Restart {
  import opened Domain
  import opened FlatBook
  import opened MatchedBook
  import opened BookRuns
  import opened Depth
  import opened Exchange
  import opened Agreement

  /** Puts an order into its book without matching. */
  function RestoreOrder(books: map<BookKey, Book>, r: Row): map<BookKey, Book> {
    books[KeyOf(r) := Rested(BookAt(books, KeyOf(r)), r)]
  }

  function RestoreAll(books: map<BookKey, Book>, listing: seq<Row>): map<BookKey, Book>
    decreases |listing|
  {
    if listing == [] then books else RestoreAll(RestoreOrder(books, listing[0]), listing[1..])
  }

  /** A listing of all open orders: each exactly once, in any order. */
  ghost predicate ListsLive(orders: map<OrderId, Row>, listing: seq<Row>) {
    && DistinctIds(listing)
    && forall r :: r in listing <==> r.id in orders && orders[r.id] == r && r.Live()
  }

  /** The listed orders that belong on one side of one book. */
  function OnSide(listing: seq<Row>, key: BookKey, side: Side): seq<Row> {
    if listing == [] then []
    else (if KeyOf(listing[0]) == key && listing[0].side == side then [listing[0]] else [])
         + OnSide(listing[1..], key, side)
  }

  lemma {:induction false} OnSideMembers(listing: seq<Row>, key: BookKey, side: Side)
    ensures forall r :: r in OnSide(listing, key, side) <==> r in listing && KeyOf(r) == key && r.side == side
    ensures DistinctIds(listing) ==> DistinctIds(OnSide(listing, key, side))
  {
    if listing != [] {
      OnSideMembers(listing[1..], key, side);
      assert listing == [listing[0]] + listing[1..];
      assert forall i | 0 <= i < |listing[1..]| :: listing[1..][i] == listing[i + 1];
    }
  }

  lemma {:induction false} RestoredSide(books: map<BookKey, Book>, listing: seq<Row>, key: BookKey, side: Side)
    ensures BookAt(RestoreAll(books, listing), key).SideRows(side)
         == InsertAll(side, BookAt(books, key).SideRows(side), OnSide(listing, key, side))
    ensures key in RestoreAll(books, listing) <==> key in books || exists r :: r in listing && KeyOf(r) == key
    decreases |listing|
  {
    if listing != [] {
      var r := listing[0];
      RestoredSide(RestoreOrder(books, r), listing[1..], key, side);
      assert listing == [r] + listing[1..];
      if KeyOf(r) == key && r.side == side {
        assert OnSide(listing, key, side)[1..] == OnSide(listing[1..], key, side);
      } else {
        assert OnSide(listing, key, side) == OnSide(listing[1..], key, side);
      }
    }
  }

  /** Restoring a list into empty books is a stable sort by price of each side: best price
      first, and at every price the listed order. */
  lemma RestoreIsStableSort(listing: seq<Row>, key: BookKey, side: Side, p: real)
    ensures var s := BookAt(RestoreAll(map[], listing), key).SideRows(side);
      && Sorted(side, s)
      && multiset(s) == multiset(OnSide(listing, key, side))
      && AtPrice(s, p) == AtPrice(OnSide(listing, key, side), p)
  {
    RestoredSide(map[], listing, key, side);
    InsertAllIsStable(side, [], OnSide(listing, key, side), p);
    assert multiset([]) + multiset(OnSide(listing, key, side)) == multiset(OnSide(listing, key, side));
    assert [] + AtPrice(OnSide(listing, key, side), p) == AtPrice(OnSide(listing, key, side), p);
  }

  lemma LiveSideRows(orders: map<OrderId, Row>, books: map<BookKey, Book>, key: BookKey, side: Side)
    requires Agree(orders, books)
    ensures var s := BookAt(books, key).SideRows(side);
      && SideOk(side, s)
      && forall r :: r in s <==> r.id in orders && orders[r.id] == r && r.Live() && KeyOf(r) == key && r.side == side
  {
    BookAtAgrees(orders, books, key);
    var s := BookAt(books, key).SideRows(side);
    forall r: Row | r.id in orders && orders[r.id] == r && r.Live() && KeyOf(r) == key && r.side == side
      ensures r in s {
      assert Rests(books, orders[r.id]);
    }
  }

  /** Each side of a rebuilt book holds the same orders as the live one it replaces. */
  lemma RebuiltSide(orders: map<OrderId, Row>, books: map<BookKey, Book>, listing: seq<Row>, key: BookKey, side: Side)
    requires Agree(orders, books) && ListsLive(orders, listing)
    ensures var s, t := BookAt(books, key).SideRows(side), BookAt(RestoreAll(map[], listing), key).SideRows(side);
      && multiset(s) == multiset(t) && SideOk(side, t)
      && forall r :: r in t <==> r in s
  {
    var s, t := BookAt(books, key).SideRows(side), BookAt(RestoreAll(map[], listing), key).SideRows(side);
    LiveSideRows(orders, books, key, side);
    OnSideMembers(listing, key, side);
    var on := OnSide(listing, key, side);
    SameMembersSameRows(s, on);
    RestoredSide(map[], listing, key, side);
    InsertAllSideOk(side, [], on);
    assert forall r :: r in t <==> r in multiset(t);
    assert forall r :: r in s <==> r in multiset(s);
  }

  /** A rebuilt exchange shows the same depth everywhere as the one it replaces. */
  lemma RestartKeepsDepth(orders: map<OrderId, Row>, books: map<BookKey, Book>, listing: seq<Row>, key: BookKey,
      side: Side)
    requires Agree(orders, books) && ListsLive(orders, listing)
    ensures Levels(BookAt(RestoreAll(map[], listing), key).SideRows(side))
         == Levels(BookAt(books, key).SideRows(side))
  {
    RebuiltSide(orders, books, listing, key, side);
    LiveSideRows(orders, books, key, side);
    DepthIgnoresQueueOrder(side, BookAt(books, key).SideRows(side),
                           BookAt(RestoreAll(map[], listing), key).SideRows(side));
  }

  lemma RebuiltBookAgrees(orders: map<OrderId, Row>, books: map<BookKey, Book>, listing: seq<Row>, key: BookKey)
    requires Agree(orders, books) && ListsLive(orders, listing)
    ensures BookAgrees(orders, key, BookAt(RestoreAll(map[], listing), key))
  {
    RebuiltSide(orders, books, listing, key, Buy);
    RebuiltSide(orders, books, listing, key, Sell);
    BookAtAgrees(orders, books, key);
    BookOkIsPairOk(BookAt(books, key), Buy);
    BookOkIsPairOk(BookAt(RestoreAll(map[], listing), key), Buy);
  }

  /** After a restart engine and ledger agree again. */
  lemma RestartKeepsAgreement(orders: map<OrderId, Row>, books: map<BookKey, Book>, listing: seq<Row>)
    requires Agree(orders, books) && ListsLive(orders, listing)
    ensures Agree(orders, RestoreAll(map[], listing))
  {
    var books' := RestoreAll(map[], listing);
    forall key | key in books' ensures BookAgrees(orders, key, books'[key]) {
      RebuiltBookAgrees(orders, books, listing, key);
    }
    forall id | id in orders && orders[id].Live() ensures Rests(books', orders[id]) {
      assert Rests(books, orders[id]);
      RebuiltSide(orders, books, listing, KeyOf(orders[id]), orders[id].side);
    }
  }
}
