/** The books of all markets as one family: each on its own part of the heap, so that what
    happens to one book leaves the others as they are. */
module BookFamily {
  import opened Domain
  import opened FlatBook
  import opened PriceLevels
  import opened Orderbook
  import opened OrderMatching
  import opened Resting
  import opened Queue
  import opened MatchedBook
  import X = Exchange

  /** A book, the part of the heap it lives in, and what it holds. */
  datatype Shelf = Shelf(book: Orderbook, part: set<object>, view: Book)

  /** The book is well-formed, lives in its part of the heap, and holds what is noted. */
  ghost predicate Holds(s: Shelf)
    reads s.part
  {
    var ob := s.book;
    && ob in s.part && ob.bids in s.part && ob.asks in s.part
    && ob.bids.Nodes <= s.part && ob.asks.Nodes <= s.part
    && (forall o | o in ob.bids.Flat() :: o in s.part)
    && (forall o | o in ob.asks.Flat() :: o in s.part)
    && ob.Valid()
    && ob.View() == s.view
  }

  ghost predicate Apart(shelves: map<BookKey, Shelf>, arena: set<object>) {
    && (forall a, b | a in shelves && b in shelves && a != b :: shelves[a].part !! shelves[b].part)
    && (forall key | key in shelves :: shelves[key].part <= arena)
  }

  ghost predicate Family(shelves: map<BookKey, Shelf>, arena: set<object>)
    reads arena
  {
    && Apart(shelves, arena)
    && forall key | key in shelves :: Holds(shelves[key])
  }

  /** What the books hold. */
  ghost function Views(shelves: map<BookKey, Shelf>): map<BookKey, Book> {
    map key | key in shelves :: shelves[key].view
  }

  /** What placing an order in a book answers, and what it makes of the order and the book. */
  ghost predicate Places(b: Book, t: Row, trades: seq<Trade>, rests: bool, t': Row, b': Book) {
    var m := Match(t, b.SideRows(t.side.Opposite()));
    && trades == m.trades && rests == (m.taker.Remaining() > 0.0)
    && t' == Settled(m.taker) && b' == Place(b, t)
  }

  /** Places an order in the book that lives in this part. */
  method PlaceOn(ob: Orderbook, order: Order, ghost s: Shelf) returns (trades: seq<Trade>, rests: bool, ghost s': Shelf)
    requires Holds(s) && ob == s.book && order !in s.part && order.id !in ob.orderMap
    modifies order, s.part
    ensures Holds(s') && s'.book == ob && s.part <= s'.part && fresh(s'.part - s.part - {order})
    ensures Places(s.view, old(order.Snapshot()), trades, rests, order.Snapshot(), s'.view)
  {
    trades, rests := PlaceInBook(order, ob);
    s' := Shelf(ob, s.part + {order} + ob.bids.Nodes + ob.asks.Nodes, ob.View());
  }

  /** PlaceOn, with the books of other keys standing by. */
  method PlaceAmong(ob: Orderbook, order: Order, ghost s: Shelf, ghost rest: map<BookKey, Shelf>,
      ghost arena: set<object>)
    returns (trades: seq<Trade>, rests: bool, ghost s': Shelf)
    requires Holds(s) && ob == s.book && order !in s.part && order.id !in ob.orderMap
    requires Family(rest, arena) && s.part !! arena && order !in arena
    modifies order, s.part
    ensures Holds(s') && s'.book == ob && s.part <= s'.part && fresh(s'.part - s.part - {order})
    ensures Places(s.view, old(order.Snapshot()), trades, rests, order.Snapshot(), s'.view)
    ensures Family(rest, arena) && s'.part !! arena
  {
    trades, rests, s' := PlaceOn(ob, order, s);
  }

  /** A known order is in the book's value; so what is new to the value is new to the maps. */
  lemma KnownInView(ob: Orderbook, id: OrderId)
    requires ob.Valid() && id in ob.orderMap
    ensures !FreshIn(ob.View(), id)
  {
    var o := ob.orderMap[id];
    var i :| 0 <= i < |ob.Flat(o.side)| && ob.Flat(o.side)[i] == o;
    assert Rows(ob.Flat(o.side))[i].id == id;
  }

  lemma ApartStill(shelves: map<BookKey, Shelf>, arena: set<object>, key: BookKey, s: Shelf, arena': set<object>)
    requires Apart(shelves - {key}, arena) && s.part !! arena
    requires arena <= arena' && s.part <= arena'
    ensures Apart(shelves[key := s], arena')
  {
    var rest, after := shelves - {key}, shelves[key := s];
    forall k | k in after && k != key ensures after[k] == rest[k] && rest[k].part <= arena { }
  }

  /** The family once one of its books has moved on. */
  lemma Reshelved(shelves: map<BookKey, Shelf>, arena: set<object>, key: BookKey, s: Shelf, arena': set<object>)
    requires Family(shelves - {key}, arena) && Holds(s) && s.part !! arena
    requires arena <= arena' && s.part <= arena'
    ensures Family(shelves[key := s], arena')
  {
    ApartStill(shelves, arena, key, s, arena');
    var rest, after := shelves - {key}, shelves[key := s];
    forall k | k in after ensures Holds(after[k]) {
      if k != key { assert k in rest && after[k] == rest[k]; }
    }
  }

  lemma OthersShelved(shelves: map<BookKey, Shelf>, arena: set<object>, key: BookKey)
    requires Family(shelves, arena) && key in shelves
    ensures Family(shelves - {key}, arena - shelves[key].part)
  {
  }

  /** What the book of a key holds; nothing, if there is none yet. */
  ghost function ViewAt(shelves: map<BookKey, Shelf>, key: BookKey): Book {
    if key in shelves then shelves[key].view else EMPTY_BOOK
  }

  lemma ViewIsBook(shelves: map<BookKey, Shelf>, key: BookKey)
    ensures ViewAt(shelves, key) == X.BookAt(Views(shelves), key)
  {
  }

  /** A new, empty book, shelved under a key that had none. */
  method NewBook(key: BookKey, ghost shelves: map<BookKey, Shelf>, ghost arena: set<object>)
    returns (ob: Orderbook, ghost s: Shelf)
    requires Family(shelves, arena) && key !in shelves
    ensures fresh(s.part) && s.book == ob && s.view == EMPTY_BOOK
    ensures Family(shelves[key := s], arena + s.part)
  {
    ob := new Orderbook(key.outcome);
    s := Shelf(ob, ob.Footprint(), EMPTY_BOOK);
    assert shelves - {key} == shelves;
    Reshelved(shelves, arena, key, s, arena + s.part);
  }

  /** Places an order in one book of the family. */
  method PlaceAt(ob: Orderbook, order: Order, ghost shelves: map<BookKey, Shelf>, ghost key: BookKey,
      ghost arena: set<object>)
    returns (trades: seq<Trade>, rests: bool, ghost s: Shelf)
    requires Family(shelves, arena) && key in shelves && ob == shelves[key].book
    requires order !in arena && FreshIn(shelves[key].view, order.id)
    modifies order, arena
    ensures Family(shelves[key := s], arena + s.part) && s.book == ob
    ensures shelves[key].part <= s.part && fresh(s.part - arena - {order})
    ensures Places(shelves[key].view, old(order.Snapshot()), trades, rests, order.Snapshot(), s.view)
  {
    ghost var s0 := shelves[key];
    if order.id in ob.orderMap { KnownInView(ob, order.id); }
    OthersShelved(shelves, arena, key);
    trades, rests, s := PlaceAmong(ob, order, s0, shelves - {key}, arena - s0.part);
    Reshelved(shelves, arena - s0.part, key, s, arena + s.part);
  }

  /** Cancels in a book; a are orders that stand by. */
  method CancelKeeping(ob: Orderbook, id: OrderId, ghost a: seq<Order>) returns (order: Order?, found: bool)
    requires ob.Valid()
    modifies ob, ob.bids, ob.asks, ob.bids.Nodes, ob.asks.Nodes
    ensures ob.Valid() && ob.bids.Nodes == old(ob.bids.Nodes) && ob.asks.Nodes == old(ob.asks.Nodes)
    ensures found == (id in old(ob.orderMap)) && order == if found then old(ob.orderMap)[id] else null
    ensures ob.orderMap == old(ob.orderMap) - {id}
    ensures ob.Flat(Buy) == Without(old(ob.Flat(Buy)), id) && ob.Flat(Sell) == Without(old(ob.Flat(Sell)), id)
    ensures Rows(a) == old(Rows(a))
  {
    order, found := ob.CancelOrder(id);
  }

  /** CancelOrder, in rows. */
  method CancelRows(ob: Orderbook, id: OrderId) returns (order: Order?, found: bool)
    requires ob.Valid()
    modifies ob, ob.bids, ob.asks, ob.bids.Nodes, ob.asks.Nodes
    ensures ob.Valid() && ob.bids.Nodes == old(ob.bids.Nodes) && ob.asks.Nodes == old(ob.asks.Nodes)
    ensures found == (id in old(ob.orderMap)) && order == if found then old(ob.orderMap)[id] else null
    ensures ob.orderMap == old(ob.orderMap) - {id}
    ensures ob.Flat(Buy) == Without(old(ob.Flat(Buy)), id) && ob.Flat(Sell) == Without(old(ob.Flat(Sell)), id)
    ensures ob.View() == Cancel(old(ob.View()), id)
  {
    ghost var bids, asks := Without(ob.Flat(Buy), id), Without(ob.Flat(Sell), id);
    RowsOfWithout(ob.Flat(Buy), id);
    RowsOfWithout(ob.Flat(Sell), id);
    RowsOfParts(bids, asks);
    order, found := CancelKeeping(ob, id, bids + asks);
    RowsOfParts(bids, asks);
  }

  lemma UnknownInView(ob: Orderbook, id: OrderId)
    requires ob.Valid() && id !in ob.orderMap
    ensures FreshIn(ob.View(), id)
  {
    assert forall i | 0 <= i < |ob.Flat(Buy)| :: ob.Flat(Buy)[i] in ob.Flat(Buy);
    assert forall i | 0 <= i < |ob.Flat(Sell)| :: ob.Flat(Sell)[i] in ob.Flat(Sell);
  }

  /** Takes an order off the book that lives in this part. */
  method RemoveOn(ob: Orderbook, id: OrderId, ghost s: Shelf) returns (order: Order?, ghost s': Shelf)
    requires Holds(s) && ob == s.book
    modifies s.part
    ensures Holds(s') && s' == s.(view := Cancel(s.view, id)) && id !in ob.orderMap
    ensures (order == null) == FreshIn(s.view, id)
    ensures order != null ==> order in s.part && order.id == id
  {
    WithoutMembers(ob.Flat(Buy), id);
    WithoutMembers(ob.Flat(Sell), id);
    if id in ob.orderMap { KnownInView(ob, id); } else { UnknownInView(ob, id); }
    var found;
    order, found := CancelRows(ob, id);
    s' := s.(view := Cancel(s.view, id));
  }

  /** An order that left its book changes status without the book noticing. */
  method MarkCancelled(order: Order, ghost s: Shelf)
    requires Holds(s) && order.id !in s.book.orderMap
    modifies order
    ensures Holds(s) && order.Snapshot() == old(order.Snapshot()).(status := Cancelled)
  {
    SidesApart(s.book, Buy);
    SidesApart(s.book, Sell);
    order.status := Cancelled;
  }

  /** Takes an order off the book that lives in this part and marks it cancelled. */
  method CancelOn(ob: Orderbook, id: OrderId, ghost s: Shelf) returns (order: Order?, ghost s': Shelf)
    requires Holds(s) && ob == s.book
    modifies s.part
    ensures Holds(s') && s' == s.(view := Cancel(s.view, id))
    ensures (order == null) == FreshIn(s.view, id)
    ensures order != null ==> order.id == id && order.status == Cancelled
  {
    order, s' := RemoveOn(ob, id, s);
    if order != null { MarkCancelled(order, s'); }
  }

  /** CancelOn, with the books of other keys standing by. */
  method CancelAmong(ob: Orderbook, id: OrderId, ghost s: Shelf, ghost rest: map<BookKey, Shelf>,
      ghost arena: set<object>)
    returns (order: Order?, ghost s': Shelf)
    requires Holds(s) && ob == s.book && Family(rest, arena) && s.part !! arena
    modifies s.part
    ensures Holds(s') && s' == s.(view := Cancel(s.view, id)) && Family(rest, arena)
    ensures (order == null) == FreshIn(s.view, id)
    ensures order != null ==> order.id == id && order.status == Cancelled
  {
    order, s' := CancelOn(ob, id, s);
  }

  /** Cancels an order in one book of the family. */
  method CancelAt(ob: Orderbook, id: OrderId, ghost shelves: map<BookKey, Shelf>, ghost key: BookKey,
      ghost arena: set<object>)
    returns (order: Order?, ghost s: Shelf)
    requires Family(shelves, arena) && key in shelves && ob == shelves[key].book
    modifies arena
    ensures Family(shelves[key := s], arena) && s == shelves[key].(view := Cancel(shelves[key].view, id))
    ensures (order == null) == FreshIn(shelves[key].view, id)
    ensures order != null ==> order.id == id && order.status == Cancelled
  {
    ghost var s0 := shelves[key];
    OthersShelved(shelves, arena, key);
    order, s := CancelAmong(ob, id, s0, shelves - {key}, arena - s0.part);
    Reshelved(shelves, arena - s0.part, key, s, arena);
  }

  /** Adds an order to the book that lives in this part, without matching. */
  method RestOn(ob: Orderbook, order: Order, ghost s: Shelf)
    requires Holds(s) && ob == s.book && order !in s.part && order.id !in ob.orderMap
    modifies s.part
    ensures ob.Valid() && fresh(ob.bids.Nodes - s.part) && fresh(ob.asks.Nodes - s.part)
    ensures ob.View() == Rested(s.view, order.Snapshot())
    ensures order.Snapshot() == old(order.Snapshot())
    ensures forall id | id in ob.orderMap :: ob.orderMap[id] in s.part || ob.orderMap[id] == order
  {
    Rest(ob, order);
  }

  /** RestOn, with the books of other keys standing by. */
  method RestAmong(ob: Orderbook, order: Order, ghost s: Shelf, ghost rest: map<BookKey, Shelf>,
      ghost arena: set<object>)
    returns (ghost s': Shelf)
    requires Holds(s) && ob == s.book && order !in s.part && order.id !in ob.orderMap
    requires Family(rest, arena) && s.part !! arena && order !in arena
    modifies s.part
    ensures Holds(s') && s'.book == ob && s.part <= s'.part && fresh(s'.part - s.part - {order})
    ensures s'.view == Rested(s.view, order.Snapshot())
    ensures order.Snapshot() == old(order.Snapshot()) && Family(rest, arena) && s'.part !! arena
  {
    RestOn(ob, order, s);
    s' := Shelf(ob, s.part + {order} + ob.bids.Nodes + ob.asks.Nodes, ob.View());
  }

  /** Rests an order in one book of the family, without matching. */
  method RestAt(ob: Orderbook, order: Order, ghost shelves: map<BookKey, Shelf>, ghost key: BookKey,
      ghost arena: set<object>)
    returns (ghost s: Shelf)
    requires Family(shelves, arena) && key in shelves && ob == shelves[key].book
    requires order !in arena && FreshIn(shelves[key].view, order.id)
    modifies arena
    ensures Family(shelves[key := s], arena + s.part) && s.book == ob
    ensures shelves[key].part <= s.part && fresh(s.part - arena - {order})
    ensures s.view == Rested(shelves[key].view, order.Snapshot()) && order.Snapshot() == old(order.Snapshot())
  {
    ghost var s0 := shelves[key];
    if order.id in ob.orderMap { KnownInView(ob, order.id); }
    OthersShelved(shelves, arena, key);
    s := RestAmong(ob, order, s0, shelves - {key}, arena - s0.part);
    Reshelved(shelves, arena - s0.part, key, s, arena + s.part);
  }
}
