/** All matching engines, one per market, created lazily. */
module Registry {
  import opened Domain
  import opened FlatBook
  import opened MatchedBook
  import opened Orderbook
  import opened BookFamily
  import opened Engine
  import opened Exchange
  import D = Depth
  import R = Restart

  /** The engines' books are shelved under their markets, and the engines live outside them. */
  ghost predicate Linked(engines: map<MarketId, Engine>, shelves: map<BookKey, Shelf>, arena: set<object>)
    reads engines.Values
  {
    forall m | m in engines ::
      engines[m].market == m && engines[m] !in arena && engines[m].Shelved(shelves)
  }

  /** The engines stay linked when only books of one market have moved on. */
  lemma LinkedAgain(engines: map<MarketId, Engine>, market: MarketId, shelves: map<BookKey, Shelf>, arena: set<object>,
                    outcome: OutcomeId, shelves': map<BookKey, Shelf>, arena': set<object>)
    requires market in engines && engines[market].market == market
    requires engines[market].Shelved(shelves') && engines[market] !in arena'
    requires Linked(engines - {market}, shelves, arena)
    requires forall m | m in engines - {market} :: engines[m] !in arena'
    requires var key := BookKey(market, outcome);
      shelves' == shelves || (key in shelves' && shelves' == shelves[key := shelves'[key]])
    ensures Linked(engines, shelves', arena')
  {
    forall m | m in engines ensures engines[m].market == m && engines[m].Shelved(shelves') {
      if m != market {
        assert m in engines - {market} && (engines - {market})[m] == engines[m];
        assert engines[m].Shelved(shelves);
      }
    }
  }

  lemma ViewsOfOne(shelves: map<BookKey, Shelf>, key: BookKey, s: Shelf)
    ensures Views(shelves[key := s]) == Views(shelves)[key := s.view]
    ensures BookAt(Views(shelves), key) == ViewAt(shelves, key)
    ensures BookAt(Views(shelves[key := s]), key) == s.view
  {
  }

  /** One engine places an order, the others standing by. */
  method PlaceWith(eng: Engine, order: Order, ghost others: map<MarketId, Engine>,
      ghost shelves: map<BookKey, Shelf>, ghost arena: set<object>)
    returns (result: Result<MatchResult>, ghost shelves': map<BookKey, Shelf>, ghost arena': set<object>)
    requires eng.Shelved(shelves) && Family(shelves, arena) && eng !in arena && order !in arena
    requires FreshIn(ViewAt(shelves, BookKey(eng.market, order.outcome)), order.id)
    requires Linked(others, shelves, arena) && eng.market !in others && eng !in others.Values
    modifies eng, order, arena
    ensures eng.Shelved(shelves') && Linked(others, shelves, arena)
    ensures Family(shelves', arena') && arena <= arena' && fresh(arena' - arena - {order})
    ensures eng !in arena' && forall m | m in others :: others[m] !in arena'
    ensures PriceInRange(order.price) && order.quantity > 0.0 <==> result.Ok?
    ensures result.Err? ==>
      && result.error == (if PriceInRange(order.price) then InvalidQuantity else InvalidPrice)
      && shelves' == shelves && order.Snapshot() == old(order.Snapshot())
    ensures result.Ok? ==> var key := BookKey(eng.market, order.outcome);
      && key in shelves' && shelves' == shelves[key := shelves'[key]]
      && Places(ViewAt(shelves, key), old(order.Snapshot()), result.value.trades, result.value.rests,
                order.Snapshot(), shelves'[key].view)
  {
    result, shelves', arena' := eng.PlaceOrder(order, shelves, arena);
  }

  /** PlaceWith, for all engines of a registry. */
  method PlaceVia(engines: map<MarketId, Engine>, order: Order, ghost shelves: map<BookKey, Shelf>,
      ghost arena: set<object>)
    returns (result: Result<MatchResult>, ghost shelves': map<BookKey, Shelf>, ghost arena': set<object>)
    requires order.market in engines && forall key | key in shelves :: key.market in engines
    requires Linked(engines, shelves, arena) && Family(shelves, arena) && order !in arena
    requires FreshIn(ViewAt(shelves, BookKey(order.market, order.outcome)), order.id)
    modifies engines[order.market], order, arena
    ensures Linked(engines, shelves', arena') && forall key | key in shelves' :: key.market in engines
    ensures Family(shelves', arena') && arena <= arena' && fresh(arena' - arena - {order})
    ensures PriceInRange(order.price) && order.quantity > 0.0 <==> result.Ok?
    ensures result.Err? ==>
      && result.error == (if PriceInRange(order.price) then InvalidQuantity else InvalidPrice)
      && shelves' == shelves && order.Snapshot() == old(order.Snapshot())
    ensures result.Ok? ==> var key := BookKey(order.market, order.outcome);
      && key in shelves' && shelves' == shelves[key := shelves'[key]]
      && Places(ViewAt(shelves, key), old(order.Snapshot()), result.value.trades, result.value.rests,
                order.Snapshot(), shelves'[key].view)
  {
    ghost var others := engines - {order.market};
    assert forall m | m in others :: others[m].market == m;
    result, shelves', arena' := PlaceWith(engines[order.market], order, others, shelves, arena);
    LinkedAgain(engines, order.market, shelves, arena, order.outcome, shelves', arena');
  }

  lemma CancelNothing(b: Book, id: OrderId)
    requires FreshIn(b, id)
    ensures Cancel(b, id) == b
  {
    RemoveAbsent(b.bids, id);
    RemoveAbsent(b.asks, id);
  }

  /** The shelves once an engine has been asked to cancel. */
  ghost function AfterCancel(shelves: map<BookKey, Shelf>, key: BookKey, id: OrderId): map<BookKey, Shelf> {
    if key in shelves then shelves[key := shelves[key].(view := Cancel(shelves[key].view, id))] else shelves
  }

  lemma AfterCancelNothing(shelves: map<BookKey, Shelf>, key: BookKey, outcome: OutcomeId, id: OrderId)
    requires !(key in shelves && !FreshIn(shelves[key].view, id)) && key.outcome == outcome
    ensures AfterCancel(shelves, key, id) == shelves && !HeldAt(Views(shelves), key, outcome, id)
  {
    if key in shelves { CancelNothing(shelves[key].view, id); }
  }

  /** What cancelling in the books of an outcome comes to. */
  ghost predicate CancelsIn(books: map<BookKey, Book>, outcome: OutcomeId, id: OrderId, found: bool,
      books': map<BookKey, Book>) {
    if found then exists key :: HeldAt(books, key, outcome, id) && books' == books[key := Cancel(books[key], id)]
    else books' == books && !exists key :: HeldAt(books, key, outcome, id)
  }

  lemma AfterCancelFound(shelves: map<BookKey, Shelf>, key: BookKey, outcome: OutcomeId, id: OrderId)
    requires key in shelves && !FreshIn(shelves[key].view, id) && key.outcome == outcome
    ensures CancelsIn(Views(shelves), outcome, id, true, Views(AfterCancel(shelves, key, id)))
  {
    var books := Views(shelves);
    assert HeldAt(books, key, outcome, id);
    assert Views(AfterCancel(shelves, key, id)) == books[key := Cancel(books[key], id)];
  }

  /** One engine cancels, the others standing by. */
  method CancelWith(eng: Engine, outcome: OutcomeId, id: OrderId, ghost others: map<MarketId, Engine>,
                    ghost shelves: map<BookKey, Shelf>, ghost arena: set<object>)
    returns (result: Result<Order>, ghost shelves': map<BookKey, Shelf>)
    requires eng.Shelved(shelves) && Family(shelves, arena) && eng !in arena && Linked(others, shelves, arena)
    modifies arena
    ensures eng.Shelved(shelves') && Family(shelves', arena) && Linked(others, shelves, arena)
    ensures var key := BookKey(eng.market, outcome);
      && shelves' == AfterCancel(shelves, key, id)
      && (result.Ok? <==> key in shelves && !FreshIn(shelves[key].view, id))
    ensures result.Ok? ==> result.value.id == id && result.value.status == Cancelled
    ensures result.Err? ==> result == Err(OrderNotFound)
  {
    result, shelves' := eng.CancelOrder(outcome, id, shelves, arena);
  }

  /** Asks one engine to cancel; all engines stay linked. */
  method CancelVia(engines: map<MarketId, Engine>, market: MarketId, outcome: OutcomeId, id: OrderId,
                   ghost shelves: map<BookKey, Shelf>, ghost arena: set<object>)
    returns (result: Result<Order>, ghost shelves': map<BookKey, Shelf>)
    requires market in engines && Linked(engines, shelves, arena) && Family(shelves, arena)
    modifies arena
    ensures Linked(engines, shelves', arena) && Family(shelves', arena)
    ensures var key := BookKey(market, outcome);
      && shelves' == AfterCancel(shelves, key, id)
      && (result.Ok? <==> key in shelves && !FreshIn(shelves[key].view, id))
    ensures result.Ok? ==> result.value.id == id && result.value.status == Cancelled
    ensures result.Err? ==> result == Err(OrderNotFound)
  {
    ghost var others := engines - {market};
    assert Linked(others, shelves, arena);
    result, shelves' := CancelWith(engines[market], outcome, id, others, shelves, arena);
    LinkedAgain(engines, market, shelves, arena, outcome, shelves', arena);
  }

  /** One engine restores an order, the others standing by. */
  method RestoreWith(eng: Engine, order: Order, ghost others: map<MarketId, Engine>,
      ghost shelves: map<BookKey, Shelf>, ghost arena: set<object>)
    returns (ghost shelves': map<BookKey, Shelf>, ghost arena': set<object>)
    requires eng.Shelved(shelves) && Family(shelves, arena) && eng !in arena && order !in arena
    requires FreshIn(ViewAt(shelves, BookKey(eng.market, order.outcome)), order.id)
    requires Linked(others, shelves, arena) && eng.market !in others && eng !in others.Values
    modifies eng, arena
    ensures eng.Shelved(shelves') && Linked(others, shelves, arena)
    ensures Family(shelves', arena') && arena <= arena' && fresh(arena' - arena - {order})
    ensures eng !in arena' && forall m | m in others :: others[m] !in arena'
    ensures var key := BookKey(eng.market, order.outcome);
      && key in shelves' && shelves' == shelves[key := shelves'[key]]
      && shelves'[key].view == Rested(ViewAt(shelves, key), order.Snapshot())
    ensures order.Snapshot() == old(order.Snapshot())
  {
    shelves', arena' := eng.Restore(order, shelves, arena);
  }

  lemma RestoredViews(shelves: map<BookKey, Shelf>, s: Shelf, r: Row)
    requires s.view == Rested(ViewAt(shelves, KeyOf(r)), r)
    ensures Views(shelves[KeyOf(r) := s]) == R.RestoreOrder(Views(shelves), r)
  {
    ViewsOfOne(shelves, KeyOf(r), s);
  }

  /** RestoreWith, for all engines of a registry. */
  method RestoreVia(engines: map<MarketId, Engine>, order: Order, ghost shelves: map<BookKey, Shelf>,
      ghost arena: set<object>)
    returns (ghost shelves': map<BookKey, Shelf>, ghost arena': set<object>)
    requires order.market in engines && forall key | key in shelves :: key.market in engines
    requires Linked(engines, shelves, arena) && Family(shelves, arena) && order !in arena
    requires FreshIn(ViewAt(shelves, BookKey(order.market, order.outcome)), order.id)
    modifies engines[order.market], arena
    ensures Linked(engines, shelves', arena') && forall key | key in shelves' :: key.market in engines
    ensures Family(shelves', arena') && arena <= arena' && fresh(arena' - arena - {order})
    ensures Views(shelves') == R.RestoreOrder(Views(shelves), old(order.Snapshot()))
  {
    ghost var others := engines - {order.market};
    assert forall m | m in others :: others[m].market == m;
    shelves', arena' := RestoreWith(engines[order.market], order, others, shelves, arena);
    LinkedAgain(engines, order.market, shelves, arena, order.outcome, shelves', arena');
    RestoredViews(shelves, shelves'[KeyOf(order.Snapshot())], order.Snapshot());
  }

  /** No book of the outcome in these markets holds the order. */
  ghost predicate NotHeldIn(markets: set<MarketId>, shelves: map<BookKey, Shelf>, outcome: OutcomeId, id: OrderId) {
    forall m | m in markets :: !HeldAt(Views(shelves), BookKey(m, outcome), outcome, id)
  }

  lemma NotHeldInMore(markets: set<MarketId>, market: MarketId, rest: set<MarketId>, shelves: map<BookKey, Shelf>,
      outcome: OutcomeId, id: OrderId)
    requires NotHeldIn(markets - rest, shelves, outcome, id)
    requires !HeldAt(Views(shelves), BookKey(market, outcome), outcome, id)
    ensures NotHeldIn(markets - (rest - {market}), shelves, outcome, id)
  {
  }

  lemma HeldNowhere(markets: set<MarketId>, shelves: map<BookKey, Shelf>, outcome: OutcomeId, id: OrderId)
    requires forall key | key in shelves :: key.market in markets
    requires NotHeldIn(markets - {}, shelves, outcome, id)
    ensures CancelsIn(Views(shelves), outcome, id, false, Views(shelves))
  {
    forall key: BookKey ensures !HeldAt(Views(shelves), key, outcome, id) {
      if key in shelves && key.outcome == outcome { assert key == BookKey(key.market, outcome); }
    }
  }

  /** The answer a depth query gives for a book. */
  ghost predicate DepthOf(b: Book, levels: nat, bids: seq<PriceLevel>, asks: seq<PriceLevel>) {
    D.ShowsBest(Buy, b.bids, levels, bids) && D.ShowsBest(Sell, b.asks, levels, asks)
  }

  method DepthOn(ob: Orderbook, ghost b: Book, levels: nat) returns (bids: seq<PriceLevel>, asks: seq<PriceLevel>)
    requires ob.Valid() && ob.View() == b
    ensures DepthOf(b, levels, bids, asks)
  {
    bids, asks := ob.GetDepth(levels);
  }

  method DepthIn(ob: Orderbook, key: BookKey, ghost shelves: map<BookKey, Shelf>, ghost arena: set<object>, levels: nat)
    returns (bids: seq<PriceLevel>, asks: seq<PriceLevel>)
    requires Family(shelves, arena) && key in shelves && ob == shelves[key].book
    ensures key in Views(shelves) && DepthOf(Views(shelves)[key], levels, bids, asks)
  {
    assert Holds(shelves[key]);
    bids, asks := DepthOn(ob, shelves[key].view, levels);
  }

  /** Books and engines fit together. */
  ghost predicate Kept(engines: map<MarketId, Engine>, shelves: map<BookKey, Shelf>, arena: set<object>)
    reads engines.Values, arena
  {
    && Linked(engines, shelves, arena)
    && (forall key | key in shelves :: key.market in engines)
    && Family(shelves, arena)
  }

  class Registry {
    var engines: map<MarketId, Engine>
    ghost var shelves: map<BookKey, Shelf>
    ghost var arena: set<object>

    ghost predicate Valid()
      reads this, engines.Values, arena
    {
      this !in arena && Kept(engines, shelves, arena)
    }

    /** What all books hold, by market and outcome. */
    ghost function Books(): map<BookKey, Book>
      reads this
    {
      Views(shelves)
    }

    constructor ()
      ensures Valid() && engines == map[] && Books() == map[] && arena == {}
    {
      engines, shelves, arena := map[], map[], {};
    }

    method GetOrCreate(market: MarketId) returns (eng: Engine)
      requires Valid()
      modifies this`engines
      ensures Valid() && market in engines && engines[market] == eng
      ensures engines == if market in old(engines) then old(engines) else old(engines)[market := eng]
      ensures fresh(engines.Values - old(engines.Values)) && shelves == old(shelves) && arena == old(arena)
    {
      if market in engines {
        return engines[market];
      }
      eng := new Engine(market);
      engines := engines[market := eng];
    }

    /** Takes note of how the books have moved on. */
    ghost method Note(shelves: map<BookKey, Shelf>, arena: set<object>)
      requires this !in arena && Kept(engines, shelves, arena)
      modifies this`shelves, this`arena
      ensures this.shelves == shelves && this.arena == arena
      ensures Kept(engines, shelves, arena) == old(Kept(engines, shelves, arena))
    {
      this.shelves, this.arena := shelves, arena;
    }

    /** Places an order with the engine of its market. */
    method PlaceOrder(order: Order) returns (result: Result<MatchResult>)
      requires Valid() && this !in arena && order !in arena
      requires FreshIn(ViewAt(shelves, BookKey(order.market, order.outcome)), order.id)
      modifies this, engines.Values, order, arena
      ensures Valid() && fresh(engines.Values - old(engines.Values))
      ensures forall x: object | old(allocated(x)) && x in arena :: x in old(arena) || x == order
      ensures PriceInRange(order.price) && order.quantity > 0.0 <==> result.Ok?
      ensures result.Err? ==>
        && result.error == (if PriceInRange(order.price) then InvalidQuantity else InvalidPrice)
        && Books() == old(Books()) && order.Snapshot() == old(order.Snapshot())
      ensures result.Ok? ==> var key := BookKey(order.market, order.outcome);
        && Places(BookAt(old(Books()), key), old(order.Snapshot()), result.value.trades, result.value.rests,
                  order.Snapshot(), BookAt(Books(), key))
        && Books() == old(Books())[key := BookAt(Books(), key)]
    {
      var _ := GetOrCreate(order.market);
      ghost var before, key := shelves, BookKey(order.market, order.outcome);
      ghost var shelves', arena';
      result, shelves', arena' := PlaceVia(engines, order, shelves, arena);
      Note(shelves', arena');
      if result.Ok? { ViewsOfOne(before, key, shelves[key]); }
    }

    /** Asks the engine of one market to cancel. */
    method CancelInMarket(market: MarketId, outcome: OutcomeId, id: OrderId) returns (result: Result<Order>)
      requires Valid() && market in engines
      modifies this, arena
      ensures Valid() && arena == old(arena) && engines == old(engines)
      ensures result.Ok? ==> CancelsIn(old(Books()), outcome, id, true, Books())
      ensures result.Ok? ==> result.value.id == id && result.value.status == Cancelled
      ensures result.Err? ==> result == Err(OrderNotFound)
      ensures result.Err? ==> shelves == old(shelves) && !HeldAt(Views(shelves), BookKey(market, outcome), outcome, id)
    {
      ghost var key := BookKey(market, outcome);
      ghost var shelves';
      result, shelves' := CancelVia(engines, market, outcome, id, shelves, arena);
      if result.Ok? {
        AfterCancelFound(shelves, key, outcome, id);
      } else {
        AfterCancelNothing(shelves, key, outcome, id);
      }
      Note(shelves', arena);
    }

    /** Asks the engines, in no particular order, until one has cancelled the order. */
    method CancelOrder(outcome: OutcomeId, id: OrderId) returns (result: Result<Order>)
      requires Valid()
      modifies this, arena
      ensures Valid() && arena == old(arena) && engines == old(engines)
      ensures CancelsIn(old(Books()), outcome, id, result.Ok?, Books())
      ensures result.Ok? ==> result.value.id == id && result.value.status == Cancelled
      ensures result.Err? ==> result == Err(OrderNotFound)
    {
      var rest := engines.Keys;
      while rest != {}
        invariant Valid() && arena == old(arena) && engines == old(engines) && shelves == old(shelves)
        invariant rest <= engines.Keys
        invariant NotHeldIn(engines.Keys - rest, shelves, outcome, id)
      {
        var market :| market in rest;
        result := CancelInMarket(market, outcome, id);
        if result.Ok? { return; }
        NotHeldInMore(engines.Keys, market, rest, shelves, outcome, id);
        rest := rest - {market};
      }
      HeldNowhere(engines.Keys, shelves, outcome, id);
      result := Err(OrderNotFound);
    }

    /** RestoreOrder, once its engine is there. */
    method RestoreWithEngine(order: Order)
      requires Valid() && this !in arena && order !in arena && order.market in engines
      requires FreshIn(ViewAt(shelves, BookKey(order.market, order.outcome)), order.id)
      modifies this`shelves, this`arena, engines[order.market], arena
      ensures Valid() && fresh(arena - old(arena) - {order})
      ensures Books() == R.RestoreOrder(old(Books()), old(order.Snapshot()))
    {
      ghost var shelves', arena' := RestoreVia(engines, order, shelves, arena);
      Note(shelves', arena');
    }

    /** Puts an order from the database back on its book, without matching. */
    method RestoreOrder(order: Order)
      requires Valid() && this !in arena && order !in arena
      requires FreshIn(ViewAt(shelves, BookKey(order.market, order.outcome)), order.id)
      modifies this, engines.Values, arena
      ensures Valid() && fresh(engines.Values - old(engines.Values))
      ensures forall x: object | old(allocated(x)) && x in arena :: x in old(arena) || x == order
      ensures Books() == R.RestoreOrder(old(Books()), old(order.Snapshot()))
    {
      var _ := GetOrCreate(order.market);
      RestoreWithEngine(order);
    }

    /** The aggregated depth of an outcome's book, from the first engine that has one; none
        if no engine has. */
    method GetOrderbookDepth(outcome: OutcomeId, levels: nat) returns (bids: seq<PriceLevel>, asks: seq<PriceLevel>)
      requires Valid()
      ensures (exists key :: key in Books() && key.outcome == outcome && DepthOf(Books()[key], levels, bids, asks))
           || (bids == [] && asks == [] && forall key | key in Books() :: key.outcome != outcome)
    {
      var rest := engines.Keys;
      while rest != {}
        invariant rest <= engines.Keys
        invariant forall m | m in engines && m !in rest :: BookKey(m, outcome) !in shelves
      {
        var market :| market in rest;
        var eng := engines[market];
        var ob := eng.GetOrderbook(outcome);
        if ob != null {
          bids, asks := DepthIn(ob, BookKey(market, outcome), shelves, arena, levels);
          return;
        }
        rest := rest - {market};
      }
      forall key | key in shelves ensures key.outcome != outcome {
        assert key == BookKey(key.market, key.outcome);
      }
      return [], [];
    }
  }
}
