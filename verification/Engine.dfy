/** The matching engine of one market: one order book per outcome, created lazily. */
module Engine {
  import opened Domain
  import opened FlatBook
  import opened Orderbook
  import opened BookFamily
  import opened MatchedBook

  /** What placing an order answers; the order itself carries its final fill and status. */
  datatype MatchResult = MatchResult(trades: seq<Trade>, rests: bool)

  ghost predicate ShelvedUnder(market: MarketId, orderbooks: map<OutcomeId, Orderbook>, shelves: map<BookKey, Shelf>) {
    && (forall o :: o in orderbooks <==> BookKey(market, o) in shelves)
    && (forall o | o in orderbooks :: shelves[BookKey(market, o)].book == orderbooks[o])
  }

  lemma ShelvedOneMore(market: MarketId, orderbooks: map<OutcomeId, Orderbook>, shelves: map<BookKey, Shelf>,
      outcome: OutcomeId, s: Shelf)
    requires ShelvedUnder(market, orderbooks, shelves)
    ensures ShelvedUnder(market, orderbooks[outcome := s.book], shelves[BookKey(market, outcome) := s])
  {
  }

  lemma ShelvedAgain(market: MarketId, orderbooks: map<OutcomeId, Orderbook>, shelves: map<BookKey, Shelf>,
      outcome: OutcomeId, s: Shelf)
    requires ShelvedUnder(market, orderbooks, shelves) && outcome in orderbooks && orderbooks[outcome] == s.book
    ensures ShelvedUnder(market, orderbooks, shelves[BookKey(market, outcome) := s])
  {
  }

  lemma Overwritten(shelves: map<BookKey, Shelf>, key: BookKey, a: Shelf, b: Shelf, arena: set<object>)
    requires a.part <= b.part
    ensures shelves[key := a][key := b] == shelves[key := b] && arena + a.part + b.part == arena + b.part
  {
  }

  lemma Unmoved(shelves: map<BookKey, Shelf>, key: BookKey, arena: set<object>)
    requires Apart(shelves, arena) && key in shelves
    ensures shelves[key := shelves[key]] == shelves && arena + shelves[key].part == arena
  {
  }

  class Engine {
    const market: MarketId
    var orderbooks: map<OutcomeId, Orderbook>

    /** The engine's books are those shelved under its market. */
    ghost predicate Shelved(shelves: map<BookKey, Shelf>)
      reads this
    {
      ShelvedUnder(market, orderbooks, shelves)
    }

    constructor (market: MarketId)
      ensures this.market == market && orderbooks == map[]
    {
      this.market := market;
      orderbooks := map[];
    }

    function GetOrderbook(outcome: OutcomeId): Orderbook?
      reads this
    {
      if outcome in orderbooks then orderbooks[outcome] else null
    }

    /** The book of an outcome, shelving a new, empty one if there is none yet. */
    method GetOrCreateOrderbook(outcome: OutcomeId, ghost shelves: map<BookKey, Shelf>, ghost arena: set<object>)
      returns (ob: Orderbook, ghost s: Shelf)
      requires Shelved(shelves) && Family(shelves, arena) && this !in arena
      modifies this
      ensures s.book == ob && s.view == ViewAt(shelves, BookKey(market, outcome)) && fresh(s.part - arena)
      ensures Shelved(shelves[BookKey(market, outcome) := s])
      ensures Family(shelves[BookKey(market, outcome) := s], arena + s.part)
    {
      ghost var key := BookKey(market, outcome);
      if outcome in orderbooks {
        ob, s := orderbooks[outcome], shelves[key];
        Unmoved(shelves, key, arena);
      } else {
        ob, s := NewBook(BookKey(market, outcome), shelves, arena);
        ShelvedOneMore(market, orderbooks, shelves, outcome, s);
        orderbooks := orderbooks[outcome := ob];
      }
    }

    /** Placing an order that is valid: matching and resting it in the book of its outcome. */
    method PlaceValid(order: Order, ghost shelves: map<BookKey, Shelf>, ghost arena: set<object>)
      returns (trades: seq<Trade>, rests: bool, ghost s: Shelf)
      requires Shelved(shelves) && Family(shelves, arena) && this !in arena && order !in arena
      requires FreshIn(ViewAt(shelves, BookKey(market, order.outcome)), order.id)
      modifies this, order, arena
      ensures Shelved(shelves[BookKey(market, order.outcome) := s])
      ensures Family(shelves[BookKey(market, order.outcome) := s], arena + s.part) && fresh(s.part - arena - {order})
      ensures Places(ViewAt(shelves, BookKey(market, order.outcome)), old(order.Snapshot()), trades, rests,
                     order.Snapshot(), s.view)
    {
      ghost var key := BookKey(market, order.outcome);
      var ob, s0 := GetOrCreateOrderbook(order.outcome, shelves, arena);
      trades, rests, s := PlaceAt(ob, order, shelves[key := s0], key, arena + s0.part);
      ShelvedAgain(market, orderbooks, shelves[key := s0], order.outcome, s);
      Overwritten(shelves, key, s0, s, arena);
    }

    /** Validates an order, matches it, and rests what is left. */
    method PlaceOrder(order: Order, ghost shelves: map<BookKey, Shelf>, ghost arena: set<object>)
      returns (result: Result<MatchResult>, ghost shelves': map<BookKey, Shelf>, ghost arena': set<object>)
      requires Shelved(shelves) && Family(shelves, arena) && this !in arena && order !in arena
      requires FreshIn(ViewAt(shelves, BookKey(market, order.outcome)), order.id)
      modifies this, order, arena
      ensures Shelved(shelves') && Family(shelves', arena') && arena <= arena' && fresh(arena' - arena - {order})
      ensures !PriceInRange(order.price) ==> result == Err(InvalidPrice)
      ensures PriceInRange(order.price) && order.quantity <= 0.0 ==> result == Err(InvalidQuantity)
      ensures PriceInRange(order.price) && order.quantity > 0.0 ==> result.Ok?
      ensures result.Err? ==> shelves' == shelves && order.Snapshot() == old(order.Snapshot())
      ensures result.Ok? ==> var key := BookKey(market, order.outcome);
        && key in shelves' && shelves' == shelves[key := shelves'[key]]
        && Places(ViewAt(shelves, key), old(order.Snapshot()), result.value.trades, result.value.rests,
                  order.Snapshot(), shelves'[key].view)
    {
      if order.price < MIN_PRICE || order.price > MAX_PRICE {
        return Err(InvalidPrice), shelves, arena;
      }
      if order.quantity <= 0.0 {
        return Err(InvalidQuantity), shelves, arena;
      }
      var trades, rests, s := PlaceValid(order, shelves, arena);
      return Ok(MatchResult(trades, rests)), shelves[BookKey(market, order.outcome) := s], arena + s.part;
    }

    /** Cancels an order resting in the book of an outcome. */
    method CancelOrder(outcome: OutcomeId, id: OrderId, ghost shelves: map<BookKey, Shelf>, ghost arena: set<object>)
      returns (result: Result<Order>, ghost shelves': map<BookKey, Shelf>)
      requires Shelved(shelves) && Family(shelves, arena) && this !in arena
      modifies arena
      ensures Shelved(shelves') && Family(shelves', arena)
      ensures var key := BookKey(market, outcome);
        && shelves' == (if key in shelves then shelves[key := shelves[key].(view := Cancel(shelves[key].view, id))]
                        else shelves)
        && (result.Ok? <==> key in shelves && !FreshIn(shelves[key].view, id))
      ensures result.Ok? ==> result.value.id == id && result.value.status == Cancelled
      ensures result.Err? ==> result == Err(OrderNotFound)
    {
      var ob := GetOrderbook(outcome);
      if ob == null {
        return Err(OrderNotFound), shelves;
      }
      ghost var key := BookKey(market, outcome);
      var order, s := CancelAt(ob, id, shelves, key, arena);
      shelves' := shelves[key := s];
      ShelvedAgain(market, orderbooks, shelves, outcome, s);
      result := if order == null then Err(OrderNotFound) else Ok(order);
    }

    /** Puts an existing order back on the book of its outcome, without matching. */
    method Restore(order: Order, ghost shelves: map<BookKey, Shelf>, ghost arena: set<object>)
      returns (ghost shelves': map<BookKey, Shelf>, ghost arena': set<object>)
      requires Shelved(shelves) && Family(shelves, arena) && this !in arena && order !in arena
      requires FreshIn(ViewAt(shelves, BookKey(market, order.outcome)), order.id)
      modifies this, arena
      ensures Shelved(shelves') && Family(shelves', arena') && arena <= arena' && fresh(arena' - arena - {order})
      ensures var key := BookKey(market, order.outcome);
        && key in shelves' && shelves' == shelves[key := shelves'[key]]
        && shelves'[key].view == Rested(ViewAt(shelves, key), order.Snapshot())
      ensures order.Snapshot() == old(order.Snapshot())
    {
      ghost var key := BookKey(market, order.outcome);
      var ob, s0 := GetOrCreateOrderbook(order.outcome, shelves, arena);
      ghost var s := RestAt(ob, order, shelves[key := s0], key, arena + s0.part);
      ShelvedAgain(market, orderbooks, shelves[key := s0], order.outcome, s);
      Overwritten(shelves, key, s0, s, arena);
      shelves', arena' := shelves[key := s], arena + s.part;
    }
  }
}
