/** Ledger and matching engine together: what one service call does to both. */
module Exchange {
  import opened Domain
  import opened FlatBook
  import opened Ledger

  datatype Exchange = Exchange(ledger: Ledger, books: map<BookKey, Book>)

  /** The state a call leaves, and what it answers. A failed transaction restores the
      ledger; the books are never rolled back. */
  datatype Reply<+T> = Reply(state: Exchange, result: Result<T>)

  datatype Placed = Placed(order: Row, trades: seq<Trade>)

  function BookAt(books: map<BookKey, Book>, key: BookKey): Book {
    if key in books then books[key] else EMPTY_BOOK
  }

  function KeyOf(r: Row): BookKey { BookKey(r.market, r.outcome) }

  /** The ledger's part of a placement, given what the engine answered. */
  function SettlePlacement(div: Division, l: Ledger, r: Row, m: Matched): Result<Ledger> {
    match SettleAll(div, l, r.side, r.price, m.trades)
    case Err(e) => Err(e)
    case Ok(l') => FinishTaker(l', Settled(m.taker))
  }

  function MatchAt(x: Exchange, r: Row): Matched {
    Match(r, BookAt(x.books, KeyOf(r)).SideRows(r.side.Opposite()))
  }

  /** Placing order r, which is new: unfilled and open. */
  function PlaceOrder(div: Division, x: Exchange, r: Row): Reply<Placed> {
    if !PriceInRange(r.price) then Reply(x, Err(InvalidPrice))
    else
      match Escrow(x.ledger, r)
      case Err(e) => Reply(x, Err(e))
      case Ok(l) =>
        if r.id in l.orders then Reply(x, Err(OrderExists))
        else if r.quantity <= 0.0 then Reply(x, Err(InvalidQuantity))
        else
          var m := MatchAt(x, r);
          var x' := x.(books := x.books[KeyOf(r) := Place(BookAt(x.books, KeyOf(r)), r)]);
          match SettlePlacement(div, l.(orders := l.orders[r.id := r]), r, m)
          case Err(e) => Reply(x', Err(e))
          case Ok(l') => Reply(x'.(ledger := l'), Ok(Placed(Settled(m.taker), m.trades)))
  }

  /** Some book of the outcome, in whatever market, holds the order. */
  ghost predicate HeldAt(books: map<BookKey, Book>, key: BookKey, outcome: OutcomeId, id: OrderId) {
    && key in books && key.outcome == outcome
    && (HasId(books[key].bids, id) || HasId(books[key].asks, id))
  }

  /** The engine looks for the order in every market's book of that outcome. */
  ghost function CancelInBooks(books: map<BookKey, Book>, outcome: OutcomeId, id: OrderId): Option<map<BookKey, Book>> {
    if exists key :: HeldAt(books, key, outcome, id) then
      var key :| HeldAt(books, key, outcome, id);
      Some(books[key := Cancel(books[key], id)])
    else None
  }

  /** What a single cancellation gives back: a buy's funds, and nothing of a sell. */
  function Releasing(l: Ledger, r: Row): Result<Ledger> {
    if r.side.Buy? then ReleaseFunds(l, r) else Ok(l)
  }

  /** What cancel-all gives back for an order. */
  function Returning(l: Ledger, r: Row): Result<Ledger> {
    if r.side.Buy? then ReleaseFunds(l, r) else RestoreShares(l, r)
  }

  ghost function CancelOrder(x: Exchange, user: UserId, id: OrderId): Reply<()> {
    if id !in x.ledger.orders then Reply(x, Err(OrderNotFound))
    else
      var r := x.ledger.orders[id];
      if r.user != user then Reply(x, Err(Forbidden))
      else
        match CancelInBooks(x.books, r.outcome, id)
        case None => Reply(x, Err(OrderNotFound))
        case Some(books) =>
          var x' := x.(books := books);
          match Releasing(x.ledger, r)
          case Err(e) => Reply(x', Err(e))
          case Ok(l) =>
            match SetStatus(l, id, Cancelled, r.filled)
            case Err(e) => Reply(x'.(ledger := l), Err(e))
            case Ok(l') => Reply(x'.(ledger := l'), Ok(()))
  }

  /** One turn of the cancel-all loop, on a listed copy of an order. */
  ghost function CancelListed(x: Exchange, r: Row): Reply<()> {
    match CancelInBooks(x.books, r.outcome, r.id)
    case None => Reply(x, Err(OrderNotFound))
    case Some(books) =>
      var x' := x.(books := books);
      match Returning(x.ledger, r)
      case Err(e) => Reply(x', Err(e))
      case Ok(l) =>
        match SetStatus(l, r.id, Cancelled, r.filled)
        case Err(e) => Reply(x'.(ledger := l), Err(e))
        case Ok(l') => Reply(x'.(ledger := l'), Ok(()))
  }

  ghost function CancelAll(x: Exchange, listing: seq<Row>): Reply<nat>
    decreases |listing|
  {
    if listing == [] then Reply(x, Ok(0))
    else
      var first := CancelListed(x, listing[0]);
      match first.result
      case Err(e) => Reply(first.state, Err(e))
      case Ok(_) =>
        var others := CancelAll(first.state, listing[1..]);
        match others.result
        case Err(e) => Reply(others.state, Err(e))
        case Ok(n) => Reply(others.state, Ok(n + 1))
  }

  /** A listing of a market's open orders: each exactly once, in any order. */
  ghost predicate ListsOpen(orders: map<OrderId, Row>, market: MarketId, listing: seq<Row>) {
    && DistinctIds(listing)
    && forall r :: r in listing <==>
         r.id in orders && orders[r.id] == r && r.market == market && r.Live()
  }

  function MintTokens(x: Exchange, user: UserId, market: MarketId, outcomes: seq<OutcomeId>,
      quantity: real): Reply<()> {
    match Mint(x.ledger, user, market, outcomes, quantity)
    case Err(e) => Reply(x, Err(e))
    case Ok(l) => Reply(x.(ledger := l), Ok(()))
  }
}
