/** The exchange's records: orders, trades, positions and accounts (pkg/domain).
    Decimals are exact reals; identifiers are kept apart by type. */
module Domain {

  datatype UserId = UserId(text: string)
  datatype MarketId = MarketId(text: string)
  datatype OutcomeId = OutcomeId(text: string)
  datatype OrderId = OrderId(text: string)

  datatype Option<+T> = None | Some(value: T)

  datatype Side = Buy | Sell {
    function Opposite(): Side { if Buy? then Sell else Buy }
  }

  datatype OrderStatus = Open | Partial | Filled | Cancelled

  const MIN_PRICE: real := 0.01
  const MAX_PRICE: real := 0.99

  predicate PriceInRange(price: real) { MIN_PRICE <= price <= MAX_PRICE }

  /** The value of an order at one moment: what a database row holds, and what an
      in-memory order object holds. */
  datatype Row = Row(
    id: OrderId,
    user: UserId,
    market: MarketId,
    outcome: OutcomeId,
    side: Side,
    price: real,
    quantity: real,
    filled: real,
    status: OrderStatus)
  {
    function Remaining(): real { quantity - filled }

    /** Open or partially filled: what ListOpenByMarket and ListAllOpen select. */
    predicate Live() { status.Open? || status.Partial? }

    /** A row as it may stand in a book. */
    predicate Resting() {
      && PriceInRange(price)
      && 0.0 <= filled < quantity
      && status == (if filled > 0.0 then Partial else Open)
    }
  }

  /** An in-memory order: the matching engine changes its fill and status in place. */
  class Order {
    const id: OrderId
    const user: UserId
    const market: MarketId
    const outcome: OutcomeId
    const side: Side
    const price: real
    const quantity: real
    var filled: real
    var status: OrderStatus

    constructor (row: Row)
      ensures Snapshot() == row
    {
      id, user, market, outcome := row.id, row.user, row.market, row.outcome;
      side, price, quantity := row.side, row.price, row.quantity;
      filled, status := row.filled, row.status;
    }

    function Snapshot(): (r: Row)
      reads this
    {
      Row(id, user, market, outcome, side, price, quantity, filled, status)
    }
  }

  datatype Trade = Trade(
    market: MarketId,
    outcome: OutcomeId,
    makerOrder: OrderId,
    takerOrder: OrderId,
    makerUser: UserId,
    takerUser: UserId,
    price: real,
    quantity: real)

  datatype PriceLevel = PriceLevel(price: real, quantity: real, count: nat)

  datatype Account = Account(balance: real, locked: real)

  datatype Position = Position(market: MarketId, quantity: real, avgPrice: real)

  /** Positions are unique per user and outcome. */
  datatype Holding = Holding(user: UserId, outcome: OutcomeId)

  /** One book per outcome of a market. */
  datatype BookKey = BookKey(market: MarketId, outcome: OutcomeId)

  datatype MintTx = MintTx(user: UserId, market: MarketId, quantity: real, cost: real)

  datatype Error =
    | InvalidPrice
    | InvalidQuantity
    | UserNotFound
    | PositionNotFound
    | OrderNotFound
    | OrderExists
    | UserExists
    | MarketExists
    | OutcomeNotFound
    | InsufficientBalance
    | Forbidden
    | MarketNotFound
    | BadRequest

  datatype Result<+T> = Ok(value: T) | Err(error: Error)
}
