/** The tables behind the services and what each service call does to them, as functions.
    The service classes are proved to compute exactly these. */
module Ledger {
  import opened Domain

  /** How Div rounds a quotient: a parameter, because every other operation is exact. */
  type Division = (real, real) -> real

  datatype Ledger = Ledger(
    users: map<UserId, Account>,
    positions: map<Holding, Position>,
    orders: map<OrderId, Row>,
    trades: seq<Trade>,
    mints: seq<MintTx>)

  // ---- placing an order ----

  /** A buy locks its full cost; a sell takes its quantity out of the position. */
  function Escrow(l: Ledger, r: Row): Result<Ledger> {
    match r.side
    case Buy =>
      var cost := r.price * r.quantity;
      if r.user !in l.users then Err(UserNotFound)
      else if l.users[r.user].balance < cost then Err(InsufficientBalance)
      else
        var a := l.users[r.user];
        Ok(l.(users := l.users[r.user := Account(a.balance - cost, a.locked + cost)]))
    case Sell =>
      var h := Holding(r.user, r.outcome);
      if h !in l.positions then Err(PositionNotFound)
      else if l.positions[h].quantity < r.quantity then Err(InsufficientBalance)
      else
        var p := l.positions[h];
        Ok(l.(positions := l.positions[h := p.(quantity := p.quantity - r.quantity)]))
  }

  function Buyer(side: Side, t: Trade): UserId { if side.Buy? then t.takerUser else t.makerUser }

  function Seller(side: Side, t: Trade): UserId { if side.Buy? then t.makerUser else t.takerUser }

  /** The price at which the buyer's funds were locked: the taker's limit if it buys, and
      otherwise the maker's own price, at which the trade executes. */
  function BuyerLimit(side: Side, limit: real, t: Trade): real { if side.Buy? then limit else t.price }

  /** The buyer's position before a trade; a new one starts empty. */
  function HeldBefore(positions: map<Holding, Position>, buyer: UserId, t: Trade): Position {
    var h := Holding(buyer, t.outcome);
    if h in positions then positions[h] else Position(t.market, 0.0, 0.0)
  }

  /** What a position has cost at its average, and what q more at a price add to it. */
  function TotalCost(p: Position, price: real, q: real): real {
    p.avgPrice * p.quantity + price * q
  }

  /** A position after buying q more at a price, at the new weighted average price. */
  function AddShares(div: Division, p: Position, price: real, q: real): Position {
    var quantity := p.quantity + q;
    Position(p.market, quantity, if quantity > 0.0 then div(TotalCost(p, price, q), quantity) else p.avgPrice)
  }

  function Bought(div: Division, positions: map<Holding, Position>, buyer: UserId, t: Trade): Position {
    AddShares(div, HeldBefore(positions, buyer, t), t.price, t.quantity)
  }

  /** A maker's row after a trade, as the service computes it from its own copy. */
  function FillRow(r: Row, q: real): Row {
    r.(filled := r.filled + q, status := if r.filled + q >= r.quantity then Filled else Partial)
  }

  function PayBuyer(a: Account, limit: real, price: real, q: real): Account {
    Account(a.balance + (limit - price) * q, a.locked - limit * q)
  }

  function PaySeller(a: Account, price: real, q: real): Account {
    a.(balance := a.balance + price * q)
  }

  /** One trade: the trade row, the buyer's funds and position, the seller's proceeds and
      the maker's row. `side` and `limit` are the taker's. */
  function SettleTrade(div: Division, l: Ledger, side: Side, limit: real, t: Trade): Result<Ledger> {
    var buyer, seller := Buyer(side, t), Seller(side, t);
    if buyer !in l.users then Err(UserNotFound)
    else
      var users := l.users[buyer := PayBuyer(l.users[buyer], BuyerLimit(side, limit, t), t.price, t.quantity)];
      var positions := l.positions[Holding(buyer, t.outcome) := Bought(div, l.positions, buyer, t)];
      if seller !in users then Err(UserNotFound)
      else if t.makerOrder !in l.orders then Err(OrderNotFound)
      else Ok(Ledger(
                users[seller := PaySeller(users[seller], t.price, t.quantity)],
                positions,
                l.orders[t.makerOrder := FillRow(l.orders[t.makerOrder], t.quantity)],
                l.trades + [t],
                l.mints))
  }

  function SettleAll(div: Division, l: Ledger, side: Side, limit: real, ts: seq<Trade>): Result<Ledger>
    decreases |ts|
  {
    if ts == [] then Ok(l)
    else
      match SettleTrade(div, l, side, limit, ts[0])
      case Err(e) => Err(e)
      case Ok(l') => SettleAll(div, l', side, limit, ts[1..])
  }

  function SetStatus(l: Ledger, id: OrderId, status: OrderStatus, filled: real): Result<Ledger> {
    if id !in l.orders then Err(OrderNotFound)
    else Ok(l.(orders := l.orders[id := l.orders[id].(status := status, filled := filled)]))
  }

  /** The taker's own row is written only if something was filled. */
  function FinishTaker(l: Ledger, taker: Row): Result<Ledger> {
    if taker.filled > 0.0 then SetStatus(l, taker.id, taker.status, taker.filled) else Ok(l)
  }

  // ---- cancelling ----

  /** Gives a cancelled buy's unfilled cost back to the user's available balance. */
  function ReleaseFunds(l: Ledger, r: Row): Result<Ledger> {
    if r.user !in l.users then Err(UserNotFound)
    else
      var a := l.users[r.user];
      var cost := r.Remaining() * r.price;
      Ok(l.(users := l.users[r.user := Account(a.balance + cost, a.locked - cost)]))
  }

  /** Gives a cancelled sell's unfilled quantity back to the user's position. */
  function RestoreShares(l: Ledger, r: Row): Result<Ledger> {
    var h := Holding(r.user, r.outcome);
    if h !in l.positions then Err(PositionNotFound)
    else
      var p := l.positions[h];
      Ok(l.(positions := l.positions[h := p.(quantity := p.quantity + r.Remaining())]))
  }

  // ---- minting ----

  function MintPositions(positions: map<Holding, Position>, user: UserId, market: MarketId,
                         outcomes: seq<OutcomeId>, quantity: real): map<Holding, Position>
    decreases |outcomes|
  {
    if outcomes == [] then positions
    else MintPositions(positions[Holding(user, outcomes[0]) := Position(market, quantity, 1.0)],
                       user, market, outcomes[1..], quantity)
  }

  function Mint(l: Ledger, user: UserId, market: MarketId, outcomes: seq<OutcomeId>, quantity: real): Result<Ledger> {
    if user !in l.users then Err(UserNotFound)
    else if l.users[user].balance < quantity then Err(InsufficientBalance)
    else
      var a := l.users[user];
      Ok(l.(positions := MintPositions(l.positions, user, market, outcomes, quantity),
            users := l.users[user := a.(balance := a.balance - quantity)],
            mints := l.mints + [MintTx(user, market, quantity, quantity)]))
  }
}
