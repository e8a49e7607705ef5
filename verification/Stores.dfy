/** The repositories behind the services. Each holds one table, hands out copies, and fails
    only on rows that are not there (or, for Create, that are). */
module Stores {
  import opened Domain
  import opened FlatBook
  import opened Ledger
  import opened Exchange
  import opened Funds
  import opened Payments
  import opened Minting
  import R = Restart
  import L = Lifecycle

  class UserRepository {
    var users: map<UserId, Account>

    constructor ()
      ensures users == map[]
    {
      users := map[];
    }

    function GetByID(id: UserId): Result<Account>
      reads this
    {
      if id in users then Ok(users[id]) else Err(UserNotFound)
    }

    method Create(id: UserId, account: Account) returns (result: Result<()>)
      modifies this
      ensures id in old(users) ==> result == Err(UserExists) && users == old(users)
      ensures id !in old(users) ==> result == Ok(()) && users == old(users)[id := account]
    {
      if id in users { return Err(UserExists); }
      users := users[id := account];
      return Ok(());
    }

    method UpdateBalance(id: UserId, balance: real, locked: real) returns (result: Result<()>)
      modifies this
      ensures id !in old(users) ==> result == Err(UserNotFound) && users == old(users)
      ensures id in old(users) ==> result == Ok(()) && users == old(users)[id := Account(balance, locked)]
    {
      if id !in users { return Err(UserNotFound); }
      users := users[id := Account(balance, locked)];
      return Ok(());
    }
  }

  class PositionRepository {
    var positions: map<Holding, Position>

    constructor ()
      ensures positions == map[]
    {
      positions := map[];
    }

    function GetByUserAndOutcome(h: Holding): Result<Position>
      reads this
    {
      if h in positions then Ok(positions[h]) else Err(PositionNotFound)
    }

    /** Inserts a position or overwrites the one there is. */
    method Upsert(h: Holding, p: Position)
      modifies this
      ensures positions == old(positions)[h := p]
    {
      positions := positions[h := p];
    }

    /** All positions of a market, in no particular order. */
    method ListByMarket(market: MarketId) returns (listing: seq<Listed>)
      ensures ListsPositions(positions, market, listing)
    {
      listing := [];
      var rest := positions.Keys;
      while rest != {}
        invariant rest <= positions.Keys
        invariant forall i | 0 <= i < |listing| :: listing[i].holding !in rest
        invariant forall i, j | 0 <= i < j < |listing| :: listing[i].holding != listing[j].holding
        invariant forall l :: l in listing <==>
          && l.holding in positions && l.holding !in rest
          && positions[l.holding] == l.position && l.position.market == market
      {
        var h :| h in rest;
        rest := rest - {h};
        if positions[h].market == market { listing := listing + [Listed(h, positions[h])]; }
      }
    }
  }

  class OrderRepository {
    var orders: map<OrderId, Row>

    constructor ()
      ensures orders == map[] && Keyed()
    {
      orders := map[];
    }

    /** Rows are stored under their own identifier. */
    predicate Keyed()
      reads this
    {
      forall id | id in orders :: orders[id].id == id
    }

    method Create(r: Row) returns (result: Result<()>)
      modifies this
      ensures r.id in old(orders) ==> result == Err(OrderExists) && orders == old(orders)
      ensures r.id !in old(orders) ==> result == Ok(()) && orders == old(orders)[r.id := r]
    {
      if r.id in orders { return Err(OrderExists); }
      orders := orders[r.id := r];
      return Ok(());
    }

    function GetByID(id: OrderId): Result<Row>
      reads this
    {
      if id in orders then Ok(orders[id]) else Err(OrderNotFound)
    }

    method UpdateStatus(id: OrderId, status: OrderStatus, filled: real) returns (result: Result<()>)
      modifies this
      ensures id !in old(orders) ==> result == Err(OrderNotFound) && orders == old(orders)
      ensures id in old(orders) ==>
        result == Ok(()) && orders == old(orders)[id := old(orders)[id].(status := status, filled := filled)]
    {
      if id !in orders { return Err(OrderNotFound); }
      orders := orders[id := orders[id].(status := status, filled := filled)];
      return Ok(());
    }

    /** All open or partially filled orders of a market, in no particular order. */
    method ListOpenByMarket(market: MarketId) returns (result: seq<Row>)
      requires Keyed()
      ensures ListsOpen(orders, market, result)
    {
      result := [];
      var rest := orders.Keys;
      while rest != {}
        invariant rest <= orders.Keys
        invariant DistinctIds(result)
        invariant forall r :: r in result <==>
          r.id in orders && r.id !in rest && orders[r.id] == r && r.market == market && r.Live()
      {
        var id :| id in rest;
        rest := rest - {id};
        var order := orders[id];
        if order.market != market { continue; }
        if order.status != Open && order.status != Partial { continue; }
        assert forall i | 0 <= i < |result| :: result[i] in result;
        result := result + [order];
      }
    }

    /** All open or partially filled orders, in no particular order. */
    method ListAllOpen() returns (result: seq<Row>)
      requires Keyed()
      ensures R.ListsLive(orders, result)
    {
      result := [];
      var rest := orders.Keys;
      while rest != {}
        invariant rest <= orders.Keys
        invariant DistinctIds(result)
        invariant forall r :: r in result <==> r.id in orders && r.id !in rest && orders[r.id] == r && r.Live()
      {
        var id :| id in rest;
        rest := rest - {id};
        var order := orders[id];
        assert forall i | 0 <= i < |result| :: result[i] in result;
        if order.status == Open || order.status == Partial { result := result + [order]; }
      }
    }
  }

  class TradeRepository {
    var trades: seq<Trade>
    var mints: seq<MintTx>

    constructor ()
      ensures trades == [] && mints == []
    {
      trades, mints := [], [];
    }

    method Create(t: Trade)
      modifies this
      ensures trades == old(trades) + [t] && mints == old(mints)
    {
      trades := trades + [t];
    }

    method CreateMintTx(m: MintTx)
      modifies this
      ensures mints == old(mints) + [m] && trades == old(trades)
    {
      mints := mints + [m];
    }
  }

  /** An outcome's row: the market it belongs to, and whether it has won. */
  datatype Outcome = Outcome(market: MarketId, isWinner: bool)

  class OutcomeRepository {
    var outcomes: map<OutcomeId, Outcome>

    constructor ()
      ensures outcomes == map[]
    {
      outcomes := map[];
    }

    /** Which market each outcome belongs to. */
    function Catalog(): Catalog
      reads this
    {
      map o | o in outcomes :: outcomes[o].market
    }

    function Winners(): set<OutcomeId>
      reads this
    {
      set o | o in outcomes && outcomes[o].isWinner
    }

    /** The outcomes of a market, each once. */
    method ListByMarket(market: MarketId) returns (listing: seq<OutcomeId>)
      ensures OutcomesOf(Catalog(), market, listing)
    {
      listing := [];
      var rest := outcomes.Keys;
      while rest != {}
        invariant rest <= outcomes.Keys
        invariant forall i, j | 0 <= i < j < |listing| :: listing[i] != listing[j]
        invariant forall o :: o in listing <==> o in outcomes && o !in rest && outcomes[o].market == market
      {
        var o :| o in rest;
        rest := rest - {o};
        if outcomes[o].market == market { listing := listing + [o]; }
      }
    }

    /** Marks an outcome as the winner; the others are left as they are. */
    method SetWinner(id: OutcomeId) returns (result: Result<()>)
      modifies this
      ensures Catalog() == old(Catalog())
      ensures id !in old(outcomes) ==> result == Err(OutcomeNotFound) && outcomes == old(outcomes)
      ensures id in old(outcomes) ==> result == Ok(()) && Winners() == old(Winners()) + {id}
    {
      if id !in outcomes { return Err(OutcomeNotFound); }
      outcomes := outcomes[id := outcomes[id].(isWinner := true)];
      return Ok(());
    }
  }

  class MarketRepository {
    var markets: map<MarketId, L.Market>

    constructor ()
      ensures markets == map[]
    {
      markets := map[];
    }

    function GetByID(id: MarketId): Result<L.Market>
      reads this
    {
      if id in markets then Ok(markets[id]) else Err(MarketNotFound)
    }

    method Create(id: MarketId, market: L.Market) returns (result: Result<()>)
      modifies this
      ensures id in old(markets) ==> result == Err(MarketExists) && markets == old(markets)
      ensures id !in old(markets) ==> result == Ok(()) && markets == old(markets)[id := market]
    {
      if id in markets { return Err(MarketExists); }
      markets := markets[id := market];
      return Ok(());
    }

    method Update(id: MarketId, market: L.Market) returns (result: Result<()>)
      modifies this
      ensures id !in old(markets) ==> result == Err(MarketNotFound) && markets == old(markets)
      ensures id in old(markets) ==> result == Ok(()) && markets == old(markets)[id := market]
    {
      if id !in markets { return Err(MarketNotFound); }
      markets := markets[id := market];
      return Ok(());
    }
  }

  /** The rows of markets and outcomes. */
  datatype MarketRows = MarketRows(markets: map<MarketId, L.Market>, outcomes: map<OutcomeId, Outcome>) {
    function Catalog(): Catalog { map o | o in outcomes :: outcomes[o].market }

    function Winners(): set<OutcomeId> { set o | o in outcomes && outcomes[o].isWinner }
  }

  /** The market service's tables together, which a failed transaction puts back likewise. */
  class MarketTables {
    const markets: MarketRepository
    const outcomes: OutcomeRepository

    constructor (markets: MarketRepository, outcomes: OutcomeRepository)
      ensures this.markets == markets && this.outcomes == outcomes
    {
      this.markets, this.outcomes := markets, outcomes;
    }

    function Contents(): MarketRows
      reads markets, outcomes
    {
      MarketRows(markets.markets, outcomes.outcomes)
    }

    method Rollback(rows: MarketRows)
      modifies markets, outcomes
      ensures Contents() == rows
    {
      markets.markets, outcomes.outcomes := rows.markets, rows.outcomes;
    }
  }

  /** The ledger's tables together; a transaction that fails puts all of them back. */
  class Tables {
    const users: UserRepository
    const positions: PositionRepository
    const orders: OrderRepository
    const trades: TradeRepository

    constructor (users: UserRepository, positions: PositionRepository, orders: OrderRepository, trades: TradeRepository)
      ensures this.users == users && this.positions == positions && this.orders == orders && this.trades == trades
    {
      this.users, this.positions, this.orders, this.trades := users, positions, orders, trades;
    }

    function Contents(): (l: Ledger)
      reads users, positions, orders, trades
    {
      Ledger(users.users, positions.positions, orders.orders, trades.trades, trades.mints)
    }

    method Rollback(l: Ledger)
      modifies users, positions, orders, trades
      ensures Contents() == l
    {
      users.users, positions.positions, orders.orders := l.users, l.positions, l.orders;
      trades.trades, trades.mints := l.trades, l.mints;
    }
  }
}
