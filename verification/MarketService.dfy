/** The market service's lifecycle operations. */
module MarketService {
  import opened Domain
  import opened Stores
  import opened World
  import L = Lifecycle

  /** The transition table's lookup, entry by entry. */
  method CheckTransition(from: L.MarketStatus, to: L.MarketStatus) returns (valid: bool)
    ensures valid == L.IsValidTransition(from, to)
  {
    if from !in L.VALID_TRANSITIONS { return false; }
    var allowed := L.VALID_TRANSITIONS[from];
    for i := 0 to |allowed|
      invariant to !in allowed[..i]
    {
      if allowed[i] == to { return true; }
    }
    return false;
  }

  /** Whether an outcome is among those listed. */
  method Lists(outcomes: seq<OutcomeId>, outcome: OutcomeId) returns (found: bool)
    ensures found == (outcome in outcomes)
  {
    for i := 0 to |outcomes|
      invariant outcome !in outcomes[..i]
    {
      if outcomes[i] == outcome { return true; }
    }
    return false;
  }

  /** The platform with these rows of markets and outcomes. */
  ghost function Around(w: World, rows: MarketRows): World {
    w.(markets := rows.markets, winners := rows.Winners())
  }

  class MarketService {
    const tables: MarketTables

    constructor (tables: MarketTables)
      ensures this.tables == tables
    {
      this.tables := tables;
    }

    /** Moves a market to a new status if the transition is allowed; w is the platform
        around the market's tables. */
    method UpdateMarketStatus(id: MarketId, status: L.MarketStatus, ghost w: World) returns (result: Result<()>)
      requires w == Around(w, tables.Contents())
      modifies tables.markets
      ensures UpdateStatus(w, id, status) == (Around(w, tables.Contents()), result)
    {
      var market := tables.markets.GetByID(id);
      if market.Err? { return Err(market.error); }
      var valid := CheckTransition(market.value.status, status);
      if !valid { return Err(BadRequest); }
      result := tables.markets.Update(id, market.value.(status := status));
    }

    /** The transaction of a resolution: both rows are written, or neither. */
    method MarkInTransaction(id: MarketId, winner: OutcomeId) returns (result: Result<()>)
      modifies tables.markets, tables.outcomes
      ensures var rows := old(tables.Contents());
        if id !in rows.markets then result == Err(MarketNotFound) && tables.Contents() == rows
        else if winner !in rows.outcomes then result == Err(OutcomeNotFound) && tables.Contents() == rows
        else
          && result == Ok(())
          && tables.Contents().markets == rows.markets[id := L.Market(L.Resolved, Some(winner))]
          && tables.Contents().Catalog() == rows.Catalog()
          && tables.Contents().Winners() == rows.Winners() + {winner}
    {
      var before := tables.Contents();
      result := tables.markets.Update(id, L.Market(L.Resolved, Some(winner)));
      if result.Ok? { result := tables.outcomes.SetWinner(winner); }
      if result.Err? { tables.Rollback(before); }
    }

    /** Marks a closed market as resolved and its winner as such, without paying anyone. */
    method ResolveMarket(id: MarketId, winner: OutcomeId, ghost w: World) returns (result: Result<()>)
      requires w == Around(w, tables.Contents())
      modifies tables.markets, tables.outcomes
      ensures MarkResolved(old(tables.Contents()).Catalog(), w, id, winner) == (Around(w, tables.Contents()), result)
      ensures tables.Contents().Catalog() == old(tables.Contents()).Catalog()
    {
      var market := tables.markets.GetByID(id);
      if market.Err? { return Err(market.error); }
      if market.value.status != L.Closed { return Err(BadRequest); }
      var listed := tables.outcomes.ListByMarket(id);
      var found := Lists(listed, winner);
      if !found { return Err(BadRequest); }
      result := MarkInTransaction(id, winner);
    }
  }
}
