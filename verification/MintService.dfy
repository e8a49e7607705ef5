/** The mint service, on the repositories. */
module MintService {
  import opened Domain
  import opened Ledger
  import opened Minting
  import opened Stores

  /** The loop over a market's outcomes, each position inserted or overwritten. */
  method MintEach(t: Tables, user: UserId, market: MarketId, outcomes: seq<OutcomeId>, quantity: real)
    returns (minted: seq<Position>)
    modifies t.positions
    ensures t.positions.positions == MintPositions(old(t.positions.positions), user, market, outcomes, quantity)
    ensures |minted| == |outcomes| && forall p | p in minted :: p == Position(market, quantity, 1.0)
  {
    minted := [];
    ghost var before := t.positions.positions;
    assert outcomes[0..] == outcomes;
    for i := 0 to |outcomes|
      invariant MintPositions(before, user, market, outcomes, quantity)
             == MintPositions(t.positions.positions, user, market, outcomes[i..], quantity)
      invariant |minted| == i && forall p | p in minted :: p == Position(market, quantity, 1.0)
    {
      assert outcomes[i..][1..] == outcomes[i + 1..];
      var pos := Position(market, quantity, 1.0);
      t.positions.Upsert(Holding(user, outcomes[i]), pos);
      minted := minted + [pos];
    }
  }

  class MintService {
    const tables: Tables
    const outcomes: OutcomeRepository

    constructor (tables: Tables, outcomes: OutcomeRepository)
      ensures this.tables == tables && this.outcomes == outcomes
    {
      this.tables, this.outcomes := tables, outcomes;
    }

    /** Mints a complete set of the outcomes listed for the market, at a cost of one per set. */
    method MintTokens(user: UserId, market: MarketId, quantity: real)
      returns (result: Result<seq<Position>>, ghost listing: seq<OutcomeId>)
      modifies tables.users, tables.positions, tables.orders, tables.trades
      ensures OutcomesOf(outcomes.Catalog(), market, listing)
      ensures match Mint(old(tables.Contents()), user, market, listing, quantity)
        case Ok(l) =>
          && tables.Contents() == l
          && result.Ok? && |result.value| == |listing|
          && forall p | p in result.value :: p == Position(market, quantity, 1.0)
        case Err(e) => tables.Contents() == old(tables.Contents()) && result == Err(e)
    {
      var listed := outcomes.ListByMarket(market);
      listing := listed;
      var account := tables.users.GetByID(user);
      if account.Err? { return Err(account.error), listing; }
      var cost := quantity;
      if account.value.balance < cost { return Err(InsufficientBalance), listing; }
      var minted := MintEach(tables, user, market, listed, quantity);
      var updated := tables.users.UpdateBalance(user, account.value.balance - cost, account.value.locked);
      tables.trades.CreateMintTx(MintTx(user, market, quantity, cost));
      result := Ok(minted);
    }
  }
}
