/** Minting a complete set: what it costs, what it creates, and what it overwrites. */
module Minting {
  import opened Domain
  import opened Ledger
  import opened Exchange
  import opened Funds
  import opened Agreement

  /** A market's outcomes, each once. */
  ghost predicate OutcomesOf(cat: Catalog, market: MarketId, outcomes: seq<OutcomeId>) {
    && (forall i, j | 0 <= i < j < |outcomes| :: outcomes[i] != outcomes[j])
    && (forall o :: o in outcomes <==> o in cat && cat[o] == market)
  }

  function SharesAt(positions: map<Holding, Position>, h: Holding): real {
    if h in positions then positions[h].quantity else 0.0
  }

  /** Minting replaces the positions it finds: their shares are lost. */
  function LostAfterMint(lost: map<OutcomeId, real>, positions: map<Holding, Position>, user: UserId,
      outcomes: seq<OutcomeId>): map<OutcomeId, real> {
    map o | o in lost.Keys + (set x | x in outcomes) ::
      LostOf(lost, o) + (if o in outcomes then SharesAt(positions, Holding(user, o)) else 0.0)
  }

  lemma {:induction false} MintPositionsAt(positions: map<Holding, Position>, user: UserId, market: MarketId,
      outcomes: seq<OutcomeId>, quantity: real)
    ensures var after := MintPositions(positions, user, market, outcomes, quantity);
      && (forall h :: h in after <==> h in positions || (h.user == user && h.outcome in outcomes))
      && (forall h | h in after ::
            after[h] == if h.user == user && h.outcome in outcomes then Position(market, quantity, 1.0)
                        else positions[h])
    decreases |outcomes|
  {
    if outcomes != [] {
      MintPositionsAt(positions[Holding(user, outcomes[0]) := Position(market, quantity, 1.0)], user, market,
                      outcomes[1..], quantity);
      assert outcomes == [outcomes[0]] + outcomes[1..];
      assert Holding(user, outcomes[0]).outcome == outcomes[0];
    }
  }

  lemma {:induction false} MintedHeld(positions: map<Holding, Position>, user: UserId, market: MarketId,
      outcomes: seq<OutcomeId>, quantity: real, o: OutcomeId)
    requires forall i, j | 0 <= i < j < |outcomes| :: outcomes[i] != outcomes[j]
    ensures Held(MintPositions(positions, user, market, outcomes, quantity), o)
         == Held(positions, o) + if o in outcomes then quantity - SharesAt(positions, Holding(user, o)) else 0.0
    decreases |outcomes|
  {
    if outcomes != [] {
      var h, p := Holding(user, outcomes[0]), Position(market, quantity, 1.0);
      HeldUpdate(positions, h, p, o);
      MintedHeld(positions[h := p], user, market, outcomes[1..], quantity, o);
      assert outcomes == [outcomes[0]] + outcomes[1..];
      assert outcomes[0] !in outcomes[1..];
    }
  }

  lemma MintedAdds(mints: seq<MintTx>, m: MintTx, market: MarketId)
    ensures Minted(mints + [m], market) == Minted(mints, market) + if m.market == market then m.quantity else 0.0
  {
    assert (mints + [m])[..|mints|] == mints;
  }

  lemma MintKeepsShares(cat: Catalog, l: Ledger, user: UserId, market: MarketId, outcomes: seq<OutcomeId>,
      quantity: real, lost: map<OutcomeId, real>)
    requires SharesOk(cat, l, l.orders, lost) && OutcomesOf(cat, market, outcomes)
    requires forall h | h in l.positions :: l.positions[h].quantity >= 0.0
    requires Mint(l, user, market, outcomes, quantity).Ok?
    ensures SharesOk(cat, Mint(l, user, market, outcomes, quantity).value, l.orders,
                     LostAfterMint(lost, l.positions, user, outcomes))
  {
    var l' := Mint(l, user, market, outcomes, quantity).value;
    var lost' := LostAfterMint(lost, l.positions, user, outcomes);
    forall o | o in cat
      ensures LostOf(lost', o) >= 0.0
      ensures Held(l'.positions, o) + Escrowed(l.orders, o) + LostOf(lost', o) == Minted(l'.mints, cat[o])
    {
      assert Held(l.positions, o) + Escrowed(l.orders, o) + LostOf(lost, o) == Minted(l.mints, cat[o]);
      assert LostOf(lost, o) >= 0.0;
      MintedHeld(l.positions, user, market, outcomes, quantity, o);
      MintedAdds(l.mints, MintTx(user, market, quantity, quantity), cat[o]);
    }
  }

  lemma MintKeepsTables(cat: Catalog, l: Ledger, user: UserId, market: MarketId, outcomes: seq<OutcomeId>,
      quantity: real)
    requires OrdersOk(cat, l, l.orders) && PositionsOk(cat, l) && AccountsOk(l.users, l.orders)
    requires OutcomesOf(cat, market, outcomes) && quantity > 0.0
    requires Mint(l, user, market, outcomes, quantity).Ok?
    ensures var l' := Mint(l, user, market, outcomes, quantity).value;
      OrdersOk(cat, l', l'.orders) && PositionsOk(cat, l') && AccountsOk(l'.users, l'.orders)
  {
    var l' := Mint(l, user, market, outcomes, quantity).value;
    MintPositionsAt(l.positions, user, market, outcomes, quantity);
    forall h | h in l'.positions ensures PositionOk(cat, l'.users, h, l'.positions[h]) {
      if h in l.positions { assert PositionOk(cat, l.users, h, l.positions[h]); }
    }
    forall id | id in l.orders ensures OrderOk(cat, l', l.orders[id]) {
      assert OrderOk(cat, l, l.orders[id]);
    }
  }

  /** Minting a positive quantity succeeds exactly if the user can pay for it; it takes that
      much cash out of circulation, and accounts for every share it creates or overwrites. */
  lemma MintKeepsInv(cat: Catalog, x: Exchange, user: UserId, market: MarketId, outcomes: seq<OutcomeId>,
      quantity: real, lost: map<OutcomeId, real>)
    requires Inv(cat, x, lost) && OutcomesOf(cat, market, outcomes) && quantity > 0.0
    ensures var reply := MintTokens(x, user, market, outcomes, quantity); var users := x.ledger.users;
      && (reply.result.Ok? <==> user in users && users[user].balance >= quantity)
      && (reply.result.Err? ==> reply.state == x)
      && (reply.result.Ok? ==>
            && Inv(cat, reply.state, LostAfterMint(lost, x.ledger.positions, user, outcomes))
            && TotalCash(reply.state.ledger.users) == TotalCash(users) - quantity)
  {
    if MintTokens(x, user, market, outcomes, quantity).result.Ok? {
      var l := x.ledger;
      var l' := Mint(l, user, market, outcomes, quantity).value;
      assert forall h | h in l.positions :: PositionOk(cat, l.users, h, l.positions[h]);
      MintKeepsShares(cat, l, user, market, outcomes, quantity, lost);
      MintKeepsTables(cat, l, user, market, outcomes, quantity);
      TotalCashUpdate(l.users, user, l'.users[user]);
    }
  }

  /** All that a mint does and answers: the user pays one unit for each set, has exactly the
      minted quantity of every outcome of the market at an average price of one, and nothing
      else changes but for the new row of the mint. */
  lemma MintEffect(x: Exchange, user: UserId, market: MarketId, outcomes: seq<OutcomeId>, quantity: real)
    ensures user !in x.ledger.users ==>
      MintTokens(x, user, market, outcomes, quantity) == Reply(x, Err(UserNotFound))
    ensures user in x.ledger.users && x.ledger.users[user].balance < quantity ==>
      MintTokens(x, user, market, outcomes, quantity) == Reply(x, Err(InsufficientBalance))
    ensures user in x.ledger.users && x.ledger.users[user].balance >= quantity ==>
      var reply := MintTokens(x, user, market, outcomes, quantity);
      var l, l', a := x.ledger, reply.state.ledger, x.ledger.users[user];
      && reply.result == Ok(()) && reply.state.books == x.books
      && l'.users == l.users[user := Account(a.balance - quantity, a.locked)]
      && l'.mints == l.mints + [MintTx(user, market, quantity, quantity)]
      && l'.orders == l.orders && l'.trades == l.trades
      && (forall h :: h in l'.positions <==> h in l.positions || (h.user == user && h.outcome in outcomes))
      && (forall h | h in l'.positions ::
            l'.positions[h] == if h.user == user && h.outcome in outcomes then Position(market, quantity, 1.0)
                               else l.positions[h])
  {
    MintPositionsAt(x.ledger.positions, user, market, outcomes, quantity);
  }

  /** Minting adds exactly the minted quantity to an outcome's shares if and only if the
      user held none of it before. */
  lemma MintAddsSharesIff(cat: Catalog, x: Exchange, user: UserId, market: MarketId, outcomes: seq<OutcomeId>,
      quantity: real, o: OutcomeId)
    requires OutcomesOf(cat, market, outcomes) && o in outcomes
    requires MintTokens(x, user, market, outcomes, quantity).result.Ok?
    ensures var x' := MintTokens(x, user, market, outcomes, quantity).state;
      Held(x'.ledger.positions, o) == Held(x.ledger.positions, o) + quantity
      <==> SharesAt(x.ledger.positions, Holding(user, o)) == 0.0
  {
    MintedHeld(x.ledger.positions, user, market, outcomes, quantity, o);
  }
}
