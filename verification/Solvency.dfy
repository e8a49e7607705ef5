/** What resolution and cancellation of a market pay, and what whole runs guarantee. */
module Solvency {
  import opened Domain
  import opened Ledger
  import opened Exchange
  import opened Sums
  import opened Funds
  import opened Agreement
  import opened MarketCancellation
  import opened Minting
  import opened Payments
  import opened Refunding
  import opened World
  import L = Lifecycle

  /** What users paid to mint a market's shares. */
  function CollectedFor(mints: seq<MintTx>, market: MarketId): real {
    if mints == [] then 0.0
    else CollectedFor(mints[..|mints| - 1], market)
         + (if mints[|mints| - 1].market == market then mints[|mints| - 1].cost else 0.0)
  }

  lemma {:induction false} MintCostIsQuantity(mints: seq<MintTx>, market: MarketId)
    requires forall m | m in mints :: m.cost == m.quantity
    ensures CollectedFor(mints, market) == Minted(mints, market)
  {
    if mints != [] {
      assert mints[|mints| - 1] in mints;
      MintCostIsQuantity(mints[..|mints| - 1], market);
    }
  }

  /** Once a market's orders are cancelled, none of its shares is in escrow. */
  lemma NothingInEscrow(cat: Catalog, l: Ledger, market: MarketId, outcome: OutcomeId)
    requires OrdersOk(cat, l, l.orders) && OutcomeIn(cat, market, outcome)
    requires forall id | id in l.orders && l.orders[id].Live() :: l.orders[id].market != market
    ensures Escrowed(l.orders, outcome) == 0.0
  {
    forall id | id in l.orders ensures EscrowWeight(l.orders[id], outcome) == 0.0 {
      assert OrderOk(cat, l, l.orders[id]);
    }
    SumZero(map id | id in l.orders :: EscrowWeight(l.orders[id], outcome));
  }

  /** The winning shares held when a market is resolved are what was minted less what was
      lost. */
  lemma HeldIsMintedLessLost(cat: Catalog, x: Exchange, market: MarketId, outcome: OutcomeId,
      lost: map<OutcomeId, real>)
    requires Inv(cat, x, lost) && OutcomeIn(cat, market, outcome)
    requires forall id | id in x.ledger.orders && x.ledger.orders[id].Live() :: x.ledger.orders[id].market != market
    ensures LostOf(lost, outcome) >= 0.0
    ensures Held(x.ledger.positions, outcome) == Minted(x.ledger.mints, market) - LostOf(lost, outcome)
  {
    NothingInEscrow(cat, x.ledger, market, outcome);
    assert Held(x.ledger.positions, outcome) + Escrowed(x.ledger.orders, outcome) + LostOf(lost, outcome)
        == Minted(x.ledger.mints, cat[outcome]);
  }

  lemma ListingCovers(cat: Catalog, l: Ledger, market: MarketId, outcome: OutcomeId, listing: seq<Listed>)
    requires PositionsOk(cat, l) && OutcomeIn(cat, market, outcome)
    requires ListsPositions(l.positions, market, listing)
    ensures Covers(l.positions, outcome, listing)
  {
    forall h | h in l.positions ensures l.positions[h].quantity >= 0.0 {
      assert PositionOk(cat, l.users, h, l.positions[h]);
    }
    forall h | h in l.positions && h.outcome == outcome ensures Listed(h, l.positions[h]) in listing {
      assert PositionOk(cat, l.users, h, l.positions[h]);
      assert Listed(h, l.positions[h]).position.market == market;
    }
  }

  /** What a user holds of an outcome. */
  function SharesOf(l: Ledger, user: UserId, outcome: OutcomeId): real {
    SharesAt(l.positions, Holding(user, outcome))
  }

  /** Who is paid, and how much, once a market's orders are cancelled. */
  ghost predicate Credited(before: map<UserId, Account>, after: map<UserId, Account>, ps: seq<Payment>) {
    forall u | u in before ::
      u in after && after[u] == before[u].(balance := before[u].balance + PaidTo(ps, u))
  }

  /** Tables and books are the same but for the accounts of the same users. */
  predicate OnlyUsers(x: Exchange, x': Exchange) {
    x'.(ledger := x'.ledger.(users := x.ledger.users)) == x && x'.ledger.users.Keys == x.ledger.users.Keys
  }

  /** What settling a closed market does, whatever is paid: it goes through, every user gets
      its payments on top of what cancel-all left it, and the auditor notes their sum. */
  lemma SettlePays(cat: Catalog, w: World, market: MarketId, closed: L.Market, winners: set<OutcomeId>,
      orders: seq<Row>, ps: seq<Payment>, opening: real)
    requires WorldOk(cat, w, opening) && ListsOpen(w.x.ledger.orders, market, orders)
    requires IsClosed(w, market)
    requires forall p | p in ps :: p.user in w.x.ledger.users && p.amount >= 0.0
    ensures var (w', result) := Settle(w, market, closed, winners, orders, ps);
      && result.Ok?
      && Credited(CancelAll(w.x, orders).state.ledger.users, w'.x.ledger.users, ps)
      && OnlyUsers(CancelAll(w.x, orders).state, w'.x)
      && w'.x.ledger.mints == w.x.ledger.mints && w'.markets == w.markets[market := closed] && w'.winners == winners
      && Disbursed(w'.audit) == Disbursed(w.audit) + Total(ps)
      && PaidFor(w'.audit, market) == Total(ps)
  {
    CancelAllWorks(cat, w.x, market, orders, w.audit.lost);
    PayAllIsExact(CancelAll(w.x, orders).state.ledger.users, ps);
    SettleGoesThrough(w, market, closed, winners, orders, ps);
    assert TimesSettled(w.audit, market) == 0;
    NotedPaymentAdds(w.audit, market, Total(ps));
  }

  /** The winning shares are those minted for the market less the lost ones. */
  lemma PayoutsAreMintedLessLost(cat: Catalog, x: Exchange, market: MarketId, winner: OutcomeId, orders: seq<Row>,
      listing: seq<Listed>, lost: map<OutcomeId, real>)
    requires Inv(cat, x, lost) && ListsOpen(x.ledger.orders, market, orders)
    requires ListsPositions(CancelAll(x, orders).state.ledger.positions, market, listing)
    requires OutcomeIn(cat, market, winner) && forall m | m in x.ledger.mints :: m.cost == m.quantity
    ensures LostOf(lost, winner) >= 0.0
    ensures Total(Payouts(listing, winner)) == Minted(x.ledger.mints, market) - LostOf(lost, winner)
    ensures Minted(x.ledger.mints, market) == CollectedFor(x.ledger.mints, market)
  {
    CancelAllWorks(cat, x, market, orders, lost);
    CancelAllEmptiesMarket(cat, x, market, orders, lost);
    var x1 := CancelAll(x, orders).state;
    ListingCovers(cat, x1.ledger, market, winner, listing);
    PayoutTotal(x1.ledger.positions, winner, listing);
    HeldIsMintedLessLost(cat, x1, market, winner, lost);
    MintCostIsQuantity(x.ledger.mints, market);
  }

  /** Every user is paid the winning shares it holds once its orders are cancelled. */
  lemma PayoutsAreWinnings(cat: Catalog, x: Exchange, market: MarketId, winner: OutcomeId, orders: seq<Row>,
      listing: seq<Listed>, lost: map<OutcomeId, real>)
    requires Inv(cat, x, lost) && ListsOpen(x.ledger.orders, market, orders)
    requires ListsPositions(CancelAll(x, orders).state.ledger.positions, market, listing)
    requires OutcomeIn(cat, market, winner)
    ensures forall u ::
      PaidTo(Payouts(listing, winner), u) == SharesOf(CancelAll(x, orders).state.ledger, u, winner)
  {
    CancelAllWorks(cat, x, market, orders, lost);
    var l1 := CancelAll(x, orders).state.ledger;
    ListingCovers(cat, l1, market, winner, listing);
    forall u ensures PaidTo(Payouts(listing, winner), u) == SharesOf(l1, u, winner) {
      PayoutsArePaid(listing, winner, u);
      WinnersAreOwed(l1.positions, winner, listing, u);
    }
  }

  /** Resolving a closed market always goes through. It pays every user exactly its winning
      shares; in total that is the market's minted shares less the lost ones, so never more
      than minting collected; and the market is resolved for good. */
  lemma ResolutionPaysExactly(cat: Catalog, w: World, market: MarketId, winner: OutcomeId, orders: seq<Row>,
      listing: seq<Listed>, opening: real)
    requires WorldOk(cat, w, opening) && Possible(cat, w, ResolveStep(market, winner, orders, listing))
    requires IsClosed(w, market) && OutcomeIn(cat, market, winner)
    ensures var (w', result) := ResolveMarket(cat, w, market, winner, orders, listing);
      var l1 := CancelAll(w.x, orders).state.ledger; var mints := w.x.ledger.mints;
      && result.Ok?
      && (forall u | u in l1.users ::
            u in w'.x.ledger.users
            && w'.x.ledger.users[u] == l1.users[u].(balance := l1.users[u].balance + SharesOf(l1, u, winner)))
      && Disbursed(w'.audit) - Disbursed(w.audit) == PaidFor(w'.audit, market)
      && PaidFor(w'.audit, market)
           == Minted(mints, market) - LostOf(w.audit.lost, winner) <= CollectedFor(mints, market)
      && OnlyUsers(CancelAll(w.x, orders).state, w'.x) && w'.x.ledger.mints == mints
      && w'.markets == w.markets[market := L.Market(L.Resolved, Some(winner))]
      && w'.winners == w.winners + {winner}
  {
    ListedUsersKnown(cat, w, market, orders, listing);
    PayoutsToHolders(listing, winner, w.x.ledger.users.Keys);
    SettlePays(cat, w, market, L.Market(L.Resolved, Some(winner)), w.winners + {winner}, orders,
               Payouts(listing, winner), opening);
    PayoutsAreMintedLessLost(cat, w.x, market, winner, orders, listing, w.audit.lost);
    PayoutsAreWinnings(cat, w.x, market, winner, orders, listing, w.audit.lost);
  }

  /** The refunds a market owes are covered by what its minting collected. */
  ghost predicate RefundsCovered(l: Ledger, market: MarketId) {
    RefundsOwed(l, market) <= CollectedFor(l.mints, market)
  }

  /** Cancelling a closed market always goes through and refunds every user the sum of
      quantity times average price over all its positions in the market. In total that is
      what the tables owed before the call, so it stays within what minting collected if and
      only if that was covered. */
  lemma CancellationRefundsExactly(cat: Catalog, w: World, market: MarketId, orders: seq<Row>, listing: seq<Listed>,
      opening: real)
    requires WorldOk(cat, w, opening) && Possible(cat, w, CancelMarketStep(market, orders, listing))
    requires IsClosed(w, market)
    ensures var (w', result) := CancelMarket(w, market, orders, listing);
      var l1 := CancelAll(w.x, orders).state.ledger; var mints := w.x.ledger.mints;
      && result.Ok?
      && (forall u | u in l1.users ::
            u in w'.x.ledger.users
            && w'.x.ledger.users[u] == l1.users[u].(balance := l1.users[u].balance + RefundDue(listing, u)))
      && Disbursed(w'.audit) - Disbursed(w.audit) == PaidFor(w'.audit, market) == RefundsOwed(w.x.ledger, market)
      && (PaidFor(w'.audit, market) <= CollectedFor(mints, market) <==> RefundsCovered(w.x.ledger, market))
      && OnlyUsers(CancelAll(w.x, orders).state, w'.x) && w'.x.ledger.mints == mints
      && w'.markets == w.markets[market := L.Market(L.Cancelled, w.markets[market].resolvedOutcome)]
      && w'.winners == w.winners
  {
    CancelAllWorks(cat, w.x, market, orders, w.audit.lost);
    var l1 := CancelAll(w.x, orders).state.ledger;
    ListedUsersKnown(cat, w, market, orders, listing);
    RefundsToHolders(listing, w.x.ledger.users.Keys);
    SettlePays(cat, w, market, w.markets[market].(status := L.Cancelled), w.winners, orders, Refunds(listing), opening);
    RefundsAreOwed(cat, w.x, market, orders, listing, w.audit.lost);
    forall l | l in listing ensures l.position.avgPrice >= 0.0 {
      assert PositionOk(cat, l1.users, l.holding, l1.positions[l.holding]);
    }
    forall u ensures PaidTo(Refunds(listing), u) == RefundDue(listing, u) { RefundsArePaid(listing, u); }
  }

  predicate OneMarket(cat: Catalog, o: OutcomeId, p: OutcomeId) {
    o in cat && p in cat && cat[o] == cat[p]
  }

  /** From any platform before its first order, after any run: */
  lemma AnyRunIsSound(cat: Catalog, div: Division, w: World, steps: seq<Step>)
    requires Initial(w) && KeepsBounds(div) && PossibleRun(cat, div, w, steps)
    ensures var w' := Run(cat, div, w, steps); var l := w'.x.ledger;
      // the live rows of the order table are exactly the orders resting in the books
      && Agree(l.orders, w'.x.books)
      // no balance is negative, and locked balances are what open buys need
      && AccountsOk(l.users, l.orders)
      // average prices stay in range
      && (forall h | h in l.positions :: MIN_PRICE <= l.positions[h].avgPrice <= 1.0)
      // shares held, escrowed and lost are the shares minted
      && SharesOk(cat, l, l.orders, w'.audit.lost)
      // all cash is accounted for
      && TotalCash(l.users)
           == TotalCash(w.x.ledger.users) - Collected(l.mints) + w'.audit.deposited + Disbursed(w'.audit)
      // no market was settled twice, and none has two winners
      && (forall m :: TimesSettled(w'.audit, m) <= 1)
      && (forall o, p | o in w'.winners && p in w'.winners :: OneMarket(cat, o, p) ==> o == p)
  {
    InitialIsOk(cat, w);
    RunKeepsWorld(cat, div, w, steps, TotalCash(w.x.ledger.users));
    var l := Run(cat, div, w, steps).x.ledger;
    forall h | h in l.positions ensures MIN_PRICE <= l.positions[h].avgPrice <= 1.0 {
      assert PositionOk(cat, l.users, h, l.positions[h]);
    }
  }
}
