/** Whether a market pays out more than its minting took in, over whole runs. */
module Vault {
  import opened Domain
  import opened Ledger
  import opened Exchange
  import opened Sums
  import opened Funds
  import opened Cash
  import opened MarketCancellation
  import opened Payments
  import opened World
  import opened Closing
  import opened Solvency
  import L = Lifecycle

  /** Market m has paid out no more than its minting collected. */
  predicate Solvent(w: World, m: MarketId) {
    PaidFor(w.audit, m) <= CollectedFor(w.x.ledger.mints, m)
  }

  /** A step that, if it cancels market m, finds its refunds covered. */
  ghost predicate CoveredStep(w: World, s: Step, m: MarketId) {
    s.CancelMarketStep? && s.market == m && IsClosed(w, m) ==> RefundsCovered(w.x.ledger, m)
  }

  ghost predicate CoveredRun(cat: Catalog, div: Division, w: World, steps: seq<Step>, m: MarketId)
    decreases |steps|
  {
    steps != [] ==>
      CoveredStep(w, steps[0], m) && CoveredRun(cat, div, Next(cat, div, w, steps[0]), steps[1..], m)
  }

  // ---- minting only adds ----

  lemma {:induction false} CollectedForGrows(mints: seq<MintTx>, after: seq<MintTx>, m: MarketId)
    requires mints <= after && forall t | t in after :: t.cost >= 0.0
    ensures CollectedFor(mints, m) <= CollectedFor(after, m)
    decreases |after|
  {
    if |mints| == |after| {
      assert mints == after;
    } else {
      var before := after[..|after| - 1];
      assert after[|after| - 1] in after;
      assert mints <= before;
      CollectedForGrows(mints, before, m);
    }
  }

  lemma CancelAllKeepsMints(cat: Catalog, w: World, market: MarketId, orders: seq<Row>, opening: real)
    requires WorldOk(cat, w, opening) && ListsOpen(w.x.ledger.orders, market, orders)
    ensures CancelAll(w.x, orders).state.ledger.mints == w.x.ledger.mints
  {
    CancelAllWorks(cat, w.x, market, orders, w.audit.lost);
  }

  lemma TradingKeepsMints(cat: Catalog, div: Division, w: World, s: Step)
    requires s.PlaceStep? || s.CancelStep?
    ensures Next(cat, div, w, s).x.ledger.mints == w.x.ledger.mints
  {
    if s.PlaceStep? {
      PlaceOrderConservesCash(div, w.x, s.order);
    } else {
      CancelOrderConservesCash(w.x, s.user, s.id);
    }
  }

  lemma SettleKeepsMints(w: World, market: MarketId, closed: L.Market, winners: set<OutcomeId>, orders: seq<Row>,
      ps: seq<Payment>)
    requires CancelAll(w.x, orders).state.ledger.mints == w.x.ledger.mints
    ensures Settle(w, market, closed, winners, orders, ps).0.x.ledger.mints == w.x.ledger.mints
  {
  }

  lemma SettlementKeepsMints(cat: Catalog, div: Division, w: World, s: Step)
    requires s.ResolveStep? || s.CancelMarketStep?
    requires CancelAll(w.x, s.orders).state.ledger.mints == w.x.ledger.mints
    ensures Next(cat, div, w, s).x.ledger.mints == w.x.ledger.mints
  {
    if s.ResolveStep? {
      SettleKeepsMints(w, s.market, L.Market(L.Resolved, Some(s.winner)), w.winners + {s.winner}, s.orders,
                       Payouts(s.listing, s.winner));
    } else if s.market in w.markets {
      SettleKeepsMints(w, s.market, w.markets[s.market].(status := L.Cancelled), w.winners, s.orders,
                       Refunds(s.listing));
    }
  }

  lemma TablesKeepMints(cat: Catalog, div: Division, w: World, s: Step)
    requires !s.PlaceStep? && !s.CancelStep? && !s.CancelAllStep? && !s.ResolveStep? && !s.CancelMarketStep?
    ensures w.x.ledger.mints <= Next(cat, div, w, s).x.ledger.mints
  {
  }

  /** Minting adds a row; nothing takes one away. */
  lemma StepKeepsMints(cat: Catalog, div: Division, w: World, s: Step, opening: real)
    requires WorldOk(cat, w, opening) && Possible(cat, w, s)
    ensures w.x.ledger.mints <= Next(cat, div, w, s).x.ledger.mints
  {
    if s.PlaceStep? || s.CancelStep? {
      TradingKeepsMints(cat, div, w, s);
    } else if s.CancelAllStep? {
      CancelAllKeepsMints(cat, w, s.market, s.orders, opening);
    } else if s.ResolveStep? || s.CancelMarketStep? {
      CancelAllKeepsMints(cat, w, s.market, s.orders, opening);
      SettlementKeepsMints(cat, div, w, s);
    } else {
      TablesKeepMints(cat, div, w, s);
    }
  }

  /** The step goes on to pay for market m. */
  predicate PaysOut(cat: Catalog, w: World, s: Step, m: MarketId) {
    && (s.ResolveStep? || s.CancelMarketStep?) && s.market == m && IsClosed(w, m)
    && (s.ResolveStep? ==> OutcomeIn(cat, m, s.winner))
  }

  lemma OthersPayNothing(cat: Catalog, div: Division, w: World, s: Step, m: MarketId)
    requires !PaysOut(cat, w, s, m)
    ensures PaidFor(Next(cat, div, w, s).audit, m) == PaidFor(w.audit, m)
  {
    if !Settles(s) { OnlySettlingPays(cat, div, w, s); }
  }

  lemma PayingKeepsSolvent(cat: Catalog, div: Division, w: World, s: Step, m: MarketId, opening: real)
    requires WorldOk(cat, w, opening) && Possible(cat, w, s) && CoveredStep(w, s, m) && PaysOut(cat, w, s, m)
    ensures Solvent(Next(cat, div, w, s), m)
  {
    if s.ResolveStep? {
      ResolutionPaysExactly(cat, w, m, s.winner, s.orders, s.listing, opening);
    } else {
      CancellationRefundsExactly(cat, w, m, s.orders, s.listing, opening);
    }
  }

  lemma StepKeepsSolvent(cat: Catalog, div: Division, w: World, s: Step, m: MarketId, opening: real)
    requires WorldOk(cat, w, opening) && KeepsBounds(div) && Possible(cat, w, s)
    requires Solvent(w, m) && CoveredStep(w, s, m)
    ensures Solvent(Next(cat, div, w, s), m)
  {
    if PaysOut(cat, w, s, m) {
      PayingKeepsSolvent(cat, div, w, s, m, opening);
    } else {
      var w' := Next(cat, div, w, s);
      StepKeepsWorld(cat, div, w, s, opening);
      StepKeepsMints(cat, div, w, s, opening);
      CollectedForGrows(w.x.ledger.mints, w'.x.ledger.mints, m);
      OthersPayNothing(cat, div, w, s, m);
    }
  }

  /** A market that is never cancelled with its refunds uncovered never pays out more than
      its minting collected. */
  lemma {:induction false} RunKeepsSolvent(cat: Catalog, div: Division, w: World, steps: seq<Step>, m: MarketId,
      opening: real)
    requires WorldOk(cat, w, opening) && KeepsBounds(div) && PossibleRun(cat, div, w, steps)
    requires Solvent(w, m) && CoveredRun(cat, div, w, steps, m)
    ensures Solvent(Run(cat, div, w, steps), m)
    decreases |steps|
  {
    if steps != [] {
      var w1 := Next(cat, div, w, steps[0]);
      StepKeepsSolvent(cat, div, w, steps[0], m, opening);
      StepKeepsWorld(cat, div, w, steps[0], opening);
      RunKeepsSolvent(cat, div, w1, steps[1..], m, opening);
    }
  }

  // ---- all markets together ----

  /** What minting collected for each of some markets. */
  ghost function Vaults(mints: seq<MintTx>, markets: set<MarketId>): map<MarketId, real> {
    map m | m in markets :: CollectedFor(mints, m)
  }

  lemma {:induction false} VaultsWithinCollected(mints: seq<MintTx>, markets: set<MarketId>)
    requires forall t | t in mints :: t.cost >= 0.0
    ensures Sum(Vaults(mints, markets)) <= Collected(mints)
  {
    if mints == [] {
      SumZero(Vaults(mints, markets));
    } else {
      var before, t := mints[..|mints| - 1], mints[|mints| - 1];
      assert t in mints;
      VaultsWithinCollected(before, markets);
      var v := Vaults(before, markets);
      if t.market in markets {
        SumUpdate(v, t.market, v[t.market] + t.cost);
        assert Vaults(mints, markets) == v[t.market := v[t.market] + t.cost];
      } else {
        assert Vaults(mints, markets) == v;
      }
    }
  }

  lemma {:induction false} SumMonotone<K(!new)>(a: map<K, real>, b: map<K, real>)
    requires a.Keys == b.Keys && forall k | k in a :: a[k] <= b[k]
    ensures Sum(a) <= Sum(b)
    decreases a.Keys
  {
    if a.Keys != {} {
      var k := SomeKey(a);
      SumTakeOut(b, k);
      SumMonotone(a - {k}, b - {k});
    }
  }

  /** No market is cancelled with its refunds uncovered. */
  ghost predicate AllCovered(cat: Catalog, div: Division, w: World, steps: seq<Step>) {
    forall m :: CoveredRun(cat, div, w, steps, m)
  }

  lemma {:induction false} WithoutCancellationsCovered(cat: Catalog, div: Division, w: World, steps: seq<Step>,
      m: MarketId)
    requires forall s | s in steps :: !s.CancelMarketStep?
    ensures CoveredRun(cat, div, w, steps, m)
    decreases |steps|
  {
    if steps != [] {
      assert steps[0] in steps;
      WithoutCancellationsCovered(cat, div, Next(cat, div, w, steps[0]), steps[1..], m);
    }
  }

  /** In every run in which no market is cancelled with its refunds uncovered, in particular
      in every run without a market's cancellation, the platform as a whole pays out no more
      than minting collected. */
  lemma VaultHolds(cat: Catalog, div: Division, w: World, steps: seq<Step>)
    requires Initial(w) && KeepsBounds(div) && PossibleRun(cat, div, w, steps)
    requires AllCovered(cat, div, w, steps) || forall s | s in steps :: !s.CancelMarketStep?
    ensures var w' := Run(cat, div, w, steps);
      Disbursed(w'.audit) <= Collected(w'.x.ledger.mints)
  {
    var opening := TotalCash(w.x.ledger.users);
    InitialIsOk(cat, w);
    RunKeepsWorld(cat, div, w, steps, opening);
    var w' := Run(cat, div, w, steps);
    var paid, mints := w'.audit.paid, w'.x.ledger.mints;
    forall m | m in paid ensures paid[m] <= Vaults(mints, paid.Keys)[m] {
      if !AllCovered(cat, div, w, steps) { WithoutCancellationsCovered(cat, div, w, steps, m); }
      RunKeepsSolvent(cat, div, w, steps, m, opening);
    }
    SumMonotone(paid, Vaults(mints, paid.Keys));
    VaultsWithinCollected(mints, paid.Keys);
  }
}
