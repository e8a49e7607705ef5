/** How a market comes to its end: paid out or refunded by the step that ends it, or never. */
module Closing {
  import opened Domain
  import opened Ledger
  import opened Funds
  import opened Payments
  import opened World
  import L = Lifecycle

  /** Market m has reached a terminal status. */
  predicate Ended(w: World, m: MarketId) {
    m in w.markets && L.Terminal(w.markets[m].status)
  }

  /** An ended market can be neither resolved nor cancelled, in any way. */
  lemma EndedMarketIsRefused(cat: Catalog, w: World, m: MarketId, status: L.MarketStatus, winner: OutcomeId,
      orders: seq<Row>, listing: seq<Listed>)
    requires Ended(w, m)
    ensures UpdateStatus(w, m, status) == (w, Err(BadRequest))
    ensures MarkResolved(cat, w, m, winner) == (w, Err(BadRequest))
    ensures ResolveMarket(cat, w, m, winner, orders, listing) == (w, Err(BadRequest))
    ensures CancelMarket(w, m, orders, listing) == (w, Err(BadRequest))
  {
    L.TransitionsAdvance(w.markets[m].status, status);
  }

  /** Nothing more happens to a market between two moments. */
  predicate SameEnd(w: World, w': World, m: MarketId) {
    && m in w.markets && m in w'.markets && w'.markets[m] == w.markets[m]
    && TimesSettled(w'.audit, m) == TimesSettled(w.audit, m)
    && PaidFor(w'.audit, m) == PaidFor(w.audit, m)
  }

  lemma StepKeepsEnd(cat: Catalog, div: Division, w: World, s: Step, m: MarketId)
    requires Ended(w, m)
    ensures SameEnd(w, Next(cat, div, w, s), m)
  {
    if s.UpdateStatusStep? { L.TransitionsAdvance(w.markets[m].status, s.status); }
  }

  /** Once a market has ended, no continuation changes its status or its winner, settles it
      or pays anything for it: a market that ended unpaid is never paid. */
  lemma {:induction false} EndIsFinal(cat: Catalog, div: Division, w: World, steps: seq<Step>, m: MarketId)
    requires Ended(w, m)
    ensures SameEnd(w, Run(cat, div, w, steps), m)
    decreases |steps|
  {
    if steps != [] {
      StepKeepsEnd(cat, div, w, steps[0], m);
      EndIsFinal(cat, div, Next(cat, div, w, steps[0]), steps[1..], m);
    }
  }

  predicate Settles(s: Step) { s.ResolveStep? || s.CancelMarketStep? }

  lemma OnlySettlingPays(cat: Catalog, div: Division, w: World, s: Step)
    requires !Settles(s)
    ensures var audit := Next(cat, div, w, s).audit;
      audit.settled == w.audit.settled && audit.paid == w.audit.paid
  {
  }

  /** A settlement that changes markets at all goes through, and is counted. */
  lemma SettlingCounts(w: World, market: MarketId, closed: L.Market, winners: set<OutcomeId>, orders: seq<Row>,
      ps: seq<Payment>, m: MarketId)
    requires !Ended(w, m) && Ended(Settle(w, market, closed, winners, orders, ps).0, m)
    ensures TimesSettled(Settle(w, market, closed, winners, orders, ps).0.audit, m) == TimesSettled(w.audit, m) + 1
  {
  }

  /** The step that ends a market settles it if and only if it is a resolution or a
      cancellation by the settlement service; the market service's own operations end
      it with nobody paid. */
  lemma EndingSettlesIff(cat: Catalog, div: Division, w: World, s: Step, m: MarketId, opening: real)
    requires WorldOk(cat, w, opening) && !Ended(w, m) && Ended(Next(cat, div, w, s), m)
    ensures TimesSettled(Next(cat, div, w, s).audit, m) == if Settles(s) then 1 else 0
    ensures !Settles(s) ==> PaidFor(Next(cat, div, w, s).audit, m) == 0.0
  {
    assert TimesSettled(w.audit, m) == 0;
    if s.ResolveStep? {
      SettlingCounts(w, s.market, L.Market(L.Resolved, Some(s.winner)), w.winners + {s.winner}, s.orders,
                     Payouts(s.listing, s.winner), m);
    } else if s.CancelMarketStep? {
      SettlingCounts(w, s.market, w.markets[s.market].(status := L.Cancelled), w.winners, s.orders,
                     Refunds(s.listing), m);
    } else {
      OnlySettlingPays(cat, div, w, s);
    }
  }

  /** Marking a closed market as resolved ends it, and its winners are never paid. */
  lemma MarkedMarketIsNeverPaid(cat: Catalog, div: Division, w: World, m: MarketId, winner: OutcomeId,
      steps: seq<Step>, opening: real)
    requires WorldOk(cat, w, opening) && IsClosed(w, m) && OutcomeIn(cat, m, winner)
    ensures var w' := Run(cat, div, Next(cat, div, w, MarkResolvedStep(m, winner)), steps);
      && m in w'.markets && w'.markets[m] == L.Market(L.Resolved, Some(winner))
      && TimesSettled(w'.audit, m) == 0 && PaidFor(w'.audit, m) == 0.0
  {
    var s := MarkResolvedStep(m, winner);
    EndingSettlesIff(cat, div, w, s, m, opening);
    EndIsFinal(cat, div, Next(cat, div, w, s), steps, m);
  }
}
