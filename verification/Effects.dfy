/** What the operations on users and markets do and answer, in full: the row each one writes,
    that it writes nothing else, and what each refusal says. */
module Effects {
  import opened Domain
  import opened Ledger
  import opened Funds
  import opened Payments
  import opened World
  import L = Lifecycle

  /** The platforms differ in one market's row at most. */
  predicate OnlyMarket(w: World, w': World, m: MarketId, row: L.Market) {
    && w'.x == w.x && w'.audit == w.audit
    && w'.markets.Keys == w.markets.Keys + {m} && w'.markets[m] == row
    && forall k | k in w.markets && k != m :: w'.markets[k] == w.markets[k]
  }

  /** The allowed transitions, one by one. */
  predicate Allowed(from: L.MarketStatus, to: L.MarketStatus) {
    || (from == L.Draft && to == L.Open)
    || (from == L.Open && to == L.Closed)
    || (from == L.Closed && (to == L.Resolved || to == L.Cancelled))
  }

  /** A new user has one thousand in cash and nothing locked; nobody else is touched. */
  lemma RegisterEffect(w: World, user: UserId)
    ensures user in w.x.ledger.users ==> Register(w, user) == (w, Err(UserExists))
    ensures user !in w.x.ledger.users ==>
      var (w', result) := Register(w, user); var l, l' := w.x.ledger, w'.x.ledger;
      && result == Ok(()) && l'.users == l.users[user := Account(1000.0, 0.0)]
      && w'.x.(ledger := l'.(users := l.users)) == w.x
      && w'.markets == w.markets && w'.winners == w.winners
      && w'.audit == w.audit.(deposited := w.audit.deposited + 1000.0)
  {
  }

  /** A new market is a draft without an outcome. */
  lemma CreateMarketEffect(w: World, m: MarketId)
    ensures m in w.markets ==> CreateMarket(w, m) == (w, Err(MarketExists))
    ensures m !in w.markets ==>
      var (w', result) := CreateMarket(w, m);
      result == Ok(()) && OnlyMarket(w, w', m, L.Market(L.Draft, None)) && w'.winners == w.winners
  {
  }

  /** A change of status that is allowed gives the market exactly that status and keeps its
      outcome; one that is not is refused, and changes nothing. */
  lemma UpdateStatusEffect(w: World, m: MarketId, status: L.MarketStatus)
    ensures var (w', result) := UpdateStatus(w, m, status);
      if m !in w.markets then result == Err(MarketNotFound) && w' == w
      else if !Allowed(w.markets[m].status, status) then result == Err(BadRequest) && w' == w
      else
        && result == Ok(()) && w'.winners == w.winners
        && OnlyMarket(w, w', m, L.Market(status, w.markets[m].resolvedOutcome))
  {
    if m in w.markets {
      var from := w.markets[m].status;
      L.TransitionsAdvance(from, status);
      assert Allowed(from, status) <==> L.Age(status) == L.Age(from) + 1;
    }
  }

  /** Marking a closed market resolves it to the given outcome, if it is one of its own. */
  lemma MarkResolvedEffect(cat: Catalog, w: World, m: MarketId, winner: OutcomeId)
    ensures var (w', result) := MarkResolved(cat, w, m, winner);
      if m !in w.markets then result == Err(MarketNotFound) && w' == w
      else if w.markets[m].status != L.Closed || winner !in cat || cat[winner] != m then
        result == Err(BadRequest) && w' == w
      else
        && result == Ok(()) && w'.winners == w.winners + {winner}
        && OnlyMarket(w, w', m, L.Market(L.Resolved, Some(winner)))
  {
  }

  /** Settling a market that is not closed, or for an outcome not its own, is refused. */
  lemma SettlementRefused(cat: Catalog, w: World, m: MarketId, winner: OutcomeId, orders: seq<Row>,
      listing: seq<Listed>)
    ensures m !in w.markets ==>
      && ResolveMarket(cat, w, m, winner, orders, listing) == (w, Err(MarketNotFound))
      && CancelMarket(w, m, orders, listing) == (w, Err(MarketNotFound))
    ensures m in w.markets && w.markets[m].status != L.Closed ==>
      && ResolveMarket(cat, w, m, winner, orders, listing) == (w, Err(BadRequest))
      && CancelMarket(w, m, orders, listing) == (w, Err(BadRequest))
    ensures m in w.markets && (winner !in cat || cat[winner] != m) ==>
      ResolveMarket(cat, w, m, winner, orders, listing) == (w, Err(BadRequest))
  {
  }

  // ---- the life of a market ----

  function LifeOf(m: MarketId): seq<Step> {
    [CreateMarketStep(m), UpdateStatusStep(m, L.Open), UpdateStatusStep(m, L.Closed)]
  }

  lemma RunOneMore(cat: Catalog, div: Division, w: World, s: Step, steps: seq<Step>)
    ensures Run(cat, div, w, [s] + steps) == Run(cat, div, Next(cat, div, w, s), steps)
    ensures PossibleRun(cat, div, w, [s] + steps)
       <==> Possible(cat, w, s) && PossibleRun(cat, div, Next(cat, div, w, s), steps)
  {
    assert ([s] + steps)[1..] == steps;
  }

  /** Every market not yet there can be created, opened and closed, and is a draft, open and
      closed in turn; nothing else of the platform changes. */
  lemma MarketsReachClosed(cat: Catalog, div: Division, w: World, m: MarketId)
    requires m !in w.markets
    ensures PossibleRun(cat, div, w, LifeOf(m))
    ensures OnlyMarket(w, Run(cat, div, w, LifeOf(m)[..1]), m, L.Market(L.Draft, None))
    ensures OnlyMarket(w, Run(cat, div, w, LifeOf(m)[..2]), m, L.Market(L.Open, None))
    ensures OnlyMarket(w, Run(cat, div, w, LifeOf(m)[..3]), m, L.Market(L.Closed, None))
  {
    var a, b, c := CreateMarketStep(m), UpdateStatusStep(m, L.Open), UpdateStatusStep(m, L.Closed);
    var w1 := Next(cat, div, w, a);
    var w2 := Next(cat, div, w1, b);
    CreateMarketEffect(w, m);
    UpdateStatusEffect(w1, m, L.Open);
    UpdateStatusEffect(w2, m, L.Closed);
    RunOneMore(cat, div, w2, c, []);
    RunOneMore(cat, div, w1, b, [c]);
    RunOneMore(cat, div, w1, b, []);
    RunOneMore(cat, div, w, a, [b, c]);
    RunOneMore(cat, div, w, a, [b]);
    RunOneMore(cat, div, w, a, []);
    assert [a] + [b, c] == LifeOf(m) == LifeOf(m)[..3];
    assert [a] + [b] == LifeOf(m)[..2] && [a] + [] == LifeOf(m)[..1];
    assert [b] + [c] == [b, c] && [b] + [] == [b] && [c] + [] == [c];
  }
}
