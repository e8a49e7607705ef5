/** What the tables of orders and trades record over whole runs: every trade answered, every
    fill backed by trades, every status explained. */
module AuditTrail {
  import opened Domain
  import opened FlatBook
  import opened Matching
  import opened Ledger
  import opened Exchange
  import opened Funds
  import opened Agreement
  import opened Placement
  import opened Cancellation
  import opened MarketCancellation
  import opened Payments
  import opened Fills
  import opened World
  import L = Lifecycle

  // ---- one step ----

  /** The step withdraws the order if it still rests. */
  predicate Withdraws(cat: Catalog, w: World, s: Step, r: Row) {
    match s
    case CancelStep(user, id) => id == r.id && user == r.user
    case CancelAllStep(market, _) => market == r.market
    case ResolveStep(market, winner, _, _) =>
      market == r.market && IsClosed(w, market) && OutcomeIn(cat, market, winner)
    case CancelMarketStep(market, _, _) => market == r.market && IsClosed(w, market)
    case _ => false
  }

  /** An order's row after a step that does not place an order. */
  function RowAfter(cat: Catalog, w: World, s: Step, r: Row): Row {
    if Withdraws(cat, w, s, r) && (r.status == Open || r.status == Partial) then r.(status := Cancelled) else r
  }

  ghost predicate OnlyWithdraws(cat: Catalog, w: World, s: Step, l': Ledger) {
    && l'.trades == w.x.ledger.trades && l'.orders.Keys == w.x.ledger.orders.Keys
    && forall id | id in w.x.ledger.orders :: l'.orders[id] == RowAfter(cat, w, s, w.x.ledger.orders[id])
  }

  lemma OneWithdrawn(cat: Catalog, w: World, user: UserId, id: OrderId, l': Ledger)
    requires var orders := w.x.ledger.orders;
      && (forall i | i in orders :: orders[i].id == i) && l'.trades == w.x.ledger.trades
      && l'.orders == if id in orders && orders[id].user == user
                         && (orders[id].status == Open || orders[id].status == Partial)
                      then orders[id := orders[id].(status := Cancelled)] else orders
    ensures OnlyWithdraws(cat, w, CancelStep(user, id), l')
  {
  }

  lemma CancelStepWithdraws(cat: Catalog, div: Division, w: World, user: UserId, id: OrderId, opening: real)
    requires WorldOk(cat, w, opening)
    ensures OnlyWithdraws(cat, w, CancelStep(user, id), Next(cat, div, w, CancelStep(user, id)).x.ledger)
  {
    var orders, reply := w.x.ledger.orders, CancelOrder(w.x, user, id);
    CancelOrderEffect(cat, w.x, user, id, w.audit.lost);
    assert forall i | i in orders :: orders[i].id == i;
    OneWithdrawn(cat, w, user, id, reply.state.ledger);
  }

  lemma TableIsWithdrawn(cat: Catalog, w: World, market: MarketId, orders: seq<Row>, l': Ledger)
    requires TableCancelled(w.x.ledger.orders, l'.orders, market) && l'.trades == w.x.ledger.trades
    ensures OnlyWithdraws(cat, w, CancelAllStep(market, orders), l')
  {
  }

  lemma CancelAllWithdraws(cat: Catalog, w: World, market: MarketId, orders: seq<Row>, opening: real)
    requires WorldOk(cat, w, opening) && ListsOpen(w.x.ledger.orders, market, orders)
    ensures OnlyWithdraws(cat, w, CancelAllStep(market, orders), CancelAll(w.x, orders).state.ledger)
  {
    CancelAllWorks(cat, w.x, market, orders, w.audit.lost);
    TableIsWithdrawn(cat, w, market, orders, CancelAll(w.x, orders).state.ledger);
  }

  lemma SettleKeepsTables(w: World, market: MarketId, closed: L.Market, winners: set<OutcomeId>, orders: seq<Row>,
      ps: seq<Payment>)
    ensures var l, l' := CancelAll(w.x, orders).state.ledger,
                         Settle(w, market, closed, winners, orders, ps).0.x.ledger;
      l'.orders == l.orders && l'.trades == l.trades
  {
  }

  lemma WithdrawnAlike(cat: Catalog, w: World, s: Step, t: Step, l: Ledger, l': Ledger)
    requires OnlyWithdraws(cat, w, s, l) && l'.orders == l.orders && l'.trades == l.trades
    requires forall r :: Withdraws(cat, w, s, r) <==> Withdraws(cat, w, t, r)
    ensures OnlyWithdraws(cat, w, t, l')
  {
  }

  lemma SettlementWithdraws(cat: Catalog, div: Division, w: World, s: Step, opening: real)
    requires WorldOk(cat, w, opening) && Possible(cat, w, s) && (s.ResolveStep? || s.CancelMarketStep?)
    ensures OnlyWithdraws(cat, w, s, Next(cat, div, w, s).x.ledger)
  {
    if IsClosed(w, s.market) && (s.ResolveStep? ==> OutcomeIn(cat, s.market, s.winner)) {
      CancelAllWithdraws(cat, w, s.market, s.orders, opening);
      if s.ResolveStep? {
        SettleKeepsTables(w, s.market, L.Market(L.Resolved, Some(s.winner)), w.winners + {s.winner}, s.orders,
                          Payouts(s.listing, s.winner));
      } else {
        SettleKeepsTables(w, s.market, w.markets[s.market].(status := L.Cancelled), w.winners, s.orders,
                          Refunds(s.listing));
      }
      WithdrawnAlike(cat, w, CancelAllStep(s.market, s.orders), s, CancelAll(w.x, s.orders).state.ledger,
                     Next(cat, div, w, s).x.ledger);
    }
  }

  lemma OthersWithdrawNothing(cat: Catalog, div: Division, w: World, s: Step)
    requires s.RegisterStep? || s.CreateMarketStep? || s.MintStep? || s.RestartStep? || s.UpdateStatusStep?
          || s.MarkResolvedStep?
    ensures OnlyWithdraws(cat, w, s, Next(cat, div, w, s).x.ledger)
  {
  }

  /** The trades a step answers. */
  ghost function Answered(div: Division, w: World, s: Step): seq<Trade> {
    if s.PlaceStep? && PlaceOrder(div, w.x, s.order).result.Ok? then PlaceOrder(div, w.x, s.order).result.value.trades
    else []
  }

  /** What a placement does to orders and trades. */
  ghost predicate Records(l: Ledger, r: Row, ts: seq<Trade>, l': Ledger) {
    && l'.trades == l.trades + ts && l'.orders.Keys == l.orders.Keys + {r.id}
    && l'.orders[r.id] == PlacedRow(r, ts) && Traded(ts) <= r.quantity
    && forall id | id in l.orders :: l'.orders[id] == AfterFills(l.orders[id], FilledBy(ts, id))
  }

  lemma PlacementRecords(cat: Catalog, div: Division, w: World, r: Row, opening: real)
    requires WorldOk(cat, w, opening) && KeepsBounds(div) && Request(cat, w.x, r) && Accepts(w.x, r)
    ensures Records(w.x.ledger, r, Answered(div, w, PlaceStep(r)), Next(cat, div, w, PlaceStep(r)).x.ledger)
  {
    PlacementFillsRows(div, cat, w.x, r, w.audit.lost);
    PlacementStoresTrades(div, cat, w.x, r, w.audit.lost);
  }

  /** The two tables after any step: an accepted placement adds its row and its trades and
      fills the rows it traded with; a withdrawal marks the rows it concerns; and nothing
      else touches either table. */
  lemma StepMovesTables(cat: Catalog, div: Division, w: World, s: Step, opening: real)
    requires WorldOk(cat, w, opening) && KeepsBounds(div) && Possible(cat, w, s)
    ensures var l, l' := w.x.ledger, Next(cat, div, w, s).x.ledger;
      if s.PlaceStep? && Accepts(w.x, s.order) then Records(l, s.order, Answered(div, w, s), l')
      else OnlyWithdraws(cat, w, s, l') && Answered(div, w, s) == []
  {
    match s
    case PlaceStep(r) =>
      if Accepts(w.x, r) {
        PlacementRecords(cat, div, w, r, opening);
      } else {
        RefusedReply(div, w.x, r);
      }
    case CancelStep(user, id) => CancelStepWithdraws(cat, div, w, user, id, opening);
    case CancelAllStep(market, orders) => CancelAllWithdraws(cat, w, market, orders, opening);
    case ResolveStep(_, _, _, _) => SettlementWithdraws(cat, div, w, s, opening);
    case CancelMarketStep(_, _, _) => SettlementWithdraws(cat, div, w, s, opening);
    case _ => OthersWithdrawNothing(cat, div, w, s);
  }

  // ---- runs: trades ----

  /** All the trades answered in a run, in order. */
  ghost function AllAnswered(cat: Catalog, div: Division, w: World, steps: seq<Step>): seq<Trade>
    decreases |steps|
  {
    if steps == [] then []
    else Answered(div, w, steps[0]) + AllAnswered(cat, div, Next(cat, div, w, steps[0]), steps[1..])
  }

  lemma StepAddsAnswered(cat: Catalog, div: Division, w: World, s: Step, opening: real)
    requires WorldOk(cat, w, opening) && KeepsBounds(div) && Possible(cat, w, s)
    ensures Next(cat, div, w, s).x.ledger.trades == w.x.ledger.trades + Answered(div, w, s)
  {
    StepMovesTables(cat, div, w, s, opening);
    assert w.x.ledger.trades + [] == w.x.ledger.trades;
  }

  lemma InThatOrder(before: seq<Trade>, now: seq<Trade>, later: seq<Trade>)
    ensures before + now + later == before + (now + later)
  {
  }

  /** After any run the trade table holds exactly the trades answered, in order, behind those
      there were: none is dropped, changed or stored twice. */
  lemma {:induction false} TradesAreThoseAnswered(cat: Catalog, div: Division, w: World, steps: seq<Step>,
      opening: real)
    requires WorldOk(cat, w, opening) && KeepsBounds(div) && PossibleRun(cat, div, w, steps)
    ensures Run(cat, div, w, steps).x.ledger.trades == w.x.ledger.trades + AllAnswered(cat, div, w, steps)
    decreases |steps|
  {
    if steps == [] {
      InThatOrder(w.x.ledger.trades, [], []);
    } else {
      var w1 := Next(cat, div, w, steps[0]);
      StepKeepsWorld(cat, div, w, steps[0], opening);
      StepAddsAnswered(cat, div, w, steps[0], opening);
      TradesAreThoseAnswered(cat, div, w1, steps[1..], opening);
      InThatOrder(w.x.ledger.trades, Answered(div, w, steps[0]), AllAnswered(cat, div, w1, steps[1..]));
    }
  }

  // ---- runs: statuses ----

  /** A row's status is that of its fill, unless the order was cancelled. */
  predicate StatusExplained(r: Row) { r.status == Cancelled || r.status == StatusFor(r.filled, r.quantity) }

  /** The order was withdrawn somewhere in the run. */
  ghost predicate WithdrawnIn(cat: Catalog, div: Division, w: World, steps: seq<Step>, id: OrderId)
    decreases |steps|
  {
    steps != [] &&
    ((id in w.x.ledger.orders && Withdraws(cat, w, steps[0], w.x.ledger.orders[id]))
     || WithdrawnIn(cat, div, Next(cat, div, w, steps[0]), steps[1..], id))
  }

  predicate IsCancelled(l: Ledger, id: OrderId) { id in l.orders && l.orders[id].status == Cancelled }

  lemma FillsCancelNothing(l: Ledger, r: Row, ts: seq<Trade>, l': Ledger, id: OrderId)
    requires Records(l, r, ts, l') && !IsCancelled(l, id)
    ensures !IsCancelled(l', id)
  {
    if id in l.orders { assert l'.orders[id] == AfterFills(l.orders[id], FilledBy(ts, id)); }
  }

  lemma OnlyWithdrawnCancelled(cat: Catalog, w: World, s: Step, l': Ledger, id: OrderId)
    requires OnlyWithdraws(cat, w, s, l') && !IsCancelled(w.x.ledger, id) && IsCancelled(l', id)
    ensures id in w.x.ledger.orders && Withdraws(cat, w, s, w.x.ledger.orders[id])
  {
    assert l'.orders[id] == RowAfter(cat, w, s, w.x.ledger.orders[id]);
  }

  lemma StepCancels(cat: Catalog, div: Division, w: World, s: Step, id: OrderId, opening: real)
    requires WorldOk(cat, w, opening) && KeepsBounds(div) && Possible(cat, w, s)
    requires !IsCancelled(w.x.ledger, id) && IsCancelled(Next(cat, div, w, s).x.ledger, id)
    ensures id in w.x.ledger.orders && Withdraws(cat, w, s, w.x.ledger.orders[id])
  {
    var l' := Next(cat, div, w, s).x.ledger;
    StepMovesTables(cat, div, w, s, opening);
    if s.PlaceStep? && Accepts(w.x, s.order) {
      FillsCancelNothing(w.x.ledger, s.order, Answered(div, w, s), l', id);
    } else {
      OnlyWithdrawnCancelled(cat, w, s, l', id);
    }
  }

  /** An order is cancelled only by a cancellation of it: by its own user, or with all orders
      of its market. */
  lemma {:induction false} CancelledOnlyIfWithdrawn(cat: Catalog, div: Division, w: World, steps: seq<Step>,
      id: OrderId, opening: real)
    requires WorldOk(cat, w, opening) && KeepsBounds(div) && PossibleRun(cat, div, w, steps)
    requires !IsCancelled(w.x.ledger, id) && IsCancelled(Run(cat, div, w, steps).x.ledger, id)
    ensures WithdrawnIn(cat, div, w, steps, id)
    decreases |steps|
  {
    var w1 := Next(cat, div, w, steps[0]);
    StepKeepsWorld(cat, div, w, steps[0], opening);
    if IsCancelled(w1.x.ledger, id) {
      StepCancels(cat, div, w, steps[0], id, opening);
    } else {
      CancelledOnlyIfWithdrawn(cat, div, w1, steps[1..], id, opening);
    }
  }

  // ---- runs: every fill is backed by trades ----

  /** What an order has traded, on either side. */
  function TradedIn(ts: seq<Trade>, id: OrderId): real {
    if ts == [] then 0.0
    else (if ts[0].makerOrder == id || ts[0].takerOrder == id then ts[0].quantity else 0.0) + TradedIn(ts[1..], id)
  }

  lemma {:induction false} TradedInAppend(a: seq<Trade>, b: seq<Trade>, id: OrderId)
    ensures TradedIn(a + b, id) == TradedIn(a, id) + TradedIn(b, id)
  {
    if a == [] {
      assert a + b == b;
    } else {
      assert (a + b)[1..] == a[1..] + b;
      TradedInAppend(a[1..], b, id);
    }
  }

  lemma {:induction false} TradedInNone(ts: seq<Trade>, id: OrderId)
    requires forall t | t in ts :: t.makerOrder != id && t.takerOrder != id
    ensures TradedIn(ts, id) == 0.0
  {
    if ts != [] {
      assert ts[0] in ts;
      TradedInNone(ts[1..], id);
    }
  }

  lemma {:induction false} TradedAsMaker(ts: seq<Trade>, id: OrderId)
    requires forall t | t in ts :: t.takerOrder != id
    ensures TradedIn(ts, id) == FilledBy(ts, id)
  {
    if ts != [] {
      assert ts[0] in ts;
      TradedAsMaker(ts[1..], id);
    }
  }

  lemma {:induction false} TradedAsTaker(ts: seq<Trade>, id: OrderId)
    requires forall t | t in ts :: t.takerOrder == id
    ensures TradedIn(ts, id) == Traded(ts)
  {
    if ts != [] {
      assert ts[0] in ts;
      TradedAsTaker(ts[1..], id);
    }
  }

  /** A trade between two orders of the table: of different users and opposite sides, for one
      outcome, at the maker's price, which is no worse than the taker's limit. */
  predicate TradeOk(orders: map<OrderId, Row>, t: Trade) {
    && t.makerOrder in orders && t.takerOrder in orders && t.quantity > 0.0
    && var maker, taker := orders[t.makerOrder], orders[t.takerOrder];
    && t.price == maker.price && Acceptable(taker, t.price)
    && t.makerUser == maker.user && t.takerUser == taker.user && maker.user != taker.user
    && maker.side == taker.side.Opposite()
    && t.outcome == maker.outcome == taker.outcome && t.market == maker.market == taker.market
  }

  /** The order and trade tables explain each other. */
  ghost predicate TrailOk(l: Ledger) {
    && (forall id | id in l.orders :: l.orders[id].filled == TradedIn(l.trades, id))
    && (forall id | id in l.orders :: StatusExplained(l.orders[id]))
    && (forall t | t in l.trades :: TradeOk(l.orders, t))
  }

  /** Rows may change fill and status, but nothing that trades refer to. */
  predicate SameTerms(r: Row, r': Row) { r' == r.(filled := r'.filled, status := r'.status) }

  lemma TradesStayOk(orders: map<OrderId, Row>, orders': map<OrderId, Row>, ts: seq<Trade>)
    requires forall id | id in orders :: id in orders' && SameTerms(orders[id], orders'[id])
    requires forall t | t in ts :: TradeOk(orders, t)
    ensures forall t | t in ts :: TradeOk(orders', t)
  {
    forall t | t in ts ensures TradeOk(orders', t) { assert TradeOk(orders, t); }
  }

  lemma WithdrawalKeepsTrail(cat: Catalog, w: World, s: Step, l': Ledger)
    requires TrailOk(w.x.ledger) && OnlyWithdraws(cat, w, s, l')
    ensures TrailOk(l')
  {
    TradesStayOk(w.x.ledger.orders, l'.orders, l'.trades);
    forall id | id in l'.orders
      ensures l'.orders[id].filled == TradedIn(l'.trades, id) && StatusExplained(l'.orders[id])
    {
      assert l'.orders[id] == RowAfter(cat, w, s, w.x.ledger.orders[id]) && StatusExplained(w.x.ledger.orders[id]);
    }
  }

  /** A new trade of a new order r with an order m of the table. */
  predicate NewTrade(orders: map<OrderId, Row>, r: Row, m: Row, t: Trade) {
    && m.id in orders && orders[m.id] == m && FairTrade(r, m, t)
    && m.side == r.side.Opposite() && m.outcome == r.outcome && m.market == r.market
  }

  ghost predicate NewTrades(orders: map<OrderId, Row>, r: Row, ts: seq<Trade>) {
    forall t | t in ts :: exists m :: NewTrade(orders, r, m, t)
  }

  lemma NewTradesOk(orders: map<OrderId, Row>, orders': map<OrderId, Row>, r: Row, ts: seq<Trade>)
    requires NewTrades(orders, r, ts)
    requires forall id | id in orders :: id in orders' && SameTerms(orders[id], orders'[id])
    requires r.id in orders' && SameTerms(r, orders'[r.id])
    ensures forall t | t in ts :: TradeOk(orders', t)
  {
    forall t | t in ts ensures TradeOk(orders', t) {
      var m :| NewTrade(orders, r, m, t);
    }
  }

  lemma FillsAreBacked(l: Ledger, r: Row, ts: seq<Trade>, l': Ledger, id: OrderId)
    requires TrailOk(l) && Records(l, r, ts, l') && r.id !in l.orders && id in l'.orders
    requires forall t | t in ts :: t.takerOrder == r.id && t.makerOrder in l.orders
    ensures l'.orders[id].filled == TradedIn(l'.trades, id)
  {
    TradedInAppend(l.trades, ts, id);
    if id == r.id {
      TradedAsTaker(ts, id);
      forall t | t in l.trades ensures t.makerOrder != id && t.takerOrder != id { assert TradeOk(l.orders, t); }
      TradedInNone(l.trades, id);
    } else {
      TradedAsMaker(ts, id);
    }
  }

  lemma PlacementKeepsTrail(l: Ledger, r: Row, ts: seq<Trade>, l': Ledger)
    requires TrailOk(l) && Records(l, r, ts, l') && r.id !in l.orders && NewTrades(l.orders, r, ts)
    ensures TrailOk(l')
  {
    TradesStayOk(l.orders, l'.orders, l.trades);
    NewTradesOk(l.orders, l'.orders, r, ts);
    forall t | t in ts ensures t.takerOrder == r.id && t.makerOrder in l.orders {
      var m :| NewTrade(l.orders, r, m, t);
    }
    forall id | id in l'.orders ensures l'.orders[id].filled == TradedIn(l'.trades, id) {
      FillsAreBacked(l, r, ts, l', id);
    }
    forall id | id in l'.orders ensures StatusExplained(l'.orders[id]) {
      if id in l.orders { assert StatusExplained(l.orders[id]); }
    }
  }

  lemma AnsweredAreNew(cat: Catalog, div: Division, w: World, r: Row, opening: real)
    requires WorldOk(cat, w, opening) && KeepsBounds(div) && Request(cat, w.x, r) && Accepts(w.x, r)
    ensures NewTrades(w.x.ledger.orders, r, Answered(div, w, PlaceStep(r)))
  {
    var x, orders, other := w.x, w.x.ledger.orders, OtherSide(w.x.books, r);
    AcceptedPlacement(div, cat, x, r, w.audit.lost);
    AcceptedReply(div, x, r);
    ReadyBook(orders, x.books, r);
    TradesAreFair(r, other);
    forall t | t in Match(r, other).trades ensures exists m :: NewTrade(orders, r, m, t) {
      assert FairlyTraded(r, other, t);
      var m :| m in other && FairTrade(r, m, t);
      assert NewTrade(orders, r, m, t);
    }
  }

  lemma StepKeepsTrail(cat: Catalog, div: Division, w: World, s: Step, opening: real)
    requires WorldOk(cat, w, opening) && KeepsBounds(div) && Possible(cat, w, s) && TrailOk(w.x.ledger)
    ensures TrailOk(Next(cat, div, w, s).x.ledger)
  {
    StepMovesTables(cat, div, w, s, opening);
    if s.PlaceStep? && Accepts(w.x, s.order) {
      AnsweredAreNew(cat, div, w, s.order, opening);
      PlacementKeepsTrail(w.x.ledger, s.order, Answered(div, w, s), Next(cat, div, w, s).x.ledger);
    } else {
      WithdrawalKeepsTrail(cat, w, s, Next(cat, div, w, s).x.ledger);
    }
  }

  lemma {:induction false} RunKeepsTrail(cat: Catalog, div: Division, w: World, steps: seq<Step>, opening: real)
    requires WorldOk(cat, w, opening) && KeepsBounds(div) && PossibleRun(cat, div, w, steps) && TrailOk(w.x.ledger)
    ensures TrailOk(Run(cat, div, w, steps).x.ledger)
    decreases |steps|
  {
    if steps != [] {
      StepKeepsWorld(cat, div, w, steps[0], opening);
      StepKeepsTrail(cat, div, w, steps[0], opening);
      RunKeepsTrail(cat, div, Next(cat, div, w, steps[0]), steps[1..], opening);
    }
  }

  /** After any run from an initial platform: the trade table holds exactly the trades
      answered; each is between two orders of the table, at the maker's price and within the
      taker's limit; every order is filled by exactly its trades; and every status is that of
      the fill, unless the order was cancelled. */
  lemma AnyRunIsRecorded(cat: Catalog, div: Division, w: World, steps: seq<Step>)
    requires Initial(w) && KeepsBounds(div) && PossibleRun(cat, div, w, steps)
    ensures TrailOk(Run(cat, div, w, steps).x.ledger)
    ensures Run(cat, div, w, steps).x.ledger.trades == AllAnswered(cat, div, w, steps)
    ensures forall id | IsCancelled(Run(cat, div, w, steps).x.ledger, id) :: WithdrawnIn(cat, div, w, steps, id)
  {
    var opening := TotalCash(w.x.ledger.users);
    InitialIsOk(cat, w);
    RunKeepsTrail(cat, div, w, steps, opening);
    TradesAreThoseAnswered(cat, div, w, steps, opening);
    assert [] + AllAnswered(cat, div, w, steps) == AllAnswered(cat, div, w, steps);
    forall id | IsCancelled(Run(cat, div, w, steps).x.ledger, id) ensures WithdrawnIn(cat, div, w, steps, id) {
      CancelledOnlyIfWithdrawn(cat, div, w, steps, id, opening);
    }
  }
}
