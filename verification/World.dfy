/** The whole platform as a state machine: trading, minting, market lifecycle, settlement
    and restarts, and what holds after any run of them. */
module World {
  import opened Domain
  import opened Ledger
  import opened Exchange
  import opened Sums
  import opened Funds
  import opened Agreement
  import opened Placement
  import opened Cash
  import opened Cancellation
  import opened MarketCancellation
  import opened Minting
  import opened Payments
  import opened Restart
  import L = Lifecycle

  /** What an auditor notes down beside the system: shares lost, cash brought in by new users,
      cash paid out to position holders by market, and how often each market was settled. */
  datatype Audit = Audit(
    lost: map<OutcomeId, real>,
    deposited: real,
    paid: map<MarketId, real>,
    settled: map<MarketId, nat>)

  datatype World = World(x: Exchange, markets: map<MarketId, L.Market>, winners: set<OutcomeId>, audit: Audit)

  /** What every user receives on registration. */
  const INITIAL_BALANCE: real := 1000.0

  function PaidFor(a: Audit, market: MarketId): real {
    if market in a.paid then a.paid[market] else 0.0
  }

  ghost function Disbursed(a: Audit): real { Sum(a.paid) }

  function TimesSettled(a: Audit, market: MarketId): nat {
    if market in a.settled then a.settled[market] else 0
  }

  // ---- users and markets ----

  function Register(w: World, user: UserId): (World, Result<()>) {
    var users := w.x.ledger.users;
    if user in users then (w, Err(UserExists))
    else
      (w.(x := w.x.(ledger := w.x.ledger.(users := users[user := Account(INITIAL_BALANCE, 0.0)])),
          audit := w.audit.(deposited := w.audit.deposited + INITIAL_BALANCE)),
       Ok(()))
  }

  function CreateMarket(w: World, market: MarketId): (World, Result<()>) {
    if market in w.markets then (w, Err(MarketExists))
    else (w.(markets := w.markets[market := L.Market(L.Draft, None)]), Ok(()))
  }

  function UpdateStatus(w: World, market: MarketId, status: L.MarketStatus): (World, Result<()>) {
    if market !in w.markets then (w, Err(MarketNotFound))
    else if !L.IsValidTransition(w.markets[market].status, status) then (w, Err(BadRequest))
    else (w.(markets := w.markets[market := w.markets[market].(status := status)]), Ok(()))
  }

  predicate IsClosed(w: World, market: MarketId) {
    market in w.markets && w.markets[market].status == L.Closed
  }

  predicate OutcomeIn(cat: Catalog, market: MarketId, outcome: OutcomeId) {
    outcome in cat && cat[outcome] == market
  }

  /** The market service's own resolution: it marks the market without paying anyone. */
  function MarkResolved(cat: Catalog, w: World, market: MarketId, winner: OutcomeId): (World, Result<()>) {
    if market !in w.markets then (w, Err(MarketNotFound))
    else if w.markets[market].status != L.Closed then (w, Err(BadRequest))
    else if !OutcomeIn(cat, market, winner) then (w, Err(BadRequest))
    else
      (w.(markets := w.markets[market := L.Market(L.Resolved, Some(winner))], winners := w.winners + {winner}), Ok(()))
  }

  /** The auditor notes another payment for a market, which settles it. */
  function NotingPayment(a: Audit, market: MarketId, amount: real): Audit {
    a.(paid := a.paid[market := PaidFor(a, market) + amount],
       settled := a.settled[market := TimesSettled(a, market) + 1])
  }

  /** The platform once users have been paid that amount for a market. */
  function AfterPayment(w: World, market: MarketId, closed: L.Market, winners: set<OutcomeId>,
      users: map<UserId, Account>, amount: real): World
  {
    World(w.x.(ledger := w.x.ledger.(users := users)), w.markets[market := closed], winners,
          NotingPayment(w.audit, market, amount))
  }

  /** Pays ps out of a closed market once its open orders are cancelled; a failing payment
      rolls the transaction back, but not the cancellations before it. */
  ghost function Settle(w: World, market: MarketId, closed: L.Market, winners: set<OutcomeId>, orders: seq<Row>,
      ps: seq<Payment>): (World, Result<()>)
  {
    var cancelled := CancelAll(w.x, orders);
    var w1 := w.(x := cancelled.state);
    match cancelled.result
    case Err(e) => (w1, Err(e))
    case Ok(_) =>
      match PayAll(w1.x.ledger.users, ps)
      case Err(e) => (w1, Err(e))
      case Ok(users) =>
        (AfterPayment(w1, market, closed, winners, users, Total(ps)), Ok(()))
  }

  ghost function ResolveMarket(cat: Catalog, w: World, market: MarketId, winner: OutcomeId, orders: seq<Row>,
      listing: seq<Listed>): (World, Result<()>)
  {
    if market !in w.markets then (w, Err(MarketNotFound))
    else if w.markets[market].status != L.Closed then (w, Err(BadRequest))
    else if !OutcomeIn(cat, market, winner) then (w, Err(BadRequest))
    else
      Settle(w, market, L.Market(L.Resolved, Some(winner)), w.winners + {winner}, orders, Payouts(listing, winner))
  }

  ghost function CancelMarket(w: World, market: MarketId, orders: seq<Row>, listing: seq<Listed>): (World, Result<()>) {
    if market !in w.markets then (w, Err(MarketNotFound))
    else if w.markets[market].status != L.Closed then (w, Err(BadRequest))
    else Settle(w, market, w.markets[market].(status := L.Cancelled), w.winners, orders, Refunds(listing))
  }

  // ---- steps ----

  datatype Step =
    | RegisterStep(user: UserId)
    | CreateMarketStep(market: MarketId)
    | PlaceStep(order: Row)
    | CancelStep(user: UserId, id: OrderId)
    | CancelAllStep(market: MarketId, orders: seq<Row>)
    | MintStep(minter: UserId, market: MarketId, outcomes: seq<OutcomeId>, quantity: real)
    | RestartStep(orders: seq<Row>)
    | UpdateStatusStep(market: MarketId, status: L.MarketStatus)
    | MarkResolvedStep(market: MarketId, winner: OutcomeId)
    | ResolveStep(market: MarketId, winner: OutcomeId, orders: seq<Row>, listing: seq<Listed>)
    | CancelMarketStep(market: MarketId, orders: seq<Row>, listing: seq<Listed>)

  /** What the system's surroundings provide: fresh identifiers, requests for an outcome of
      the right market, positive mint quantities, and repository listings that are complete
      and without repetition, in whatever order. */
  ghost predicate Possible(cat: Catalog, w: World, s: Step) {
    var l := w.x.ledger;
    match s
    case RegisterStep(_) => true
    case CreateMarketStep(_) => true
    case PlaceStep(r) => Request(cat, w.x, r)
    case CancelStep(_, _) => true
    case CancelAllStep(market, orders) => ListsOpen(l.orders, market, orders)
    case MintStep(_, market, outcomes, quantity) => OutcomesOf(cat, market, outcomes) && quantity > 0.0
    case RestartStep(orders) => ListsLive(l.orders, orders)
    case UpdateStatusStep(_, _) => true
    case MarkResolvedStep(_, _) => true
    case ResolveStep(market, _, orders, listing) =>
      && ListsOpen(l.orders, market, orders)
      && ListsPositions(CancelAll(w.x, orders).state.ledger.positions, market, listing)
    case CancelMarketStep(market, orders, listing) =>
      && ListsOpen(l.orders, market, orders)
      && ListsPositions(CancelAll(w.x, orders).state.ledger.positions, market, listing)
  }

  /** The auditor notes what a single cancellation loses. */
  function NotingCancel(w: World, reply: Reply<()>, id: OrderId): World {
    w.(x := reply.state,
       audit := if reply.result.Ok? && id in w.x.ledger.orders
                then w.audit.(lost := LostAfterCancel(w.audit.lost, w.x.ledger.orders[id])) else w.audit)
  }

  ghost function Next(cat: Catalog, div: Division, w: World, s: Step): World {
    var lost := w.audit.lost;
    match s
    case RegisterStep(user) => Register(w, user).0
    case CreateMarketStep(market) => CreateMarket(w, market).0
    case PlaceStep(r) => w.(x := PlaceOrder(div, w.x, r).state)
    case CancelStep(user, id) => NotingCancel(w, CancelOrder(w.x, user, id), id)
    case CancelAllStep(_, orders) => w.(x := CancelAll(w.x, orders).state)
    case MintStep(user, market, outcomes, quantity) =>
      var reply := MintTokens(w.x, user, market, outcomes, quantity);
      w.(x := reply.state,
         audit := if reply.result.Ok?
                  then w.audit.(lost := LostAfterMint(lost, w.x.ledger.positions, user, outcomes)) else w.audit)
    case RestartStep(orders) => w.(x := w.x.(books := RestoreAll(map[], orders)))
    case UpdateStatusStep(market, status) => UpdateStatus(w, market, status).0
    case MarkResolvedStep(market, winner) => MarkResolved(cat, w, market, winner).0
    case ResolveStep(market, winner, orders, listing) => ResolveMarket(cat, w, market, winner, orders, listing).0
    case CancelMarketStep(market, orders, listing) => CancelMarket(w, market, orders, listing).0
  }

  ghost function Run(cat: Catalog, div: Division, w: World, steps: seq<Step>): World
    decreases |steps|
  {
    if steps == [] then w else Run(cat, div, Next(cat, div, w, steps[0]), steps[1..])
  }

  ghost predicate PossibleRun(cat: Catalog, div: Division, w: World, steps: seq<Step>)
    decreases |steps|
  {
    steps != [] ==> Possible(cat, w, steps[0]) && PossibleRun(cat, div, Next(cat, div, w, steps[0]), steps[1..])
  }

  // ---- the invariant ----

  /** The cost of everything minted. */
  function Collected(mints: seq<MintTx>): real {
    if mints == [] then 0.0 else Collected(mints[..|mints| - 1]) + mints[|mints| - 1].cost
  }

  /** All cash is accounted for, counting from what there was at the start. */
  ghost predicate CashOk(w: World, opening: real) {
    TotalCash(w.x.ledger.users) + Collected(w.x.ledger.mints) == opening + w.audit.deposited + Disbursed(w.audit)
  }

  /** A market is settled at most once, and only on reaching a terminal status; cash is paid
      out of settled markets only. */
  ghost predicate SettledOnce(w: World) {
    && (forall m | TimesSettled(w.audit, m) > 0 ::
          TimesSettled(w.audit, m) == 1 && m in w.markets && L.Terminal(w.markets[m].status))
    && (forall m | m in w.audit.paid :: TimesSettled(w.audit, m) > 0)
  }

  /** A winner is the outcome its market was resolved to, so no market has two. */
  predicate WinnersOk(cat: Catalog, w: World) {
    forall o | o in w.winners ::
      o in cat && cat[o] in w.markets && w.markets[cat[o]] == L.Market(L.Resolved, Some(o))
  }

  ghost predicate WorldOk(cat: Catalog, w: World, opening: real) {
    && Inv(cat, w.x, w.audit.lost)
    && CashOk(w, opening)
    && SettledOnce(w)
    && WinnersOk(cat, w)
    && forall m | m in w.x.ledger.mints :: m.cost == m.quantity > 0.0
  }

  /** A platform before its first order: users with money, no orders, positions or mints. */
  predicate Initial(w: World) {
    && w.x == Exchange(Ledger(w.x.ledger.users, map[], map[], [], []), map[])
    && (forall u | u in w.x.ledger.users :: w.x.ledger.users[u].balance >= 0.0 && w.x.ledger.users[u].locked == 0.0)
    && w.winners == {}
    && w.audit == Audit(map[], 0.0, map[], map[])
  }

  lemma InitialIsOk(cat: Catalog, w: World)
    requires Initial(w)
    ensures WorldOk(cat, w, TotalCash(w.x.ledger.users))
  {
    var orders: map<OrderId, Row> := map[];
    assert forall u :: LockedBy(orders, u) == 0.0;
    assert forall o :: Escrowed(orders, o) == 0.0;
    assert forall o :: Held(map[], o) == 0.0;
  }

  // ---- every step keeps it ----

  lemma SettledDependsOn(w: World, w': World)
    requires SettledOnce(w)
    requires w'.markets == w.markets && w'.audit.settled == w.audit.settled && w'.audit.paid == w.audit.paid
    ensures SettledOnce(w')
  {
    assert forall m :: TimesSettled(w'.audit, m) == TimesSettled(w.audit, m);
  }

  /** A step that neither mints nor pays out need only keep the exchange invariant and the
      cash there is. */
  lemma TradingStep(cat: Catalog, w: World, w': World, opening: real)
    requires WorldOk(cat, w, opening)
    requires Inv(cat, w'.x, w'.audit.lost)
    requires TotalCash(w'.x.ledger.users) == TotalCash(w.x.ledger.users) && w'.x.ledger.mints == w.x.ledger.mints
    requires w'.markets == w.markets && w'.winners == w.winners && w'.audit == w.audit.(lost := w'.audit.lost)
    ensures WorldOk(cat, w', opening)
  {
    SettledDependsOn(w, w');
  }

  lemma ReplacedKeepsWorld(cat: Catalog, w: World, x': Exchange, opening: real)
    requires WorldOk(cat, w, opening) && Inv(cat, x', w.audit.lost)
    requires TotalCash(x'.ledger.users) == TotalCash(w.x.ledger.users) && x'.ledger.mints == w.x.ledger.mints
    ensures WorldOk(cat, w.(x := x'), opening)
  {
    TradingStep(cat, w, w.(x := x'), opening);
  }

  lemma PlaceKeepsWorld(cat: Catalog, div: Division, w: World, r: Row, opening: real)
    requires WorldOk(cat, w, opening) && KeepsBounds(div) && Request(cat, w.x, r)
    ensures WorldOk(cat, Next(cat, div, w, PlaceStep(r)), opening)
  {
    var x' := PlaceOrder(div, w.x, r).state;
    PlaceOrderKeepsInv(div, cat, w.x, r, w.audit.lost);
    PlaceOrderConservesCash(div, w.x, r);
    ReplacedKeepsWorld(cat, w, x', opening);
  }

  lemma NotingCancelKeepsWorld(cat: Catalog, w: World, reply: Reply<()>, id: OrderId, opening: real)
    requires WorldOk(cat, w, opening)
    requires if reply.result.Ok? then
               id in w.x.ledger.orders && Inv(cat, reply.state, LostAfterCancel(w.audit.lost, w.x.ledger.orders[id]))
             else reply.state == w.x
    requires TotalCash(reply.state.ledger.users) == TotalCash(w.x.ledger.users)
    requires reply.state.ledger.mints == w.x.ledger.mints
    ensures WorldOk(cat, NotingCancel(w, reply, id), opening)
  {
    TradingStep(cat, w, NotingCancel(w, reply, id), opening);
  }

  lemma CancelKeepsWorld(cat: Catalog, div: Division, w: World, user: UserId, id: OrderId, opening: real)
    requires WorldOk(cat, w, opening)
    ensures WorldOk(cat, Next(cat, div, w, CancelStep(user, id)), opening)
  {
    CancelOrderConservesCash(w.x, user, id);
    CancelOrderKeepsInv(cat, w.x, user, id, w.audit.lost);
    NotingCancelKeepsWorld(cat, w, CancelOrder(w.x, user, id), id, opening);
  }

  lemma ReturnedKeepsCash(l: Ledger, l': Ledger, listing: seq<Row>)
    requires Returned(l, l', listing)
    ensures TotalCash(l'.users) == TotalCash(l.users)
  {
    var before, after := l.users, l'.users;
    assert (map u | u in before :: before[u].balance + before[u].locked)
        == (map u | u in after :: after[u].balance + after[u].locked);
  }

  lemma CancelAllKeepsWorld(cat: Catalog, div: Division, w: World, market: MarketId, orders: seq<Row>, opening: real)
    requires WorldOk(cat, w, opening) && ListsOpen(w.x.ledger.orders, market, orders)
    ensures CancelAll(w.x, orders).result.Ok?
    ensures WorldOk(cat, w.(x := CancelAll(w.x, orders).state), opening)
  {
    CancelAllWorks(cat, w.x, market, orders, w.audit.lost);
    ReturnedKeepsCash(w.x.ledger, CancelAll(w.x, orders).state.ledger, orders);
  }

  lemma CollectedAdds(mints: seq<MintTx>, m: MintTx)
    ensures Collected(mints + [m]) == Collected(mints) + m.cost
  {
    assert (mints + [m])[..|mints|] == mints;
  }

  lemma MintedKeepsWorld(cat: Catalog, w: World, x: Exchange, lost: map<OutcomeId, real>, m: MintTx, opening: real)
    requires WorldOk(cat, w, opening) && Inv(cat, x, lost)
    requires x.ledger.mints == w.x.ledger.mints + [m] && m.cost == m.quantity > 0.0
    requires TotalCash(x.ledger.users) == TotalCash(w.x.ledger.users) - m.cost
    ensures WorldOk(cat, w.(x := x, audit := w.audit.(lost := lost)), opening)
  {
    var w' := w.(x := x, audit := w.audit.(lost := lost));
    CollectedAdds(w.x.ledger.mints, m);
    SettledDependsOn(w, w');
  }

  lemma MintKeepsWorld(cat: Catalog, div: Division, w: World, user: UserId, market: MarketId,
      outcomes: seq<OutcomeId>, quantity: real, opening: real)
    requires WorldOk(cat, w, opening) && Possible(cat, w, MintStep(user, market, outcomes, quantity))
    ensures WorldOk(cat, Next(cat, div, w, MintStep(user, market, outcomes, quantity)), opening)
  {
    MintKeepsInv(cat, w.x, user, market, outcomes, quantity, w.audit.lost);
    var reply := MintTokens(w.x, user, market, outcomes, quantity);
    if reply.result.Ok? {
      MintedKeepsWorld(cat, w, reply.state, LostAfterMint(w.audit.lost, w.x.ledger.positions, user, outcomes),
                       MintTx(user, market, quantity, quantity), opening);
    }
  }

  lemma RestartKeepsCatalogued(cat: Catalog, x: Exchange, orders: seq<Row>)
    requires OrdersOk(cat, x.ledger, x.ledger.orders) && ListsLive(x.ledger.orders, orders)
    ensures Catalogued(cat, RestoreAll(map[], orders))
  {
    forall key | key in RestoreAll(map[], orders) ensures key.outcome in cat && cat[key.outcome] == key.market {
      RestoredSide(map[], orders, key, Buy);
      var r :| r in orders && KeyOf(r) == key;
      assert OrderOk(cat, x.ledger, x.ledger.orders[r.id]);
    }
  }

  lemma RestartKeepsWorld(cat: Catalog, div: Division, w: World, orders: seq<Row>, opening: real)
    requires WorldOk(cat, w, opening) && ListsLive(w.x.ledger.orders, orders)
    ensures WorldOk(cat, Next(cat, div, w, RestartStep(orders)), opening)
  {
    RestartKeepsAgreement(w.x.ledger.orders, w.x.books, orders);
    RestartKeepsCatalogued(cat, w.x, orders);
  }

  lemma NewUserLocksNothing(cat: Catalog, l: Ledger, user: UserId)
    requires OrdersOk(cat, l, l.orders) && user !in l.users
    ensures LockedBy(l.orders, user) == 0.0
  {
    forall id | id in l.orders ensures LockedWeight(l.orders[id], user) == 0.0 {
      assert OrderOk(cat, l, l.orders[id]);
    }
    SumZero(map id | id in l.orders :: LockedWeight(l.orders[id], user));
  }

  lemma SharesDependOn(cat: Catalog, l: Ledger, l': Ledger, lost: map<OutcomeId, real>)
    requires SharesOk(cat, l, l.orders, lost)
    requires l'.positions == l.positions && l'.mints == l.mints && l'.orders == l.orders
    ensures SharesOk(cat, l', l'.orders, lost)
  {
    forall o | o in cat
      ensures Held(l'.positions, o) + Escrowed(l'.orders, o) + LostOf(lost, o) == Minted(l'.mints, cat[o])
    {
      assert Held(l.positions, o) + Escrowed(l.orders, o) + LostOf(lost, o) == Minted(l.mints, cat[o]);
    }
  }

  lemma UserTableGrows(cat: Catalog, l: Ledger, user: UserId, lost: map<OutcomeId, real>)
    requires FundsOk(cat, l, l.orders, lost) && user !in l.users
    ensures FundsOk(cat, l.(users := l.users[user := Account(INITIAL_BALANCE, 0.0)]), l.orders, lost)
  {
    var l' := l.(users := l.users[user := Account(INITIAL_BALANCE, 0.0)]);
    NewUserLocksNothing(cat, l, user);
    assert AccountsOk(l'.users, l.orders);
    forall id | id in l.orders ensures OrderOk(cat, l', l.orders[id]) { assert OrderOk(cat, l, l.orders[id]); }
    forall h | h in l.positions ensures PositionOk(cat, l'.users, h, l.positions[h]) {
      assert PositionOk(cat, l.users, h, l.positions[h]);
    }
    SharesDependOn(cat, l, l', lost);
  }

  /** Registering brings in the initial balance, and nothing of the user rests or is held. */
  lemma RegisterKeepsWorld(cat: Catalog, div: Division, w: World, user: UserId, opening: real)
    requires WorldOk(cat, w, opening)
    ensures WorldOk(cat, Next(cat, div, w, RegisterStep(user)), opening)
  {
    if user !in w.x.ledger.users {
      TotalCashUpdate(w.x.ledger.users, user, Account(INITIAL_BALANCE, 0.0));
      UserTableGrows(cat, w.x.ledger, user, w.audit.lost);
      SettledDependsOn(w, Register(w, user).0);
    }
  }

  lemma {:induction false} PaidNonNegative(ps: seq<Payment>, user: UserId)
    requires forall p | p in ps :: p.amount >= 0.0
    ensures PaidTo(ps, user) >= 0.0
  {
    if ps != [] {
      assert ps[0] in ps;
      PaidNonNegative(ps[1..], user);
    }
  }

  /** Payments to known users keep everything but balances, which only grow. */
  lemma PaymentsKeepInv(cat: Catalog, x: Exchange, ps: seq<Payment>, lost: map<OutcomeId, real>)
    requires Inv(cat, x, lost)
    requires forall p | p in ps :: p.user in x.ledger.users && p.amount >= 0.0
    ensures PayAll(x.ledger.users, ps).Ok?
    ensures Inv(cat, x.(ledger := x.ledger.(users := PayAll(x.ledger.users, ps).value)), lost)
    ensures TotalCash(PayAll(x.ledger.users, ps).value) == TotalCash(x.ledger.users) + Total(ps)
  {
    var l := x.ledger;
    PayAllIsExact(l.users, ps);
    var l' := l.(users := PayAll(l.users, ps).value);
    forall u ensures PaidTo(ps, u) >= 0.0 { PaidNonNegative(ps, u); }
    assert AccountsOk(l'.users, l.orders);
    forall id | id in l.orders ensures OrderOk(cat, l', l.orders[id]) { assert OrderOk(cat, l, l.orders[id]); }
    forall h | h in l.positions ensures PositionOk(cat, l'.users, h, l.positions[h]) {
      assert PositionOk(cat, l.users, h, l.positions[h]);
    }
    SharesDependOn(cat, l, l', lost);
  }

  lemma {:induction false} PayoutsToHolders(listing: seq<Listed>, winner: OutcomeId, users: set<UserId>)
    requires forall l | l in listing :: l.holding.user in users
    ensures forall p | p in Payouts(listing, winner) :: p.user in users && p.amount >= 0.0
  {
    if listing != [] {
      assert listing[0] in listing;
      PayoutsToHolders(listing[1..], winner, users);
    }
  }

  lemma {:induction false} RefundsToHolders(listing: seq<Listed>, users: set<UserId>)
    requires forall l | l in listing :: l.holding.user in users
    ensures forall p | p in Refunds(listing) :: p.user in users && p.amount >= 0.0
  {
    if listing != [] {
      assert listing[0] in listing;
      RefundsToHolders(listing[1..], users);
    }
  }

  lemma SettledOnceMore(w: World, w': World, market: MarketId, closed: L.Market)
    requires SettledOnce(w) && TimesSettled(w.audit, market) == 0 && L.Terminal(closed.status)
    requires market in w.markets && w'.markets == w.markets[market := closed]
    requires w'.audit.settled == w.audit.settled[market := 1] && w'.audit.paid.Keys == w.audit.paid.Keys + {market}
    ensures SettledOnce(w')
  {
    forall m ensures TimesSettled(w'.audit, m) == if m == market then 1 else TimesSettled(w.audit, m) { }
  }

  lemma NotedPaymentAdds(a: Audit, market: MarketId, amount: real)
    ensures Disbursed(NotingPayment(a, market, amount)) == Disbursed(a) + amount
    ensures PaidFor(NotingPayment(a, market, amount), market) == PaidFor(a, market) + amount
  {
    SumUpdate(a.paid, market, PaidFor(a, market) + amount);
  }

  /** The books of the auditor once a market has been paid out. */
  lemma PaidOut(w: World, market: MarketId, closed: L.Market, winners: set<OutcomeId>, users: map<UserId, Account>,
      amount: real, cat: Catalog, opening: real)
    requires WorldOk(cat, w, opening) && TimesSettled(w.audit, market) == 0
    requires market in w.markets && w.markets[market].status == L.Closed && L.Terminal(closed.status)
    requires Inv(cat, w.x.(ledger := w.x.ledger.(users := users)), w.audit.lost)
    requires TotalCash(users) == TotalCash(w.x.ledger.users) + amount
    requires forall o | o in winners ::
      o in w.winners || (OutcomeIn(cat, market, o) && closed == L.Market(L.Resolved, Some(o)))
    ensures WorldOk(cat, AfterPayment(w, market, closed, winners, users, amount), opening)
  {
    NotedPaymentAdds(w.audit, market, amount);
    SettledOnceMore(w, AfterPayment(w, market, closed, winners, users, amount), market, closed);
  }

  lemma SettleGoesThrough(w: World, market: MarketId, closed: L.Market, winners: set<OutcomeId>, orders: seq<Row>,
      ps: seq<Payment>)
    requires CancelAll(w.x, orders).result.Ok? && PayAll(CancelAll(w.x, orders).state.ledger.users, ps).Ok?
    ensures var x1 := CancelAll(w.x, orders).state;
      Settle(w, market, closed, winners, orders, ps)
        == (AfterPayment(w.(x := x1), market, closed, winners, PayAll(x1.ledger.users, ps).value, Total(ps)), Ok(()))
  {
  }

  /** Settling a closed market never fails, keeps the invariant, and settles it once. */
  lemma SettleKeepsWorld(cat: Catalog, w: World, market: MarketId, closed: L.Market, winners: set<OutcomeId>,
      orders: seq<Row>, ps: seq<Payment>, opening: real)
    requires WorldOk(cat, w, opening) && ListsOpen(w.x.ledger.orders, market, orders)
    requires market in w.markets && w.markets[market].status == L.Closed && L.Terminal(closed.status)
    requires forall p | p in ps :: p.user in w.x.ledger.users && p.amount >= 0.0
    requires forall o | o in winners ::
      o in w.winners || (OutcomeIn(cat, market, o) && closed == L.Market(L.Resolved, Some(o)))
    ensures Settle(w, market, closed, winners, orders, ps).1.Ok?
    ensures WorldOk(cat, Settle(w, market, closed, winners, orders, ps).0, opening)
    ensures PaidFor(w.audit, market) == 0.0
  {
    CancelAllKeepsWorld(cat, (a, b) => 0.0, w, market, orders, opening);
    CancelAllWorks(cat, w.x, market, orders, w.audit.lost);
    var x1 := CancelAll(w.x, orders).state;
    PaymentsKeepInv(cat, x1, ps, w.audit.lost);
    assert TimesSettled(w.audit, market) == 0;
    SettleGoesThrough(w, market, closed, winners, orders, ps);
    PaidOut(w.(x := x1), market, closed, winners, PayAll(x1.ledger.users, ps).value, Total(ps), cat, opening);
  }

  lemma ListedUsersKnown(cat: Catalog, w: World, market: MarketId, orders: seq<Row>, listing: seq<Listed>)
    requires Inv(cat, w.x, w.audit.lost) && ListsOpen(w.x.ledger.orders, market, orders)
    requires ListsPositions(CancelAll(w.x, orders).state.ledger.positions, market, listing)
    ensures forall l | l in listing :: l.holding.user in w.x.ledger.users
  {
    CancelAllWorks(cat, w.x, market, orders, w.audit.lost);
    var l' := CancelAll(w.x, orders).state.ledger;
    forall l | l in listing ensures l.holding.user in w.x.ledger.users {
      assert PositionOk(cat, l'.users, l.holding, l'.positions[l.holding]);
    }
  }

  /** A market that has not ended moves on, without any cash or shares moving. */
  lemma MarketMoves(cat: Catalog, w: World, market: MarketId, moved: L.Market, winners: set<OutcomeId>, opening: real)
    requires WorldOk(cat, w, opening)
    requires market in w.markets ==> !L.Terminal(w.markets[market].status)
    requires forall o | o in winners ::
      o in w.winners || (OutcomeIn(cat, market, o) && moved == L.Market(L.Resolved, Some(o)))
    ensures WorldOk(cat, w.(markets := w.markets[market := moved], winners := winners), opening)
  {
    var w' := w.(markets := w.markets[market := moved], winners := winners);
    assert TimesSettled(w.audit, market) == 0;
    assert forall m :: TimesSettled(w'.audit, m) == TimesSettled(w.audit, m);
  }

  lemma StatusKeepsWorld(cat: Catalog, div: Division, w: World, s: Step, opening: real)
    requires WorldOk(cat, w, opening) && (s.CreateMarketStep? || s.UpdateStatusStep? || s.MarkResolvedStep?)
    ensures WorldOk(cat, Next(cat, div, w, s), opening)
  {
    if s.CreateMarketStep? {
      if s.market !in w.markets { MarketMoves(cat, w, s.market, L.Market(L.Draft, None), w.winners, opening); }
    } else if s.UpdateStatusStep? && s.market in w.markets {
      L.TransitionsAdvance(w.markets[s.market].status, s.status);
      if L.IsValidTransition(w.markets[s.market].status, s.status) {
        MarketMoves(cat, w, s.market, w.markets[s.market].(status := s.status), w.winners, opening);
      }
    } else if s.MarkResolvedStep? && IsClosed(w, s.market) && OutcomeIn(cat, s.market, s.winner) {
      MarketMoves(cat, w, s.market, L.Market(L.Resolved, Some(s.winner)), w.winners + {s.winner}, opening);
    }
  }

  lemma SettlementKeepsWorld(cat: Catalog, div: Division, w: World, s: Step, opening: real)
    requires WorldOk(cat, w, opening) && Possible(cat, w, s) && (s.ResolveStep? || s.CancelMarketStep?)
    ensures WorldOk(cat, Next(cat, div, w, s), opening)
  {
    if s.market in w.markets && w.markets[s.market].status == L.Closed {
      ListedUsersKnown(cat, w, s.market, s.orders, s.listing);
      if s.ResolveStep? {
        PayoutsToHolders(s.listing, s.winner, w.x.ledger.users.Keys);
        if OutcomeIn(cat, s.market, s.winner) {
          SettleKeepsWorld(cat, w, s.market, L.Market(L.Resolved, Some(s.winner)), w.winners + {s.winner}, s.orders,
                           Payouts(s.listing, s.winner), opening);
        }
      } else {
        RefundsToHolders(s.listing, w.x.ledger.users.Keys);
        SettleKeepsWorld(cat, w, s.market, w.markets[s.market].(status := L.Cancelled), w.winners, s.orders,
                         Refunds(s.listing), opening);
      }
    }
  }

  lemma StepKeepsWorld(cat: Catalog, div: Division, w: World, s: Step, opening: real)
    requires WorldOk(cat, w, opening) && KeepsBounds(div) && Possible(cat, w, s)
    ensures WorldOk(cat, Next(cat, div, w, s), opening)
  {
    match s
    case RegisterStep(user) => RegisterKeepsWorld(cat, div, w, user, opening);
    case CreateMarketStep(_) => StatusKeepsWorld(cat, div, w, s, opening);
    case PlaceStep(r) => PlaceKeepsWorld(cat, div, w, r, opening);
    case CancelStep(user, id) => CancelKeepsWorld(cat, div, w, user, id, opening);
    case CancelAllStep(market, orders) => CancelAllKeepsWorld(cat, div, w, market, orders, opening);
    case MintStep(user, market, outcomes, quantity) =>
      MintKeepsWorld(cat, div, w, user, market, outcomes, quantity, opening);
    case RestartStep(orders) => RestartKeepsWorld(cat, div, w, orders, opening);
    case UpdateStatusStep(_, _) => StatusKeepsWorld(cat, div, w, s, opening);
    case MarkResolvedStep(_, _) => StatusKeepsWorld(cat, div, w, s, opening);
    case ResolveStep(_, _, _, _) => SettlementKeepsWorld(cat, div, w, s, opening);
    case CancelMarketStep(_, _, _) => SettlementKeepsWorld(cat, div, w, s, opening);
  }

  /** After any run from any initial platform: engine and ledger agree, every locked balance
      is backed, no balance is negative, every share and every unit of cash is accounted
      for, and no market was paid out or refunded twice. */
  lemma {:induction false} RunKeepsWorld(cat: Catalog, div: Division, w: World, steps: seq<Step>, opening: real)
    requires WorldOk(cat, w, opening) && KeepsBounds(div) && PossibleRun(cat, div, w, steps)
    ensures WorldOk(cat, Run(cat, div, w, steps), opening)
    decreases |steps|
  {
    if steps != [] {
      StepKeepsWorld(cat, div, w, steps[0], opening);
      RunKeepsWorld(cat, div, Next(cat, div, w, steps[0]), steps[1..], opening);
    }
  }
}
