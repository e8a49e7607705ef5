/** What the order service guarantees on its own objects: each call takes a state in which
    engine and ledger agree and all funds and shares are accounted for to another. */
module Guarantees {
  import opened Domain
  import opened FlatBook
  import opened MatchedBook
  import opened X = Exchange
  import opened Funds
  import opened Agreement
  import opened Ledger
  import opened Placement
  import opened Cash
  import opened Proceeds
  import opened Fills
  import C = Cancellation
  import G = MintService
  import K = MarketService
  import MC = MarketCancellation
  import U = Startup
  import opened BookFamily
  import opened S = OrderService
  import opened T = SettlementService
  import opened W = World
  import Effects
  import opened Payments
  import opened Minting
  import opened Stores
  import Solvency
  import D = Depth
  import R = Restart
  import L = Lifecycle

  /** The service is sound and its state satisfies the exchange invariant. */
  ghost predicate Sound(s: S.OrderService, cat: Catalog, lost: map<OutcomeId, real>)
    reads s.engine, s.engine.engines.Values, s.engine.arena
    reads s.tables.users, s.tables.positions, s.tables.orders, s.tables.trades
  {
    s.Valid() && Inv(cat, s.State(), lost)
  }

  lemma NewToBooks(x: X.Exchange, key: BookKey, id: OrderId)
    requires Agree(x.ledger.orders, x.books) && id !in x.ledger.orders
    ensures FreshIn(BookAt(x.books, key), id)
  {
    BookAtAgrees(x.ledger.orders, x.books, key);
    UnknownIsFresh(x.ledger.orders, key, BookAt(x.books, key), id);
  }

  /** The tables after a placement that was accepted and answered with these trades: accounts,
      positions, order rows and trade rows. */
  ghost predicate TradedAsAnswered(div: (real, real) -> real, l: Ledger, l': Ledger, r: Row, placed: Placed) {
    && l'.users.Keys == l.users.Keys
    && (forall u | u in l.users :: l'.users[u] == AccountAfter(l.users[u], r, placed.trades, u))
    && l'.orders.Keys == l.orders.Keys + {r.id} && l'.orders[r.id] == placed.order == PlacedRow(r, placed.trades)
    && (forall id | id in l.orders :: l'.orders[id] == AfterFills(l.orders[id], FilledBy(placed.trades, id)))
    && (forall h :: PositionFollows(div, l, l', r, placed.trades, h))
    && l'.trades == l.trades + placed.trades && l'.mints == l.mints
  }

  lemma AcceptedIsTraded(div: Division, cat: Catalog, x: X.Exchange, r: Row, lost: map<OutcomeId, real>)
    requires KeepsBounds(div) && Inv(cat, x, lost) && Request(cat, x, r) && Accepts(x, r)
    ensures var reply := X.PlaceOrder(div, x, r);
      reply.result.Ok? && TradedAsAnswered(div, x.ledger, reply.state.ledger, r, reply.result.value)
  {
    AccountsFollowTrades(div, cat, x, r, lost);
    PlaceOrderConservesCash(div, x, r);
    forall h ensures PositionFollows(div, x.ledger, X.PlaceOrder(div, x, r).state.ledger, r,
                                     X.PlaceOrder(div, x, r).result.value.trades, h)
    {
      PositionsFollowTrades(div, cat, x, r, lost, h);
    }
    PlacementFillsRows(div, cat, x, r, lost);
    PlacementStoresTrades(div, cat, x, r, lost);
  }

  /** A request under a new identifier is placed exactly if price, quantity and funds or
      shares are in order, and then every account, order row and trade row is as the answered
      trades make it; if not, the first reason is answered and nothing changes. */
  method PlaceSoundly(s: S.OrderService, r: Row, ghost cat: Catalog, ghost lost: map<OutcomeId, real>)
    returns (result: Result<Placed>)
    requires Sound(s, cat, lost) && KeepsBounds(s.div) && Request(cat, s.State(), r)
    modifies s.engine, s.engine.engines.Values, s.engine.arena
    modifies s.tables.users, s.tables.positions, s.tables.orders, s.tables.trades
    ensures Sound(s, cat, lost)
    ensures result.Ok? <==> Accepts(old(s.State()), r)
    ensures result.Ok? ==> TradedAsAnswered(s.div, old(s.tables.Contents()), s.tables.Contents(), r, result.value)
    ensures result.Err? ==> result == Err(Refusal(old(s.State()), r)) && s.State() == old(s.State())
  {
    ghost var x := s.State();
    if Accepts(x, r) { AcceptedIsTraded(s.div, cat, x, r, lost); }
    NewToBooks(x, KeyOf(r), r.id);
    PlaceOrderKeepsInv(s.div, cat, x, r, lost);
    ViewIsBook(s.engine.shelves, KeyOf(r));
    result := s.PlaceOrder(r.user, r.market, r.outcome, r.side, r.price, r.quantity, r.id);
  }

  /** A cancellation succeeds exactly for the owner of a live order; the shares a sell loses
      by it are added to those lost. */
  method CancelSoundly(s: S.OrderService, user: UserId, id: OrderId, ghost cat: Catalog,
      ghost lost: map<OutcomeId, real>)
    returns (result: Result<()>)
    requires Sound(s, cat, lost)
    modifies s.engine, s.engine.engines.Values, s.engine.arena
    modifies s.tables.users, s.tables.positions, s.tables.orders, s.tables.trades
    ensures var orders := old(s.tables.orders.orders);
      && result == (if id !in orders then Err(OrderNotFound)
                    else if orders[id].user != user then Err(Forbidden)
                    else if !orders[id].Live() then Err(OrderNotFound)
                    else Ok(()))
      && (result.Ok? ==> Sound(s, cat, C.LostAfterCancel(lost, orders[id])))
      && (result.Err? ==> s.State() == old(s.State()) && Sound(s, cat, lost))
  {
    ghost var x := s.State();
    AgreementKeepsIdsOnce(x.ledger.orders, x.books);
    C.CancelOrderKeepsInv(cat, x, user, id, lost);
    C.CancelOrderEffect(cat, x, user, id, lost);
    result := s.CancelOrder(user, id);
  }

  /** Cancel-all never fails: it returns the number of open orders, and leaves none. */
  method CancelAllSoundly(s: S.OrderService, market: MarketId, ghost cat: Catalog, ghost lost: map<OutcomeId, real>)
    returns (result: Result<nat>, ghost listing: seq<Row>)
    requires Sound(s, cat, lost)
    modifies s.engine, s.engine.engines.Values, s.engine.arena
    modifies s.tables.users, s.tables.positions, s.tables.orders, s.tables.trades
    ensures Sound(s, cat, lost)
    ensures ListsOpen(old(s.tables.orders.orders), market, listing) && result == Ok(|listing|)
    ensures forall key | key in s.engine.Books() && key.market == market :: s.engine.Books()[key] == EMPTY_BOOK
  {
    ghost var x := s.State();
    AgreementKeepsIdsOnce(x.ledger.orders, x.books);
    result, listing := s.CancelAllOrdersByMarket(market);
    MC.CancelAllWorks(cat, x, market, listing, lost);
    MC.CancelAllEmptiesMarket(cat, x, market, listing, lost);
  }

  /** Whatever the order in which the engines are searched, a depth query answers for the book
      of the outcome under the outcome's own market, and finds nothing for other outcomes. */
  method DepthSoundly(s: S.OrderService, outcome: OutcomeId, levels: nat, ghost cat: Catalog,
      ghost lost: map<OutcomeId, real>)
    returns (bids: seq<PriceLevel>, asks: seq<PriceLevel>)
    requires Sound(s, cat, lost)
    ensures outcome in cat ==>
      var b := BookAt(s.engine.Books(), BookKey(cat[outcome], outcome));
      D.ShowsBest(Buy, b.bids, levels, bids) && D.ShowsBest(Sell, b.asks, levels, asks)
    ensures outcome !in cat ==> bids == [] && asks == []
  {
    bids, asks := s.engine.GetOrderbookDepth(outcome, levels);
    assert forall key | key in s.engine.Books() && key.outcome == outcome ::
      outcome in cat && key == BookKey(cat[outcome], outcome);
  }

  /** Minting a positive quantity succeeds exactly if the user can pay for it, and otherwise
      changes nothing; what it overwrites is added to what is lost. */
  method MintSoundly(g: G.MintService, s: S.OrderService, user: UserId, market: MarketId, quantity: real,
      ghost cat: Catalog, ghost lost: map<OutcomeId, real>)
    returns (result: Result<seq<Position>>, ghost outcomes: seq<OutcomeId>)
    requires Sound(s, cat, lost) && g.tables == s.tables && g.outcomes.Catalog() == cat && quantity > 0.0
    modifies s.tables.users, s.tables.positions, s.tables.orders, s.tables.trades
    ensures OutcomesOf(cat, market, outcomes)
    ensures var users := old(s.tables.users.users);
      && (user !in users ==> result == Err(UserNotFound))
      && (user in users && users[user].balance < quantity ==> result == Err(InsufficientBalance))
      && (user in users && users[user].balance >= quantity ==>
            && result.Ok?
            && s.tables.users.users == users[user := Account(users[user].balance - quantity, users[user].locked)])
    ensures result.Ok? ==> Sound(s, cat, LostAfterMint(lost, old(s.tables.positions.positions), user, outcomes))
    ensures result.Err? ==> s.State() == old(s.State()) && Sound(s, cat, lost)
  {
    ghost var x := s.State();
    result, outcomes := g.MintTokens(user, market, quantity);
    MintKeepsInv(cat, x, user, market, outcomes, quantity, lost);
    MintEffect(x, user, market, outcomes, quantity);
  }

  /** A service started on the tables a running one left is sound again: the engine it had is
      forgotten, and its books are rebuilt from the open orders. */
  method RestartSoundly(tables: Tables, div: (real, real) -> real, ghost books: map<BookKey, Book>, ghost cat: Catalog,
      ghost lost: map<OutcomeId, real>)
    returns (s: S.OrderService, ghost listing: seq<Row>)
    requires Inv(cat, X.Exchange(tables.Contents(), books), lost)
    ensures s.tables == tables && s.div == div && Sound(s, cat, lost)
    ensures R.ListsLive(tables.orders.orders, listing)
    ensures s.State() == X.Exchange(old(tables.Contents()), R.RestoreAll(map[], listing))
  {
    var engine;
    engine, listing := U.RestoreBooks(tables.orders);
    R.RestartKeepsAgreement(tables.orders.orders, books, listing);
    RestartKeepsCatalogued(cat, X.Exchange(tables.Contents(), books), listing);
    s := new S.OrderService(tables, engine, div);
  }

  /** w is a sound platform with this exchange and these rows of markets and outcomes. */
  ghost predicate Shows(w: World, cat: Catalog, x: X.Exchange, rows: MarketRows, opening: real) {
    w.x == x && w == K.Around(w, rows) && cat == rows.Catalog() && WorldOk(cat, w, opening)
  }

  /** The platform the settlement service sees: w, with its tables, books and markets. */
  ghost predicate SoundPlatform(t: T.SettlementService, cat: Catalog, w: World, opening: real)
    reads t.tables.markets, t.tables.outcomes
    reads t.trading.engine, t.trading.engine.engines.Values, t.trading.engine.arena
    reads t.trading.tables.users, t.trading.tables.positions, t.trading.tables.orders, t.trading.tables.trades
  {
    t.Valid() && Shows(w, cat, t.trading.State(), t.tables.Contents(), opening)
  }

  /** A new user comes in with the initial balance; a known one stays as it is. */
  method RegisterSoundly(t: T.SettlementService, user: UserId, ghost cat: Catalog, ghost w: World, ghost opening: real)
    returns (result: Result<()>)
    requires SoundPlatform(t, cat, w, opening)
    modifies t.trading.tables.users
    ensures result == if user in w.x.ledger.users then Err(UserExists) else Ok(())
    ensures var users := old(t.trading.tables.users.users);
      t.trading.tables.users.users == if result.Ok? then users[user := Account(1000.0, 0.0)] else users
    ensures SoundPlatform(t, cat, W.Register(w, user).0, opening)
  {
    RegisterKeepsWorld(cat, (a, b) => 0.0, w, user, opening);
    result := t.trading.tables.users.Create(user, Account(INITIAL_BALANCE, 0.0));
  }

  lemma StatusShown(cat: Catalog, w: World, s: Step, rows: MarketRows, rows': MarketRows, result: Result<()>,
      opening: real)
    requires Shows(w, cat, w.x, rows, opening) && rows'.Catalog() == rows.Catalog()
    requires match s
      case UpdateStatusStep(market, status) => W.UpdateStatus(w, market, status) == (K.Around(w, rows'), result)
      case MarkResolvedStep(market, winner) => W.MarkResolved(cat, w, market, winner) == (K.Around(w, rows'), result)
      case _ => false
    ensures Shows(K.Around(w, rows'), cat, w.x, rows', opening)
  {
    StatusKeepsWorld(cat, (a, b) => 0.0, w, s, opening);
  }

  /** A market moves exactly along the allowed transitions. */
  method UpdateStatusSoundly(k: K.MarketService, t: T.SettlementService, market: MarketId, status: L.MarketStatus,
      ghost cat: Catalog, ghost w: World, ghost opening: real)
    returns (result: Result<()>)
    requires SoundPlatform(t, cat, w, opening) && k.tables == t.tables
    modifies t.tables.markets
    ensures result == if market !in w.markets then Err(MarketNotFound)
                      else if !Effects.Allowed(w.markets[market].status, status) then Err(BadRequest)
                      else Ok(())
    ensures var markets := old(t.tables.markets.markets);
      t.tables.markets.markets ==
        if result.Ok? then markets[market := L.Market(status, markets[market].resolvedOutcome)] else markets
    ensures SoundPlatform(t, cat, W.UpdateStatus(w, market, status).0, opening)
  {
    ghost var rows := t.tables.Contents();
    result := k.UpdateMarketStatus(market, status, w);
    Effects.UpdateStatusEffect(w, market, status);
    StatusShown(cat, w, UpdateStatusStep(market, status), rows, t.tables.Contents(), result, opening);
  }

  /** The market service resolves exactly closed markets, to one of their own outcomes. */
  method MarkResolvedSoundly(k: K.MarketService, t: T.SettlementService, market: MarketId, winner: OutcomeId,
      ghost cat: Catalog, ghost w: World, ghost opening: real)
    returns (result: Result<()>)
    requires SoundPlatform(t, cat, w, opening) && k.tables == t.tables
    modifies t.tables.markets, t.tables.outcomes
    ensures result == if market !in w.markets then Err(MarketNotFound)
                      else if !IsClosed(w, market) || !OutcomeIn(cat, market, winner) then Err(BadRequest)
                      else Ok(())
    ensures var markets := old(t.tables.markets.markets);
      t.tables.markets.markets == if result.Ok? then markets[market := L.Market(L.Resolved, Some(winner))] else markets
    ensures SoundPlatform(t, cat, W.MarkResolved(cat, w, market, winner).0, opening)
  {
    ghost var rows := t.tables.Contents();
    result := k.ResolveMarket(market, winner, w);
    Effects.MarkResolvedEffect(cat, w, market, winner);
    StatusShown(cat, w, MarkResolvedStep(market, winner), rows, t.tables.Contents(), result, opening);
  }

  /** A resolution succeeds exactly for a closed market and one of its outcomes, and leaves a
      sound platform: the one on which ResolutionPaysExactly says who was paid what. */
  method ResolveSoundly(t: T.SettlementService, market: MarketId, winner: OutcomeId, ghost cat: Catalog, ghost w: World,
      ghost opening: real)
    returns (result: Result<()>, ghost orders: seq<Row>, ghost listing: seq<Listed>)
    requires SoundPlatform(t, cat, w, opening)
    modifies t.tables.markets, t.tables.outcomes, t.trading.engine, t.trading.engine.arena
    modifies t.trading.tables.users, t.trading.tables.positions, t.trading.tables.orders, t.trading.tables.trades
    ensures result.Ok? <==> IsClosed(w, market) && OutcomeIn(cat, market, winner)
    ensures IsClosed(w, market) && OutcomeIn(cat, market, winner) ==>
      Possible(cat, w, ResolveStep(market, winner, orders, listing))
    ensures SoundPlatform(t, cat, W.ResolveMarket(cat, w, market, winner, orders, listing).0, opening)
  {
    AgreementKeepsIdsOnce(w.x.ledger.orders, w.x.books);
    result, orders, listing := t.ResolveMarket(market, winner, w);
    if IsClosed(w, market) && OutcomeIn(cat, market, winner) {
      MC.CancelAllWorks(cat, w.x, market, orders, w.audit.lost);
      Solvency.ResolutionPaysExactly(cat, w, market, winner, orders, listing, opening);
      SettlementKeepsWorld(cat, (a, b) => 0.0, w, ResolveStep(market, winner, orders, listing), opening);
    }
  }

  /** A market's cancellation succeeds exactly for a closed market, and leaves a sound
      platform: the one on which CancellationRefundsExactly says who was refunded what. */
  method CancelMarketSoundly(t: T.SettlementService, market: MarketId, ghost cat: Catalog, ghost w: World,
      ghost opening: real)
    returns (result: Result<()>, ghost orders: seq<Row>, ghost listing: seq<Listed>)
    requires SoundPlatform(t, cat, w, opening)
    modifies t.tables.markets, t.tables.outcomes, t.trading.engine, t.trading.engine.arena
    modifies t.trading.tables.users, t.trading.tables.positions, t.trading.tables.orders, t.trading.tables.trades
    ensures result.Ok? <==> IsClosed(w, market)
    ensures IsClosed(w, market) ==> Possible(cat, w, CancelMarketStep(market, orders, listing))
    ensures SoundPlatform(t, cat, W.CancelMarket(w, market, orders, listing).0, opening)
  {
    AgreementKeepsIdsOnce(w.x.ledger.orders, w.x.books);
    result, orders, listing := t.CancelMarket(market, w);
    if IsClosed(w, market) {
      MC.CancelAllWorks(cat, w.x, market, orders, w.audit.lost);
      Solvency.CancellationRefundsExactly(cat, w, market, orders, listing, opening);
      SettlementKeepsWorld(cat, (a, b) => 0.0, w, CancelMarketStep(market, orders, listing), opening);
    }
  }
}
