/** Runs the program can make in which it does less than its comments say: one for each case
    whose exact condition is proved elsewhere. */
module Shortfalls {
  import opened Domain
  import opened FlatBook
  import opened Ledger
  import opened Exchange
  import opened Funds
  import opened Placement
  import opened Cancellation
  import opened Minting
  import opened Payments
  import opened Refunding
  import opened World
  import opened Solvency
  import opened Matching
  import B = BookRuns
  import Q = QueueJump
  import L = Lifecycle

  const ALICE := UserId("alice")
  const BOB := UserId("bob")
  const MARKET := MarketId("market")
  const YES := OutcomeId("yes")
  const NO := OutcomeId("no")

  function OrderOf(id: string, user: UserId, side: Side, quantity: real): Row {
    Row(OrderId(id), user, MARKET, YES, side, 0.5, quantity, 0.0, Open)
  }

  // ---- time priority ----

  lemma RestsUnmatched(b: Book, r: Row)
    requires B.Incoming(r) && b.SideRows(r.side.Opposite()) == []
    ensures Place(b, r) == b.WithSide(r.side, Insert(r.side, b.SideRows(r.side), r))
  {
    assert Match(r, []) == Matched([], r, [], [], []);
  }

  /** Two asks at one price rest in the order of their arrival. */
  lemma TwoAsksRest(first: Row, second: Row)
    requires B.Incoming(first) && B.Incoming(second) && first.side.Sell? && second.side.Sell?
    requires first.id != second.id && first.price == second.price
    ensures var ops := [B.PlaceOp(first), B.PlaceOp(second)];
      B.FreshRun(EMPTY_BOOK, ops) && B.Run(EMPTY_BOOK, ops) == Book([], [first, second])
  {
    var ops := [B.PlaceOp(first), B.PlaceOp(second)];
    RestsUnmatched(EMPTY_BOOK, first);
    RestsUnmatched(Book([], [first]), second);
    assert Insert(Sell, [first], second) == [first] + Insert(Sell, [], second);
    assert ops[1..] == [B.PlaceOp(second)] && ops[1..][1..] == [];
    assert B.Step(EMPTY_BOOK, ops[0]) == Book([], [first]);
    assert B.Step(Book([], [first]), ops[1]) == Book([], [first, second]);
    assert B.Run(Book([], [first]), ops[1..]) == B.Run(Book([], [first, second]), []);
    assert B.FreshRun(Book([], [first]), ops[1..]);
  }

  /** A buyer passes over its own ask and takes part of the next: its own goes behind. */
  lemma OwnAskGoesBehind(taker: Row, own: Row, other: Row)
    requires taker.side.Buy? && taker.price >= own.price == other.price
    requires taker.user == own.user != other.user && 0.0 < taker.Remaining() < other.Remaining()
    ensures var m := Match(taker, [own, other]); var part := FillMaker(other, taker.Remaining());
      && m.skipped == [own] && m.rest == [part] && AfterMatch(taker, [own, other]) == [part, own]
      && Q.Overtakes(taker, [own, other], 0, 1)
  {
    var book := [own, other];
    var part := FillMaker(other, taker.Remaining());
    assert book[1..] == [other];
    assert Match(taker, [other]).skipped == [] && Match(taker, [other]).rest == [part] + [][..];
    assert Insert(Sell, [part], own) == [part] + Insert(Sell, [], own);
    assert InsertAll(Sell, [part], [own]) == InsertAll(Sell, [part, own], []);
    assert book[..0] == [] && book[..1] == [own] && book[..2] == [own, other];
    assert OthersOf(taker.user, [other]) == [other] + OthersOf(taker.user, []);
    assert OthersOf(taker.user, book) == [other];
  }

  /** Two asks rest at one price, the earlier the taker's own, and the taker's own loses its
      place: it ends up behind. */
  predicate LosesPlace(own: Row, other: Row, taker: Row) {
    var ops := [B.PlaceOp(own), B.PlaceOp(other)];
    var book := B.Run(EMPTY_BOOK, ops).asks;
    && B.FreshRun(EMPTY_BOOK, ops) && B.Incoming(taker)
    && Q.Overtakes(taker, book, 0, 1)
    && AfterMatch(taker, book) != Match(taker, book).skipped + Match(taker, book).rest
  }

  lemma PartialFillLosesPlace(own: Row, other: Row, taker: Row)
    requires B.Incoming(own) && B.Incoming(other) && B.Incoming(taker)
    requires own.side.Sell? && other.side.Sell? && taker.side.Buy? && own.id != other.id
    requires taker.price >= own.price == other.price
    requires taker.user == own.user != other.user && taker.quantity < other.quantity
    ensures LosesPlace(own, other, taker)
  {
    TwoAsksRest(own, other);
    OwnAskGoesBehind(taker, own, other);
    var part := FillMaker(other, taker.Remaining());
    assert [part, own][0] != ([own] + [part])[0];
  }

  /** It takes an ask of one's own, one of another user behind it, and a bid for part of that. */
  lemma OwnOrderLosesItsPlace() returns (own: Row, other: Row, taker: Row)
    ensures LosesPlace(own, other, taker)
  {
    own, other := OrderOf("1", ALICE, Sell, 10.0), OrderOf("22", BOB, Sell, 10.0);
    taker := OrderOf("333", ALICE, Buy, 5.0);
    PartialFillLosesPlace(own, other, taker);
  }

  // ---- minting and cancelling ----

  /** What one successful mint does for one of the outcomes. */
  ghost predicate MintAdded(l: Ledger, l': Ledger, user: UserId, market: MarketId, quantity: real, o: OutcomeId) {
    var h := Holding(user, o);
    && h in l'.positions && l'.positions[h] == Position(market, quantity, 1.0)
    && Held(l'.positions, o) == Held(l.positions, o) + quantity - SharesAt(l.positions, h)
    && Minted(l'.mints, market) == Minted(l.mints, market) + quantity
    && l'.users.Keys == l.users.Keys && l'.orders == l.orders
    && user in l.users && l'.users[user].balance == l.users[user].balance - quantity
  }

  lemma MintAdds(l: Ledger, user: UserId, market: MarketId, outcomes: seq<OutcomeId>, quantity: real, o: OutcomeId)
    requires (forall i, j | 0 <= i < j < |outcomes| :: outcomes[i] != outcomes[j]) && o in outcomes
    requires Mint(l, user, market, outcomes, quantity).Ok?
    ensures MintAdded(l, Mint(l, user, market, outcomes, quantity).value, user, market, quantity, o)
  {
    MintPositionsAt(l.positions, user, market, outcomes, quantity);
    MintedHeld(l.positions, user, market, outcomes, quantity, o);
    MintedAdds(l.mints, MintTx(user, market, quantity, quantity), market);
  }

  lemma MintStepAdds(cat: Catalog, div: Division, w: World, user: UserId, market: MarketId, outcomes: seq<OutcomeId>,
      quantity: real, o: OutcomeId)
    requires OutcomesOf(cat, market, outcomes) && o in outcomes
    requires user in w.x.ledger.users && w.x.ledger.users[user].balance >= quantity
    ensures var w' := Next(cat, div, w, MintStep(user, market, outcomes, quantity));
      && MintAdded(w.x.ledger, w'.x.ledger, user, market, quantity, o)
      && LostOf(w'.audit.lost, o)
           == LostOf(w.audit.lost, o) + SharesAt(w.x.ledger.positions, Holding(user, o))
      && w'.x.books == w.x.books && w'.markets == w.markets && w'.audit.paid == w.audit.paid
  {
    MintAdds(w.x.ledger, user, market, outcomes, quantity, o);
  }

  lemma TwoSteps(cat: Catalog, div: Division, w: World, s: Step, t: Step)
    requires Possible(cat, w, s) && Possible(cat, Next(cat, div, w, s), t)
    ensures PossibleRun(cat, div, w, [s, t])
    ensures Run(cat, div, w, [s, t]) == Next(cat, div, Next(cat, div, w, s), t)
  {
    var w1 := Next(cat, div, w, s);
    assert [s, t][1..] == [t] && [t][1..] == [];
    assert Run(cat, div, w1, [t]) == Run(cat, div, Next(cat, div, w1, t), []);
    assert PossibleRun(cat, div, Next(cat, div, w1, t), []);
    assert PossibleRun(cat, div, w1, [t]);
  }

  lemma ThreeSteps(cat: Catalog, div: Division, w: World, s: Step, t: Step, u: Step)
    requires Possible(cat, w, s)
    requires PossibleRun(cat, div, Next(cat, div, w, s), [t, u])
    ensures PossibleRun(cat, div, w, [s, t, u])
    ensures Run(cat, div, w, [s, t, u]) == Run(cat, div, Next(cat, div, w, s), [t, u])
  {
    assert [s, t, u][1..] == [t, u];
  }

  /** Of two sets a user mints one after the other, the first is lost. */
  lemma SecondMintOverwrites(cat: Catalog, div: Division, w: World, user: UserId, market: MarketId,
      outcomes: seq<OutcomeId>, first: real, second: real, o: OutcomeId)
    requires Initial(w) && OutcomesOf(cat, market, outcomes) && o in outcomes && first > 0.0 && second > 0.0
    requires user in w.x.ledger.users && w.x.ledger.users[user].balance >= first + second
    ensures var steps := [MintStep(user, market, outcomes, first), MintStep(user, market, outcomes, second)];
      var w' := Run(cat, div, w, steps);
      && PossibleRun(cat, div, w, steps)
      && Minted(w'.x.ledger.mints, market) == first + second
      && Held(w'.x.ledger.positions, o) == second
      && LostOf(w'.audit.lost, o) == first
  {
    var w1 := Next(cat, div, w, MintStep(user, market, outcomes, first));
    MintStepAdds(cat, div, w, user, market, outcomes, first, o);
    MintStepAdds(cat, div, w1, user, market, outcomes, second, o);
    TwoSteps(cat, div, w, MintStep(user, market, outcomes, first), MintStep(user, market, outcomes, second));
  }

  /** An order that finds no opposing orders rests, unfilled. */
  lemma PlacedRowRests(div: Division, x: Exchange, r: Row)
    requires Accepts(x, r) && r.filled == 0.0 && r.status == Open && r.id !in x.ledger.orders
    requires BookAt(x.books, KeyOf(r)).SideRows(r.side.Opposite()) == []
    ensures PlaceOrder(div, x, r).state.ledger.orders == x.ledger.orders[r.id := r]
  {
    assert Match(r, []) == Matched([], r, [], [], []);
    assert Settled(r) == r;
  }

  /** A sell that rests and is cancelled by its owner is lost entirely. */
  lemma CancelledSellIsLost(cat: Catalog, div: Division, w: World, r: Row, opening: real)
    requires WorldOk(cat, w, opening) && KeepsBounds(div) && Request(cat, w.x, r) && Accepts(w.x, r) && r.side.Sell?
    requires BookAt(w.x.books, KeyOf(r)).bids == []
    ensures var steps := [PlaceStep(r), CancelStep(r.user, r.id)];
      && PossibleRun(cat, div, w, steps)
      && LostOf(Run(cat, div, w, steps).audit.lost, r.outcome) == LostOf(w.audit.lost, r.outcome) + r.quantity
  {
    var w1 := Next(cat, div, w, PlaceStep(r));
    PlacedRowRests(div, w.x, r);
    PlaceKeepsWorld(cat, div, w, r, opening);
    CancelOrderKeepsInv(cat, w1.x, r.user, r.id, w1.audit.lost);
    TwoSteps(cat, div, w, PlaceStep(r), CancelStep(r.user, r.id));
  }

  /** A platform with one user and one open market of two outcomes. */
  const START := World(Exchange(Ledger(map[ALICE := Account(1000.0, 0.0)], map[], map[], [], []), map[]),
                       map[MARKET := L.Market(L.Open, None)], {}, Audit(map[], 0.0, map[], map[]))

  const CATALOG: Catalog := map[YES := MARKET, NO := MARKET]

  lemma TwoOutcomes()
    ensures Initial(START) && OutcomesOf(CATALOG, MARKET, [YES, NO])
  {
    assert |YES.text| != |NO.text|;
  }

  /** Fifteen sets minted, and five of an outcome held. */
  lemma MintingLosesShares(div: Division) returns (w: World, steps: seq<Step>)
    ensures Initial(w) && PossibleRun(CATALOG, div, w, steps)
    ensures var w' := Run(CATALOG, div, w, steps);
      && Minted(w'.x.ledger.mints, MARKET) == 15.0
      && Held(w'.x.ledger.positions, YES) == 5.0 && LostOf(w'.audit.lost, YES) == 10.0
  {
    w := START;
    TwoOutcomes();
    SecondMintOverwrites(CATALOG, div, w, ALICE, MARKET, [YES, NO], 10.0, 5.0, YES);
    steps := [MintStep(ALICE, MARKET, [YES, NO], 10.0), MintStep(ALICE, MARKET, [YES, NO], 5.0)];
  }

  lemma FirstMintKeepsWorld(cat: Catalog, div: Division, w: World, user: UserId, market: MarketId,
      outcomes: seq<OutcomeId>, quantity: real)
    requires Initial(w) && OutcomesOf(cat, market, outcomes) && quantity > 0.0
    ensures WorldOk(cat, Next(cat, div, w, MintStep(user, market, outcomes, quantity)), TotalCash(w.x.ledger.users))
  {
    InitialIsOk(cat, w);
    MintKeepsWorld(cat, div, w, user, market, outcomes, quantity, TotalCash(w.x.ledger.users));
  }

  lemma OfferAccepted(x: Exchange, r: Row, quantity: real)
    requires B.Incoming(r) && r.side.Sell? && r.quantity <= quantity
    requires Holding(r.user, r.outcome) in x.ledger.positions
    requires x.ledger.positions[Holding(r.user, r.outcome)].quantity == quantity
    ensures Accepts(x, r)
  {
  }

  lemma MintedCanBeOffered(cat: Catalog, div: Division, w: World, outcomes: seq<OutcomeId>, quantity: real, r: Row)
    requires Initial(w) && OutcomesOf(cat, r.market, outcomes) && r.outcome in outcomes
    requires r.user in w.x.ledger.users && w.x.ledger.users[r.user].balance >= quantity
    requires B.Incoming(r) && r.side.Sell? && r.quantity <= quantity
    ensures var w1 := Next(cat, div, w, MintStep(r.user, r.market, outcomes, quantity));
      && WorldOk(cat, w1, TotalCash(w.x.ledger.users))
      && Request(cat, w1.x, r) && Accepts(w1.x, r) && BookAt(w1.x.books, KeyOf(r)).bids == []
      && LostOf(w1.audit.lost, r.outcome) == 0.0
  {
    var w1 := Next(cat, div, w, MintStep(r.user, r.market, outcomes, quantity));
    FirstMintKeepsWorld(cat, div, w, r.user, r.market, outcomes, quantity);
    MintStepAdds(cat, div, w, r.user, r.market, outcomes, quantity, r.outcome);
    OfferAccepted(w1.x, r, quantity);
  }

  /** Shares minted, part of them offered, and the offer withdrawn: that part is lost. */
  lemma WithdrawnOfferIsLost(cat: Catalog, div: Division, w: World, outcomes: seq<OutcomeId>, quantity: real, r: Row)
    requires Initial(w) && KeepsBounds(div) && OutcomesOf(cat, r.market, outcomes) && r.outcome in outcomes
    requires r.user in w.x.ledger.users && w.x.ledger.users[r.user].balance >= quantity
    requires B.Incoming(r) && r.side.Sell? && r.quantity <= quantity
    ensures var steps := [MintStep(r.user, r.market, outcomes, quantity), PlaceStep(r), CancelStep(r.user, r.id)];
      && PossibleRun(cat, div, w, steps)
      && LostOf(Run(cat, div, w, steps).audit.lost, r.outcome) == r.quantity
  {
    var mint := MintStep(r.user, r.market, outcomes, quantity);
    var w1 := Next(cat, div, w, mint);
    MintedCanBeOffered(cat, div, w, outcomes, quantity, r);
    CancelledSellIsLost(cat, div, w1, r, TotalCash(w.x.ledger.users));
    ThreeSteps(cat, div, w, mint, PlaceStep(r), CancelStep(r.user, r.id));
  }

  /** Ten shares minted, four of them offered, the offer withdrawn: the four are lost. */
  lemma CancellingLosesShares(div: Division) returns (w: World, steps: seq<Step>)
    requires KeepsBounds(div)
    ensures Initial(w) && PossibleRun(CATALOG, div, w, steps)
    ensures LostOf(Run(CATALOG, div, w, steps).audit.lost, YES) == 4.0
  {
    w := START;
    TwoOutcomes();
    var r := OrderOf("1", ALICE, Sell, 4.0);
    WithdrawnOfferIsLost(CATALOG, div, w, [YES, NO], 10.0, r);
    steps := [MintStep(ALICE, MARKET, [YES, NO], 10.0), PlaceStep(r), CancelStep(ALICE, r.id)];
  }

  // ---- refunds ----

  /** The listing of what one mint into empty tables creates. */
  function MintedListing(user: UserId, market: MarketId, outcomes: seq<OutcomeId>, quantity: real): seq<Listed> {
    seq(|outcomes|, i requires 0 <= i < |outcomes| =>
      Listed(Holding(user, outcomes[i]), Position(market, quantity, 1.0)))
  }

  lemma MintedIsListed(user: UserId, market: MarketId, outcomes: seq<OutcomeId>, quantity: real)
    requires forall i, j | 0 <= i < j < |outcomes| :: outcomes[i] != outcomes[j]
    ensures ListsPositions(MintPositions(map[], user, market, outcomes, quantity), market,
                           MintedListing(user, market, outcomes, quantity))
  {
    var positions := MintPositions(map[], user, market, outcomes, quantity);
    var listing := MintedListing(user, market, outcomes, quantity);
    MintPositionsAt(map[], user, market, outcomes, quantity);
    forall l: Listed | l.holding in positions && positions[l.holding] == l.position ensures l in listing {
      var i :| 0 <= i < |outcomes| && outcomes[i] == l.holding.outcome;
      assert listing[i] == l;
    }
  }

  /** What the tables owe and the vault holds after one mint into empty tables. */
  lemma OneMintOwes(l: Ledger, user: UserId, market: MarketId, outcomes: seq<OutcomeId>, quantity: real)
    requires l.positions == map[] && l.orders == map[] && l.mints == []
    requires forall i, j | 0 <= i < j < |outcomes| :: outcomes[i] != outcomes[j]
    requires Mint(l, user, market, outcomes, quantity).Ok?
    ensures var l' := Mint(l, user, market, outcomes, quantity).value;
      && RefundsOwed(l', market) == SetsWorth(|outcomes|, quantity)
      && CollectedFor(l'.mints, market) == quantity
  {
    var l' := Mint(l, user, market, outcomes, quantity).value;
    MintedValue(l.positions, user, market, outcomes, quantity);
    assert l'.orders == map[];
    assert l'.mints == [MintTx(user, market, quantity, quantity)] && l'.mints[..0] == [];
  }

  /** A closed market that owes some refund, lists these positions, and collected so much. */
  ghost predicate ReadyToCancel(cat: Catalog, w: World, market: MarketId, listing: seq<Listed>, owed: real,
      collected: real, opening: real)
  {
    && WorldOk(cat, w, opening) && IsClosed(w, market)
    && w.x.ledger.orders == map[] && ListsPositions(w.x.ledger.positions, market, listing)
    && RefundsOwed(w.x.ledger, market) == owed && CollectedFor(w.x.ledger.mints, market) == collected
  }

  lemma CloseReady(cat: Catalog, div: Division, w: World, market: MarketId, opening: real)
    requires WorldOk(cat, w, opening) && market in w.markets && w.markets[market].status == L.Open
    ensures var w' := Next(cat, div, w, UpdateStatusStep(market, L.Closed));
      WorldOk(cat, w', opening) && IsClosed(w', market) && w'.x == w.x
  {
    StatusKeepsWorld(cat, div, w, UpdateStatusStep(market, L.Closed), opening);
    L.TransitionsAdvance(L.Open, L.Closed);
  }

  lemma MintReady(cat: Catalog, div: Division, w: World, user: UserId, market: MarketId, outcomes: seq<OutcomeId>,
      quantity: real)
    requires Initial(w) && OutcomesOf(cat, market, outcomes) && outcomes != []
    requires market in w.markets && w.markets[market].status == L.Open
    requires quantity > 0.0 && user in w.x.ledger.users && w.x.ledger.users[user].balance >= quantity
    ensures var w1 := Next(cat, div, w, MintStep(user, market, outcomes, quantity));
      ReadyToCancel(cat, Next(cat, div, w1, UpdateStatusStep(market, L.Closed)), market,
                    MintedListing(user, market, outcomes, quantity), SetsWorth(|outcomes|, quantity), quantity,
                    TotalCash(w.x.ledger.users))
  {
    var opening := TotalCash(w.x.ledger.users);
    FirstMintKeepsWorld(cat, div, w, user, market, outcomes, quantity);
    OneMintOwes(w.x.ledger, user, market, outcomes, quantity);
    MintedIsListed(user, market, outcomes, quantity);
    CloseReady(cat, div, Next(cat, div, w, MintStep(user, market, outcomes, quantity)), market, opening);
  }

  lemma CancelReady(cat: Catalog, div: Division, w: World, market: MarketId, listing: seq<Listed>, owed: real,
      collected: real, opening: real)
    requires ReadyToCancel(cat, w, market, listing, owed, collected, opening)
    ensures Possible(cat, w, CancelMarketStep(market, [], listing))
    ensures var w' := Next(cat, div, w, CancelMarketStep(market, [], listing));
      PaidFor(w'.audit, market) == owed && CollectedFor(w'.x.ledger.mints, market) == collected
  {
    CancellationRefundsExactly(cat, w, market, [], listing, opening);
  }

  /** A market of n outcomes, one mint into it, and its cancellation: the refund is n times
      what the mint collected. */
  lemma CancellationOverpays(cat: Catalog, div: Division, w: World, user: UserId, market: MarketId,
      outcomes: seq<OutcomeId>, quantity: real)
    requires Initial(w) && OutcomesOf(cat, market, outcomes) && outcomes != []
    requires market in w.markets && w.markets[market].status == L.Open
    requires quantity > 0.0 && user in w.x.ledger.users && w.x.ledger.users[user].balance >= quantity
    ensures var listing := MintedListing(user, market, outcomes, quantity);
      var steps := [MintStep(user, market, outcomes, quantity), UpdateStatusStep(market, L.Closed),
                    CancelMarketStep(market, [], listing)];
      var w' := Run(cat, div, w, steps);
      && PossibleRun(cat, div, w, steps)
      && CollectedFor(w'.x.ledger.mints, market) == quantity
      && PaidFor(w'.audit, market) == SetsWorth(|outcomes|, quantity)
  {
    var listing := MintedListing(user, market, outcomes, quantity);
    var mint, close := MintStep(user, market, outcomes, quantity), UpdateStatusStep(market, L.Closed);
    var w1 := Next(cat, div, w, mint);
    MintReady(cat, div, w, user, market, outcomes, quantity);
    CancelReady(cat, div, Next(cat, div, w1, close), market, listing, SetsWorth(|outcomes|, quantity), quantity,
                TotalCash(w.x.ledger.users));
    TwoSteps(cat, div, w1, close, CancelMarketStep(market, [], listing));
    ThreeSteps(cat, div, w, mint, close, CancelMarketStep(market, [], listing));
  }

  /** Ten sets of two outcomes minted, and the market cancelled: twenty go out of the ten
      that came in. */
  lemma RefundsExceedTheVault(div: Division) returns (w: World, steps: seq<Step>)
    ensures Initial(w) && PossibleRun(CATALOG, div, w, steps)
    ensures var w' := Run(CATALOG, div, w, steps);
      CollectedFor(w'.x.ledger.mints, MARKET) == 10.0 && PaidFor(w'.audit, MARKET) == 20.0
  {
    w := START;
    TwoOutcomes();
    CancellationOverpays(CATALOG, div, w, ALICE, MARKET, [YES, NO], 10.0);
    steps := [MintStep(ALICE, MARKET, [YES, NO], 10.0), UpdateStatusStep(MARKET, L.Closed),
              CancelMarketStep(MARKET, [], MintedListing(ALICE, MARKET, [YES, NO], 10.0))];
  }
}
