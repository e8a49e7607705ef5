/** Who pays and who is paid by an accepted placement, for every user and every position: the
    whole of both tables afterwards, from the tables before and the trades answered. */
module Proceeds {
  import opened Domain
  import opened Matching
  import opened Ledger
  import opened Exchange
  import opened Funds
  import opened Agreement
  import opened Placement
  import opened Cash
  import opened AveragePrice

  // ---- accounts ----

  /** The value of the trades in which a user is the maker. */
  function MakerValue(ts: seq<Trade>, user: UserId): real {
    if ts == [] then 0.0
    else (if ts[0].makerUser == user then ts[0].price * ts[0].quantity else 0.0) + MakerValue(ts[1..], user)
  }

  /** A maker's account after trades of some value with a taker on that side: a selling maker
      receives the value, a buying one pays it out of what it had locked. */
  function MakerAfter(a: Account, takerSide: Side, value: real): Account {
    if takerSide.Buy? then Account(a.balance + value, a.locked) else Account(a.balance, a.locked - value)
  }

  lemma MakerAccountStep(div: Division, l: Ledger, side: Side, limit: real, t: Trade, user: UserId)
    requires SettleTrade(div, l, side, limit, t).Ok? && t.takerUser != t.makerUser
    requires user in l.users && user != t.takerUser
    ensures var users := SettleTrade(div, l, side, limit, t).value.users;
      users.Keys == l.users.Keys
      && users[user] == MakerAfter(l.users[user], side, if t.makerUser == user then t.price * t.quantity else 0.0)
  {
    assert (t.price - t.price) * t.quantity == 0.0;
  }

  /** Settling a taker's trades moves every other user's account by what its own trades are
      worth, and no more. */
  lemma {:induction false} MakerAccountAfter(div: Division, l: Ledger, side: Side, limit: real, ts: seq<Trade>,
      taker: UserId, user: UserId)
    requires SettleAll(div, l, side, limit, ts).Ok? && user in l.users && user != taker
    requires forall t | t in ts :: t.takerUser == taker && t.makerUser != taker
    ensures var users := SettleAll(div, l, side, limit, ts).value.users;
      user in users && users[user] == MakerAfter(l.users[user], side, MakerValue(ts, user))
    decreases |ts|
  {
    if ts != [] {
      assert ts[0] in ts;
      MakerAccountStep(div, l, side, limit, ts[0], user);
      MakerAccountAfter(div, SettleTrade(div, l, side, limit, ts[0]).value, side, limit, ts[1..], taker, user);
    }
  }

  /** A user's account after an accepted placement: the taker of a buy is out its trades' value
      and has its limit for the rest locked; the taker of a sell receives its trades' value. */
  function AccountAfter(a: Account, r: Row, ts: seq<Trade>, user: UserId): Account {
    if user != r.user then MakerAfter(a, r.side, MakerValue(ts, user))
    else if r.side.Buy? then
      Account(a.balance - TradedValue(ts) - r.price * (r.quantity - Traded(ts)),
              a.locked + r.price * (r.quantity - Traded(ts)))
    else Account(a.balance + TradedValue(ts), a.locked)
  }

  lemma TakerAccount(l: Ledger, r: Row, ts: seq<Trade>)
    requires Covered(l, r) && r.user in l.users
    ensures TakerAfter(AtEngine(l, r).users[r.user], r.side, r.price, Traded(ts), TradedValue(ts))
         == AccountAfter(l.users[r.user], r, ts, r.user)
  {
    assert r.price * (r.quantity - Traded(ts)) == r.price * r.quantity - r.price * Traded(ts);
  }

  lemma TradesBetween(x: Exchange, r: Row)
    requires ReadyToPlace(x.ledger.orders, x.books, r)
    ensures forall t | t in MatchAt(x, r).trades ::
      && t.takerUser == r.user && t.makerUser != r.user && t.quantity > 0.0
      && t.market == r.market && t.outcome == r.outcome
  {
    MatchedTakerTrades(x, r);
    ReadyBook(x.ledger.orders, x.books, r);
    TradesRespectLimit(r, OtherSide(x.books, r));
  }

  /** After an accepted placement every account is what its own part in the trades makes of it:
      each maker of a buy receives price times quantity of its trades, each maker of a sell
      pays that out of its locked balance, and nobody else's account moves. */
  lemma AccountsFollowTrades(div: Division, cat: Catalog, x: Exchange, r: Row, lost: map<OutcomeId, real>)
    requires KeepsBounds(div) && Inv(cat, x, lost) && Request(cat, x, r) && Accepts(x, r)
    ensures PlaceOrder(div, x, r).result.Ok?
    ensures var users, users' := x.ledger.users, PlaceOrder(div, x, r).state.ledger.users;
      var ts := PlaceOrder(div, x, r).result.value.trades;
      users'.Keys == users.Keys && forall u | u in users :: users'[u] == AccountAfter(users[u], r, ts, u)
  {
    var l, ts := AtEngine(x.ledger, r), MatchAt(x, r).trades;
    AcceptedPlacement(div, cat, x, r, lost);
    AcceptedReply(div, x, r);
    TradesBetween(x, r);
    PlaceOrderConservesCash(div, x, r);
    var users' := PlaceOrder(div, x, r).state.ledger.users;
    forall u | u in x.ledger.users ensures users'[u] == AccountAfter(x.ledger.users[u], r, ts, u) {
      if u == r.user {
        TakerAccountAfter(div, l, r.side, r.price, ts, u);
        TakerAccount(x.ledger, r, ts);
      } else {
        MakerAccountAfter(div, l, r.side, r.price, ts, r.user, u);
      }
    }
  }

  // ---- positions ----

  /** A position once a sell has set its quantity aside. */
  function LessEscrow(l: Ledger, r: Row, h: Holding): Position {
    var p := PositionAt(l, h, r.market);
    if r.side.Sell? && h == Holding(r.user, r.outcome) then p.(quantity := p.quantity - r.quantity) else p
  }

  lemma {:induction false} SettledHoldings(div: Division, l: Ledger, side: Side, limit: real, ts: seq<Trade>,
      h: Holding)
    requires SettleAll(div, l, side, limit, ts).Ok?
    ensures h in SettleAll(div, l, side, limit, ts).value.positions <==> h in l.positions || FillsOf(side, h, ts) != []
    decreases |ts|
  {
    if ts != [] { SettledHoldings(div, SettleTrade(div, l, side, limit, ts[0]).value, side, limit, ts[1..], h); }
  }

  lemma PlacedPositions(div: Division, x: Exchange, r: Row)
    requires Accepts(x, r) && r.id !in x.ledger.orders
    requires SettlePlacement(div, AtEngine(x.ledger, r), r, MatchAt(x, r)).Ok?
    ensures SettleAll(div, AtEngine(x.ledger, r), r.side, r.price, MatchAt(x, r).trades).Ok?
    ensures PlaceOrder(div, x, r).state.ledger.positions
         == SettleAll(div, AtEngine(x.ledger, r), r.side, r.price, MatchAt(x, r).trades).value.positions
  {
    AcceptedReply(div, x, r);
  }

  lemma EscrowedPosition(cat: Catalog, l: Ledger, r: Row, h: Holding)
    requires PositionsOk(cat, l) && Covered(l, r)
    ensures PositionAt(AtEngine(l, r), h, r.market) == LessEscrow(l, r, h)
    ensures LessEscrow(l, r, h).quantity >= 0.0
    ensures h in AtEngine(l, r).positions <==> h in l.positions
  {
    if h in l.positions { assert PositionOk(cat, l.users, h, l.positions[h]); }
  }

  /** A holding before and after a placement with these trades. */
  ghost predicate PositionFollows(div: Division, l: Ledger, l': Ledger, r: Row, ts: seq<Trade>, h: Holding) {
    var fills := FillsOf(r.side, h, ts);
    && (h in l'.positions <==> h in l.positions || fills != [])
    && PositionAt(l', h, r.market) == BuyAll(div, LessEscrow(l, r, h), fills)
    && PositionAt(l', h, r.market).quantity == LessEscrow(l, r, h).quantity + FillQuantity(fills)
  }

  /** After an accepted placement every position has gone through exactly its holder's own
      purchases among the trades, in their order, from what it was less what a sell set
      aside; positions come into being for buyers only. */
  lemma PositionsFollowTrades(div: Division, cat: Catalog, x: Exchange, r: Row, lost: map<OutcomeId, real>, h: Holding)
    requires KeepsBounds(div) && Inv(cat, x, lost) && Request(cat, x, r) && Accepts(x, r)
    ensures PlaceOrder(div, x, r).result.Ok?
    ensures PositionFollows(div, x.ledger, PlaceOrder(div, x, r).state.ledger, r,
                            PlaceOrder(div, x, r).result.value.trades, h)
  {
    var l, ts := AtEngine(x.ledger, r), MatchAt(x, r).trades;
    AcceptedPlacement(div, cat, x, r, lost);
    AcceptedReply(div, x, r);
    PlacedPositions(div, x, r);
    TradesBetween(x, r);
    EscrowedPosition(cat, x.ledger, r, h);
    SettledHoldings(div, l, r.side, r.price, ts, h);
    SettlementBuysAll(div, l, r.side, r.price, ts, h, r.market);
    BuyAllAdds(div, LessEscrow(x.ledger, r, h), FillsOf(r.side, h, ts));
  }
}
