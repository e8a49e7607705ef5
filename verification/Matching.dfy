/** What matching does to a side of the book, against references that do not mention how
    it is computed: a greedy allocation over the eligible orders, and a split of the side. */
module Matching {
  import opened Domain
  import opened FlatBook

  function SumRemaining(s: seq<Row>): real {
    if s == [] then 0.0 else s[0].Remaining() + SumRemaining(s[1..])
  }

  function SumFilled(s: seq<Row>): real {
    if s == [] then 0.0 else s[0].filled + SumFilled(s[1..])
  }

  function Traded(ts: seq<Trade>): real {
    if ts == [] then 0.0 else ts[0].quantity + Traded(ts[1..])
  }

  function OwnOf(user: UserId, s: seq<Row>): seq<Row> {
    if s == [] then []
    else (if s[0].user == user then [s[0]] else []) + OwnOf(user, s[1..])
  }

  function OthersOf(user: UserId, s: seq<Row>): seq<Row> {
    if s == [] then []
    else (if s[0].user == user then [] else [s[0]]) + OthersOf(user, s[1..])
  }

  /** The leading rows a taker accepts in price. */
  function Accepted(side: Side, limit: real, book: seq<Row>): seq<Row> {
    if book == [] || !Crosses(side, limit, book[0].price) then []
    else [book[0]] + Accepted(side, limit, book[1..])
  }

  /** The orders a taker may trade with, in price-time order. */
  function Eligible(taker: Row, book: seq<Row>): seq<Row> {
    OthersOf(taker.user, Accepted(taker.side, taker.price, book))
  }

  predicate AllOpen(s: seq<Row>) { forall r | r in s :: r.Remaining() > 0.0 }

  // ---- conservation of quantity ----

  /** The taker gains exactly what was traded, the makers gain the same, and the opposing
      side loses the same; no maker is filled beyond its quantity. */
  lemma {:induction false} MatchConservesQuantity(taker: Row, book: seq<Row>)
    ensures var m := Match(taker, book);
      && m.taker == taker.(filled := taker.filled + Traded(m.trades))
      && SumRemaining(book) == Traded(m.trades) + SumRemaining(m.skipped) + SumRemaining(m.rest)
      && SumFilled(m.consumed) + SumFilled(m.skipped) + SumFilled(m.rest)
           == SumFilled(book) + Traded(m.trades)
      && (taker.Remaining() >= 0.0 ==> m.taker.Remaining() >= 0.0)
      && forall c | c in m.consumed :: c.status.Filled? && c.filled == c.quantity
    decreases |book|
  {
    var m := Match(taker, book);
    if Stops(taker, book) {
    } else if taker.user == book[0].user {
      MatchConservesQuantity(taker, book[1..]);
    } else {
      var q := Min(taker.Remaining(), book[0].Remaining());
      var maker := FillMaker(book[0], q);
      var taker' := taker.(filled := taker.filled + q);
      if maker.Remaining() <= 0.0 {
        var m' := Match(taker', book[1..]);
        MatchConservesQuantity(taker', book[1..]);
        assert m.trades[1..] == m'.trades && m.consumed[1..] == m'.consumed;
      } else {
        assert m.trades[1..] == [] && m.rest[1..] == book[1..];
      }
    }
  }

  /** A price no worse than the taker's limit. */
  predicate Acceptable(taker: Row, price: real) {
    if taker.side.Buy? then price <= taker.price else price >= taker.price
  }

  /** A trade between the taker and a resting order names both, and is at the resting order's
      price. */
  predicate TradesWith(taker: Row, maker: Row, t: Trade) {
    && t.makerOrder == maker.id && t.makerUser == maker.user && t.price == maker.price
    && t.takerOrder == taker.id && t.takerUser == taker.user
    && t.market == taker.market && t.outcome == taker.outcome
  }

  predicate FairTrade(taker: Row, maker: Row, t: Trade) {
    && TradesWith(taker, maker, t)
    && 0.0 < t.quantity <= maker.Remaining()
    && maker.user != taker.user && Acceptable(taker, maker.price)
  }

  ghost predicate FairlyTraded(taker: Row, book: seq<Row>, t: Trade) {
    exists r | r in book :: FairTrade(taker, r, t)
  }

  /** Every trade is with an order of the side, another user's, at that order's price and no
      worse than the taker's limit, for no more than the order has left. */
  lemma {:induction false} TradesAreFair(taker: Row, book: seq<Row>)
    requires AllOpen(book)
    ensures forall t | t in Match(taker, book).trades :: FairlyTraded(taker, book, t)
    decreases |book|
  {
    if !Stops(taker, book) {
      var taker' := if taker.user == book[0].user then taker
                    else taker.(filled := taker.filled + Min(taker.Remaining(), book[0].Remaining()));
      TradesAreFair(taker', book[1..]);
      forall t | t in Match(taker, book).trades ensures FairlyTraded(taker, book, t) {
        if t in Match(taker', book[1..]).trades {
          var r :| r in book[1..] && FairTrade(taker', r, t);
          assert r in book && FairTrade(taker, r, t);
        } else {
          assert FairTrade(taker, book[0], t);
        }
      }
    }
  }

  /** Trades have positive quantity, at the maker's price, never worse than the limit. */
  lemma {:induction false} TradesRespectLimit(taker: Row, book: seq<Row>)
    requires AllOpen(book)
    ensures forall t | t in Match(taker, book).trades ::
      && t.quantity > 0.0 && Crosses(taker.side, taker.price, t.price)
      && t.makerUser != taker.user && t.takerUser == taker.user
      && t.takerOrder == taker.id && t.market == taker.market && t.outcome == taker.outcome
    decreases |book|
  {
    if !Stops(taker, book) {
      if taker.user == book[0].user {
        TradesRespectLimit(taker, book[1..]);
      } else {
        var q := Min(taker.Remaining(), book[0].Remaining());
        TradesRespectLimit(taker.(filled := taker.filled + q), book[1..]);
      }
    }
  }

  // ---- price-time priority ----

  /** Gives each order in turn all it can take, until nothing is left to give. */
  function Allocate(taker: Row, e: seq<Row>): seq<Trade>
    decreases |e|
  {
    if taker.Remaining() <= 0.0 || e == [] then []
    else
      var q := Min(taker.Remaining(), e[0].Remaining());
      [TradeOf(taker, e[0], q)] + Allocate(taker.(filled := taker.filled + q), e[1..])
  }

  lemma EligibleStep(taker: Row, book: seq<Row>)
    requires book != [] && Crosses(taker.side, taker.price, book[0].price)
    ensures Eligible(taker, book)
         == if taker.user == book[0].user then Eligible(taker, book[1..])
            else [book[0]] + Eligible(taker, book[1..])
  {
    assert Accepted(taker.side, taker.price, book)[1..] == Accepted(taker.side, taker.price, book[1..]);
  }

  /** Matching is the greedy allocation of the taker's quantity over the eligible orders. */
  lemma {:induction false} MatchIsGreedy(taker: Row, book: seq<Row>)
    ensures Match(taker, book).trades == Allocate(taker, Eligible(taker, book))
    decreases |book|
  {
    if !Stops(taker, book) {
      EligibleStep(taker, book);
      if taker.user == book[0].user {
        MatchIsGreedy(taker, book[1..]);
      } else {
        var q := Min(taker.Remaining(), book[0].Remaining());
        var taker' := taker.(filled := taker.filled + q);
        MatchIsGreedy(taker', book[1..]);
        assert Eligible(taker, book)[1..] == Eligible(taker', book[1..]);
      }
    }
  }

  /** The i-th trade takes all it can from the i-th eligible order after the first i have
      given all they had. */
  lemma {:induction false} AllocationByPosition(taker: Row, e: seq<Row>, i: nat)
    requires AllOpen(e) && i < |Allocate(taker, e)|
    ensures i < |e|
    ensures Allocate(taker, e)[i]
         == TradeOf(taker, e[i], Min(taker.Remaining() - SumRemaining(e[..i]), e[i].Remaining()))
    decreases |e|
  {
    if i > 0 {
      var q := Min(taker.Remaining(), e[0].Remaining());
      AllocationByPosition(taker.(filled := taker.filled + q), e[1..], i - 1);
      assert e[..i][1..] == e[1..][..i - 1];
    } else {
      assert SumRemaining(e[..0]) == 0.0;
    }
  }

  lemma {:induction false} SumNonNegative(s: seq<Row>)
    requires AllOpen(s)
    ensures SumRemaining(s) >= 0.0
  {
    if s != [] { SumNonNegative(s[1..]); }
  }

  /** Trading ends only when the taker or the eligible orders are used up. */
  lemma {:induction false} AllocationIsMaximal(taker: Row, e: seq<Row>)
    requires AllOpen(e) && taker.Remaining() >= 0.0
    ensures Traded(Allocate(taker, e)) == Min(taker.Remaining(), SumRemaining(e))
    decreases |e|
  {
    SumNonNegative(e);
    if taker.Remaining() > 0.0 && e != [] {
      var q := Min(taker.Remaining(), e[0].Remaining());
      AllocationIsMaximal(taker.(filled := taker.filled + q), e[1..]);
      SumNonNegative(e[1..]);
    }
  }

  lemma {:induction false} EligibleAreOpen(taker: Row, book: seq<Row>)
    requires AllOpen(book)
    ensures AllOpen(Eligible(taker, book))
    decreases |book|
  {
    if book != [] && Crosses(taker.side, taker.price, book[0].price) {
      EligibleAreOpen(taker, book[1..]);
      assert Accepted(taker.side, taker.price, book)[1..] == Accepted(taker.side, taker.price, book[1..]);
    }
  }

  /** The orders of a side a taker could trade with: another user's, at a price it accepts. */
  function Tradable(taker: Row, s: seq<Row>): seq<Row> {
    if s == [] then []
    else (if Acceptable(taker, s[0].price) && s[0].user != taker.user then [s[0]] else [])
         + Tradable(taker, s[1..])
  }

  lemma {:induction false} NothingTradable(taker: Row, s: seq<Row>)
    requires forall r | r in s :: !Acceptable(taker, r.price)
    ensures Tradable(taker, s) == []
  {
    if s != [] { NothingTradable(taker, s[1..]); }
  }

  /** On a sorted side the eligible orders are all those tradable, anywhere on the side. */
  lemma {:induction false} EligibleAreTradable(taker: Row, s: seq<Row>)
    requires Sorted(taker.side.Opposite(), s)
    ensures Eligible(taker, s) == Tradable(taker, s)
    decreases |s|
  {
    if s != [] {
      if Crosses(taker.side, taker.price, s[0].price) {
        EligibleStep(taker, s);
        EligibleAreTradable(taker, s[1..]);
      } else {
        NothingTradable(taker, s);
      }
    }
  }

  /** Matching is maximal: what the taker trades is all it wants or all there is to trade,
      whichever is less. */
  lemma MatchIsMaximal(taker: Row, s: seq<Row>)
    requires Sorted(taker.side.Opposite(), s) && AllOpen(s) && taker.Remaining() >= 0.0
    ensures Traded(Match(taker, s).trades) == Min(taker.Remaining(), SumRemaining(Tradable(taker, s)))
  {
    MatchIsGreedy(taker, s);
    EligibleAreOpen(taker, s);
    AllocationIsMaximal(taker, Eligible(taker, s));
    EligibleAreTradable(taker, s);
  }

  predicate InPriority(taker: Row, e: seq<Row>, ts: seq<Trade>, i: nat) {
    && i < |ts| && i < |e|
    && TradesWith(taker, e[i], ts[i])
    && ts[i].quantity == Min(taker.Remaining() - SumRemaining(e[..i]), e[i].Remaining())
  }

  lemma AllocationInPriority(taker: Row, e: seq<Row>, i: nat)
    requires AllOpen(e) && i < |Allocate(taker, e)|
    ensures InPriority(taker, e, Allocate(taker, e), i)
  {
    AllocationByPosition(taker, e, i);
  }

  /** Price-time priority of matching itself: its i-th trade takes all it can from the i-th
      tradable order, after those before it have given all they had. */
  lemma MatchTradesInPriority(taker: Row, s: seq<Row>, i: nat)
    requires Sorted(taker.side.Opposite(), s) && AllOpen(s) && i < |Match(taker, s).trades|
    ensures InPriority(taker, Tradable(taker, s), Match(taker, s).trades, i)
  {
    MatchIsGreedy(taker, s);
    EligibleAreOpen(taker, s);
    EligibleAreTradable(taker, s);
    AllocationInPriority(taker, Tradable(taker, s), i);
  }
}
