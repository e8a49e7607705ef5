/** Paying out the positions of a market: winners at resolution, everyone's average price at
    cancellation. */
module Payments {
  import opened Domain
  import opened Sums
  import opened Funds

  /** A position as the market's listing shows it. */
  datatype Listed = Listed(holding: Holding, position: Position)

  datatype Payment = Payment(user: UserId, amount: real)

  /** One unit per winning share held. */
  function Payouts(listing: seq<Listed>, winner: OutcomeId): seq<Payment> {
    if listing == [] then []
    else
      var l := listing[0];
      (if l.holding.outcome == winner && l.position.quantity > 0.0
       then [Payment(l.holding.user, l.position.quantity)] else [])
      + Payouts(listing[1..], winner)
  }

  /** What a position is refunded at its average price. */
  function RefundOf(p: Position): real { p.quantity * p.avgPrice }

  /** The average price of every share held. */
  function Refunds(listing: seq<Listed>): seq<Payment> {
    if listing == [] then []
    else
      var l := listing[0];
      var refund := RefundOf(l.position);
      (if l.position.quantity > 0.0 && refund > 0.0 then [Payment(l.holding.user, refund)] else [])
      + Refunds(listing[1..])
  }

  /** Credits the payments one by one; an unknown user stops it. */
  function PayAll(users: map<UserId, Account>, ps: seq<Payment>): Result<map<UserId, Account>>
    decreases |ps|
  {
    if ps == [] then Ok(users)
    else if ps[0].user !in users then Err(UserNotFound)
    else
      var a := users[ps[0].user];
      PayAll(users[ps[0].user := a.(balance := a.balance + ps[0].amount)], ps[1..])
  }

  function PaidTo(ps: seq<Payment>, user: UserId): real {
    if ps == [] then 0.0
    else (if ps[0].user == user then ps[0].amount else 0.0) + PaidTo(ps[1..], user)
  }

  function Total(ps: seq<Payment>): real {
    if ps == [] then 0.0 else ps[0].amount + Total(ps[1..])
  }

  /** Every user's balance grows by exactly the sum of what is paid to it, nothing else
      moves, and the cash in circulation grows by the total. */
  lemma {:induction false} PayAllIsExact(users: map<UserId, Account>, ps: seq<Payment>)
    requires forall p | p in ps :: p.user in users
    ensures PayAll(users, ps).Ok?
    ensures var users' := PayAll(users, ps).value;
      && users'.Keys == users.Keys
      && (forall u | u in users ::
            users'[u] == users[u].(balance := users[u].balance + PaidTo(ps, u)))
      && TotalCash(users') == TotalCash(users) + Total(ps)
    decreases |ps|
  {
    if ps != [] {
      var u := ps[0].user;
      assert ps[0] in ps;
      var a := users[u].(balance := users[u].balance + ps[0].amount);
      TotalCashUpdate(users, u, a);
      PayAllIsExact(users[u := a], ps[1..]);
    }
  }

  lemma {:induction false} PaidToAppend(a: seq<Payment>, b: seq<Payment>, user: UserId)
    ensures PaidTo(a + b, user) == PaidTo(a, user) + PaidTo(b, user)
  {
    if a == [] {
      assert a + b == b;
    } else {
      assert (a + b)[1..] == a[1..] + b;
      PaidToAppend(a[1..], b, user);
    }
  }

  /** What a user is owed at resolution: its listed winning shares. */
  function WinningShares(listing: seq<Listed>, winner: OutcomeId, user: UserId): real {
    if listing == [] then 0.0
    else
      var l := listing[0];
      (if l.holding.outcome == winner && l.holding.user == user && l.position.quantity > 0.0
       then l.position.quantity else 0.0)
      + WinningShares(listing[1..], winner, user)
  }

  /** What a user is owed at cancellation: quantity times average over its positions. */
  function RefundDue(listing: seq<Listed>, user: UserId): real {
    if listing == [] then 0.0
    else
      var l := listing[0];
      (if l.holding.user == user && l.position.quantity > 0.0
       then l.position.quantity * l.position.avgPrice else 0.0)
      + RefundDue(listing[1..], user)
  }

  lemma {:induction false} PayoutsArePaid(listing: seq<Listed>, winner: OutcomeId, user: UserId)
    ensures PaidTo(Payouts(listing, winner), user) == WinningShares(listing, winner, user)
  {
    if listing != [] {
      PayoutsArePaid(listing[1..], winner, user);
      var l := listing[0];
      var first := if l.holding.outcome == winner && l.position.quantity > 0.0
                   then [Payment(l.holding.user, l.position.quantity)] else [];
      PaidToAppend(first, Payouts(listing[1..], winner), user);
      if first != [] { assert first[1..] == []; }
    }
  }

  lemma {:induction false} RefundsArePaid(listing: seq<Listed>, user: UserId)
    requires forall l | l in listing :: l.position.avgPrice >= 0.0
    ensures PaidTo(Refunds(listing), user) == RefundDue(listing, user)
  {
    if listing != [] {
      var l := listing[0];
      assert l in listing;
      RefundsArePaid(listing[1..], user);
      var refund := l.position.quantity * l.position.avgPrice;
      var first := if l.position.quantity > 0.0 && refund > 0.0 then [Payment(l.holding.user, refund)] else [];
      PaidToAppend(first, Refunds(listing[1..]), user);
      if l.position.quantity > 0.0 { assert refund >= 0.0; }
      if first != [] { assert first[1..] == []; }
    }
  }

  lemma {:induction false} RefundDueAppend(a: seq<Listed>, b: seq<Listed>, user: UserId)
    ensures RefundDue(a + b, user) == RefundDue(a, user) + RefundDue(b, user)
  {
    if a == [] {
      assert a + b == b;
    } else {
      assert (a + b)[1..] == a[1..] + b;
      RefundDueAppend(a[1..], b, user);
    }
  }

  lemma ListedTakeOut(s: seq<Listed>, j: nat, user: UserId)
    requires j < |s|
    ensures RefundDue(s, user) == RefundDue([s[j]], user) + RefundDue(s[..j] + s[j + 1..], user)
    ensures multiset(s) == multiset(s[..j] + s[j + 1..]) + multiset{s[j]}
  {
    var t := [s[j]] + s[j + 1..];
    assert s == s[..j] + t;
    RefundDueAppend(s[..j], t, user);
    RefundDueAppend([s[j]], s[j + 1..], user);
    RefundDueAppend(s[..j], s[j + 1..], user);
  }

  /** Refunds do not depend on the order in which positions are listed. */
  lemma {:induction false} RefundsIgnoreOrder(a: seq<Listed>, b: seq<Listed>, user: UserId)
    requires multiset(a) == multiset(b)
    ensures RefundDue(a, user) == RefundDue(b, user)
  {
    if a == [] {
      assert |multiset(b)| == 0;
    } else {
      assert a[0] in multiset(b);
      var j :| 0 <= j < |b| && b[j] == a[0];
      var b' := b[..j] + b[j + 1..];
      ListedTakeOut(b, j, user);
      assert a == [a[0]] + a[1..];
      assert multiset(a[1..]) == multiset(a) - multiset{a[0]};
      RefundsIgnoreOrder(a[1..], b', user);
      RefundDueAppend([a[0]], a[1..], user);
    }
  }

  // ---- the total paid at resolution ----

  /** A listing of a market's positions: each exactly once, in any order. */
  ghost predicate ListsPositions(positions: map<Holding, Position>, market: MarketId, listing: seq<Listed>) {
    && (forall i, j | 0 <= i < j < |listing| :: listing[i].holding != listing[j].holding)
    && (forall l :: l in listing <==>
          l.holding in positions && positions[l.holding] == l.position && l.position.market == market)
  }

  lemma {:induction false} TotalAppend(a: seq<Payment>, b: seq<Payment>)
    ensures Total(a + b) == Total(a) + Total(b)
  {
    if a == [] {
      assert a + b == b;
    } else {
      assert (a + b)[1..] == a[1..] + b;
      TotalAppend(a[1..], b);
    }
  }

  /** Positions still to be paid, as the listing is worked off. */
  ghost predicate Covers(positions: map<Holding, Position>, outcome: OutcomeId, listing: seq<Listed>) {
    && (forall i, j | 0 <= i < j < |listing| :: listing[i].holding != listing[j].holding)
    && (forall l | l in listing :: l.holding in positions && positions[l.holding] == l.position)
    && (forall h | h in positions && h.outcome == outcome :: Listed(h, positions[h]) in listing)
    && (forall h | h in positions :: positions[h].quantity >= 0.0)
  }

  lemma CoversRest(positions: map<Holding, Position>, winner: OutcomeId, listing: seq<Listed>)
    requires Covers(positions, winner, listing) && listing != []
    ensures Covers(positions - {listing[0].holding}, winner, listing[1..])
  {
    var positions' := positions - {listing[0].holding};
    assert forall i | 0 <= i < |listing[1..]| :: listing[1..][i] == listing[i + 1];
    forall h | h in positions' && h.outcome == winner ensures Listed(h, positions'[h]) in listing[1..] {
      assert Listed(h, positions[h]) in listing;
    }
  }

  /** Resolution pays out exactly the winning outcome's shares held. */
  lemma {:induction false} PayoutTotal(positions: map<Holding, Position>, winner: OutcomeId, listing: seq<Listed>)
    requires Covers(positions, winner, listing)
    ensures Total(Payouts(listing, winner)) == Held(positions, winner)
    decreases |listing|
  {
    var w := map h | h in positions :: ShareWeight(h, positions[h], winner);
    if listing == [] {
      assert forall h | h in positions :: h.outcome == winner ==> Listed(h, positions[h]) in listing;
      SumZero(w);
    } else {
      var l := listing[0];
      var h := l.holding;
      assert l in listing;
      var positions' := positions - {h};
      SumTakeOut(w, h);
      assert w - {h} == map k | k in positions' :: ShareWeight(k, positions'[k], winner);
      CoversRest(positions, winner, listing);
      PayoutTotal(positions', winner, listing[1..]);
      var first := if h.outcome == winner && l.position.quantity > 0.0 then [Payment(h.user, l.position.quantity)]
                   else [];
      TotalAppend(first, Payouts(listing[1..], winner));
      if first != [] { assert first[1..] == []; }
    }
  }

  /** Each user is paid exactly its winning shares. */
  lemma {:induction false} WinnersAreOwed(positions: map<Holding, Position>, winner: OutcomeId, listing: seq<Listed>,
      user: UserId)
    requires Covers(positions, winner, listing)
    ensures WinningShares(listing, winner, user)
         == if Holding(user, winner) in positions then positions[Holding(user, winner)].quantity else 0.0
    decreases |listing|
  {
    if listing != [] {
      assert listing[0] in listing;
      CoversRest(positions, winner, listing);
      WinnersAreOwed(positions - {listing[0].holding}, winner, listing[1..], user);
    }
  }
}
