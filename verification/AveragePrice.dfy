/** How far rounded averages can drift from the true cost. */
module AveragePrice {
  import opened Domain
  import opened Ledger
  import opened Funds

  function Quotient(div: Division, a: real, b: real): real { div(a, b) }

  /** A quotient is off by at most e. */
  ghost predicate RoundsWithin(div: Division, e: real) {
    forall a, b {:trigger Quotient(div, a, b)} | b > 0.0 ::
      a - e * b <= Quotient(div, a, b) * b <= a + e * b
  }

  /** The whole multiple of 1/scale nearest to x, halves rounding up. */
  function Nearest(x: real, scale: real): real
    requires scale > 0.0
  {
    (x * scale + 0.5).Floor as real / scale
  }

  /** Division rounding half up to whole multiples of one unit, the unit being 1/scale. */
  function RoundHalfUp(scale: real): Division
    requires scale > 0.0
  {
    (a: real, b: real) => if b == 0.0 then 0.0 else Nearest(a / b, scale)
  }

  datatype Fill = Fill(price: real, quantity: real)

  /** What held shares have cost at their average and q more cost at a price. */
  function Mixed(avg: real, held: real, price: real, q: real): real { avg * held + price * q }

  /** One fill: its shares on top of those held, at the weighted average of both prices. */
  function AfterFill(div: Division, p: Position, f: Fill): Position {
    Position(p.market, p.quantity + f.quantity,
             div(Mixed(p.avgPrice, p.quantity, f.price, f.quantity), p.quantity + f.quantity))
  }

  /** A position after a run of fills, each at its own weighted average. */
  function BuyAll(div: Division, p: Position, fills: seq<Fill>): Position
    decreases |fills|
  {
    if fills == [] then p else BuyAll(div, AfterFill(div, p, fills[0]), fills[1..])
  }

  function FillQuantity(fills: seq<Fill>): real {
    if fills == [] then 0.0 else fills[0].quantity + FillQuantity(fills[1..])
  }

  lemma {:induction false} BuyAllAdds(div: Division, p: Position, fills: seq<Fill>)
    ensures BuyAll(div, p, fills).quantity == p.quantity + FillQuantity(fills)
    ensures BuyAll(div, p, fills).market == p.market
    decreases |fills|
  {
    if fills != [] { BuyAllAdds(div, AfterFill(div, p, fills[0]), fills[1..]); }
  }

  lemma FillIsAddShares(div: Division, p: Position, f: Fill)
    requires p.quantity >= 0.0 && f.quantity > 0.0
    ensures AfterFill(div, p, f) == AddShares(div, p, f.price, f.quantity)
  {
    assert Mixed(p.avgPrice, p.quantity, f.price, f.quantity) == TotalCost(p, f.price, f.quantity);
  }

  function Cost(fills: seq<Fill>): real {
    if fills == [] then 0.0 else fills[0].price * fills[0].quantity + Cost(fills[1..])
  }

  /** What a position is worth at its stored average. */
  function Value(p: Position): real { p.avgPrice * p.quantity }

  /** The most that n roundings can add up to: e per rounding and share. */
  function Drift(e: real, n: nat, quantity: real): real {
    if n == 0 then 0.0 else e * quantity + Drift(e, n - 1, quantity)
  }

  /** n roundings of at most e, on each of so many shares. */
  function MostDrift(n: nat, e: real, quantity: real): real { n as real * (e * quantity) }

  lemma {:induction false} DriftIsProduct(e: real, n: nat, quantity: real)
    ensures Drift(e, n, quantity) == MostDrift(n, e, quantity)
  {
    if n > 0 {
      DriftIsProduct(e, n - 1, quantity);
      assert n as real * (e * quantity) == (n - 1) as real * (e * quantity) + e * quantity;
    }
  }

  predicate Near(truth: real, value: real, drift: real) {
    truth - drift <= value <= truth + drift
  }

  lemma NearByQuotient(div: Division, e: real, total: real, quantity: real, p': Position)
    requires RoundsWithin(div, e) && quantity > 0.0
    requires p'.quantity == quantity && p'.avgPrice == Quotient(div, total, quantity)
    ensures Near(total, Value(p'), e * p'.quantity)
  {
  }

  lemma OneFillDrift(div: Division, e: real, p: Position, f: Fill, p': Position)
    requires RoundsWithin(div, e) && p.quantity >= 0.0 && f.quantity > 0.0
    requires p' == AfterFill(div, p, f)
    ensures p'.quantity == p.quantity + f.quantity
    ensures Near(Value(p) + f.price * f.quantity, Value(p'), e * p'.quantity)
  {
    NearByQuotient(div, e, Mixed(p.avgPrice, p.quantity, f.price, f.quantity), p.quantity + f.quantity, p');
  }

  lemma Scale(x: real, y: real, f: real)
    requires x <= y && f >= 0.0
    ensures x * f <= y * f
  {
  }

  lemma NearStep(v0: real, v1: real, v2: real, paid: real, cost: real, first: real, most: real, later: real)
    requires first <= most && Near(v0 + paid, v1, first) && Near(v1 + cost, v2, later)
    ensures Near(v0 + (paid + cost), v2, most + later)
  {
  }

  /** A position ends near what it was worth plus what was paid. */
  predicate DriftBounded(e: real, p: Position, fills: seq<Fill>, p': Position) {
    Near(Value(p) + Cost(fills), Value(p'), Drift(e, |fills|, p'.quantity))
  }

  lemma FillsDriftStep(e: real, p: Position, p1: Position, p': Position, fills: seq<Fill>)
    requires e >= 0.0 && fills != [] && p1.quantity <= p'.quantity
    requires Near(Value(p) + fills[0].price * fills[0].quantity, Value(p1), e * p1.quantity)
    requires DriftBounded(e, p1, fills[1..], p')
    ensures DriftBounded(e, p, fills, p')
  {
    Scale(p1.quantity, p'.quantity, e);
    assert p1.quantity * e == e * p1.quantity && p'.quantity * e == e * p'.quantity;
    NearStep(Value(p), Value(p1), Value(p'), fills[0].price * fills[0].quantity, Cost(fills[1..]),
             e * p1.quantity, e * p'.quantity, Drift(e, |fills| - 1, p'.quantity));
  }

  lemma {:induction false} FillsDrift(div: Division, e: real, p: Position, fills: seq<Fill>)
    requires RoundsWithin(div, e) && e >= 0.0
    requires p.quantity >= 0.0 && forall f | f in fills :: f.quantity > 0.0
    ensures BuyAll(div, p, fills).quantity >= p.quantity
    ensures DriftBounded(e, p, fills, BuyAll(div, p, fills))
    decreases |fills|
  {
    if fills != [] {
      var p1 := AfterFill(div, p, fills[0]);
      OneFillDrift(div, e, p, fills[0], p1);
      FillsDrift(div, e, p1, fills[1..]);
      FillsDriftStep(e, p, p1, BuyAll(div, p, fills), fills);
    }
  }

  // ---- the fills a settlement makes ----

  function PositionAt(l: Ledger, h: Holding, market: MarketId): Position {
    if h in l.positions then l.positions[h] else Position(market, 0.0, 0.0)
  }

  /** What h buys in a trade of a taker on the given side: the taker or else the maker buys. */
  predicate BuysIn(side: Side, h: Holding, t: Trade) {
    t.outcome == h.outcome && h.user == if side.Buy? then t.takerUser else t.makerUser
  }

  /** The fills of one holder among a placement's trades. */
  function FillsOf(side: Side, h: Holding, ts: seq<Trade>): seq<Fill> {
    if ts == [] then []
    else (if BuysIn(side, h, ts[0]) then [Fill(ts[0].price, ts[0].quantity)] else [])
         + FillsOf(side, h, ts[1..])
  }

  /** Settling a placement's trades puts each holder through its own fills, in order. */
  lemma {:induction false} SettlementBuysAll(div: Division, l: Ledger, side: Side, limit: real, ts: seq<Trade>,
      h: Holding, market: MarketId)
    requires forall t | t in ts :: t.market == market && t.quantity > 0.0
    requires PositionAt(l, h, market).quantity >= 0.0
    requires SettleAll(div, l, side, limit, ts).Ok?
    ensures PositionAt(SettleAll(div, l, side, limit, ts).value, h, market)
         == BuyAll(div, PositionAt(l, h, market), FillsOf(side, h, ts))
    decreases |ts|
  {
    if ts != [] {
      var l1 := SettleTrade(div, l, side, limit, ts[0]).value;
      assert ts[0] in ts;
      if BuysIn(side, h, ts[0]) {
        FillIsAddShares(div, PositionAt(l, h, market), Fill(ts[0].price, ts[0].quantity));
        assert FillsOf(side, h, ts)[1..] == FillsOf(side, h, ts[1..]);
      } else {
        assert FillsOf(side, h, ts) == FillsOf(side, h, ts[1..]);
      }
      SettlementBuysAll(div, l1, side, limit, ts[1..], h, market);
    }
  }

  lemma {:induction false} FillsArePositive(side: Side, h: Holding, ts: seq<Trade>)
    requires forall t | t in ts :: t.quantity > 0.0
    ensures forall f | f in FillsOf(side, h, ts) :: f.quantity > 0.0
  {
    if ts != [] { FillsArePositive(side, h, ts[1..]); }
  }

  lemma SettlementDrift(div: Division, e: real, l: Ledger, side: Side, limit: real, ts: seq<Trade>, h: Holding,
      market: MarketId)
    requires RoundsWithin(div, e) && e >= 0.0
    requires PositionAt(l, h, market).quantity >= 0.0
    requires forall t | t in ts :: t.quantity > 0.0 && t.market == market
    requires SettleAll(div, l, side, limit, ts).Ok?
    ensures DriftBounded(e, PositionAt(l, h, market), FillsOf(side, h, ts),
                         PositionAt(SettleAll(div, l, side, limit, ts).value, h, market))
  {
    SettlementBuysAll(div, l, side, limit, ts, h, market);
    FillsArePositive(side, h, ts);
    FillsDrift(div, e, PositionAt(l, h, market), FillsOf(side, h, ts));
  }

  lemma DriftInFull(e: real, p: Position, fills: seq<Fill>, p': Position)
    requires DriftBounded(e, p, fills, p')
    ensures Near(Value(p) + Cost(fills), Value(p'), MostDrift(|fills|, e, p'.quantity))
  {
    DriftIsProduct(e, |fills|, p'.quantity);
  }

  /** After a placement's trades, the value of any position at its stored average is off
      from the true cost by at most the number of its fills times e times its quantity. */
  lemma AverageDrift(div: Division, e: real, l: Ledger, side: Side, limit: real, ts: seq<Trade>, h: Holding,
      market: MarketId)
    requires RoundsWithin(div, e) && e >= 0.0
    requires PositionAt(l, h, market).quantity >= 0.0
    requires forall t | t in ts :: t.quantity > 0.0 && t.market == market
    requires SettleAll(div, l, side, limit, ts).Ok?
    ensures var p := PositionAt(l, h, market);
      var p' := PositionAt(SettleAll(div, l, side, limit, ts).value, h, market);
      var fills := FillsOf(side, h, ts);
      Near(Value(p) + Cost(fills), Value(p'), MostDrift(|fills|, e, p'.quantity))
  {
    SettlementDrift(div, e, l, side, limit, ts, h, market);
    DriftInFull(e, PositionAt(l, h, market), FillsOf(side, h, ts),
                PositionAt(SettleAll(div, l, side, limit, ts).value, h, market));
  }

  lemma CancelFactor(x: real, y: real, f: real)
    requires f > 0.0 && x * f <= y * f
    ensures x <= y
  {
  }

  lemma NearestError(x: real, d: real, scale: real, unit: real)
    requires scale > 0.0 && unit == 0.5 / scale && d == Nearest(x, scale)
    ensures x - unit <= d <= x + unit
  {
    var n := (x * scale + 0.5).Floor as real;
    assert n / scale * scale == n && unit * scale == 0.5;
    assert (x - unit) * scale == x * scale - 0.5 && (x + unit) * scale == x * scale + 0.5;
    CancelFactor(x - unit, n / scale, scale);
    CancelFactor(n / scale, x + unit, scale);
  }

  lemma QuotientNearest(a: real, b: real, d: real, scale: real, unit: real)
    requires b > 0.0 && scale > 0.0 && unit == 0.5 / scale && d == Nearest(a / b, scale)
    ensures a - unit * b <= d * b <= a + unit * b
  {
    var x := a / b;
    assert x * b == a;
    NearestError(x, d, scale, unit);
    Scale(x - unit, d, b);
    Scale(d, x + unit, b);
    assert (x - unit) * b == x * b - unit * b && (x + unit) * b == x * b + unit * b;
  }

  lemma FractionInRange(n: int, k: nat, scale: real)
    requires k > 0 && scale == 100.0 * k as real && k <= n <= 100 * k
    ensures 0.01 <= n as real / scale <= 1.0
  {
    assert n as real / scale * scale == n as real;
    CancelFactor(0.01, n as real / scale, scale);
    CancelFactor(n as real / scale, 1.0, scale);
  }

  lemma NearestInRange(x: real, k: nat, scale: real)
    requires k > 0 && scale == 100.0 * k as real && 0.01 <= x <= 1.0
    ensures 0.01 <= Nearest(x, scale) <= 1.0
  {
    Scale(0.01, x, scale);
    Scale(x, 1.0, scale);
    var n := (x * scale + 0.5).Floor;
    assert k as real <= x * scale <= scale;
    assert n as real <= x * scale + 0.5 < n as real + 1.0;
    FractionInRange(n, k, scale);
  }

  lemma QuotientInRange(a: real, b: real, k: nat)
    requires k > 0 && b > 0.0 && 0.01 * b <= a <= b
    ensures 0.01 <= Nearest(a / b, 100.0 * k as real) <= 1.0
  {
    assert a / b * b == a;
    CancelFactor(0.01, a / b, b);
    CancelFactor(a / b, 1.0, b);
    NearestInRange(a / b, k, 100.0 * k as real);
  }

  /** Rounding half up to whole multiples of 1/(100 k), as to any number of decimal places
      from the second on, keeps averages in range and is off by at most half a unit. */
  lemma RoundHalfUpQualifies(k: nat)
    requires k > 0
    ensures KeepsBounds(RoundHalfUp(100.0 * k as real))
    ensures RoundsWithin(RoundHalfUp(100.0 * k as real), 0.5 / (100.0 * k as real))
  {
    var scale := 100.0 * k as real;
    var div := RoundHalfUp(scale);
    var unit := 0.5 / scale;
    forall a, b {:trigger div(a, b)} | b > 0.0
      ensures 0.01 * b <= a <= b ==> 0.01 <= div(a, b) <= 1.0
      ensures a - unit * b <= div(a, b) * b <= a + unit * b
    {
      QuotientNearest(a, b, div(a, b), scale, unit);
      if 0.01 * b <= a <= b { QuotientInRange(a, b, k); }
    }
  }
}
