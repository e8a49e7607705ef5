/** What the ledger owes to whom, and that every settlement step keeps it: locked balances
    back open buys, and shares are conserved for every outcome. */
module Funds {
  import opened Domain
  import opened Ledger
  import opened Sums

  /** The market of each outcome: every outcome belongs to one. */
  type Catalog = map<OutcomeId, MarketId>

  // ---- sums over the tables ----

  /** What an order locks of a user's balance. */
  function LockedWeight(r: Row, user: UserId): real {
    if r.user == user && r.side.Buy? && r.Live() then r.price * r.Remaining() else 0.0
  }

  /** What an order holds in escrow of an outcome's shares. */
  function EscrowWeight(r: Row, outcome: OutcomeId): real {
    if r.outcome == outcome && r.side.Sell? && r.Live() then r.Remaining() else 0.0
  }

  function ShareWeight(h: Holding, p: Position, outcome: OutcomeId): real {
    if h.outcome == outcome then p.quantity else 0.0
  }

  ghost function LockedBy(orders: map<OrderId, Row>, user: UserId): real {
    Sum(map id | id in orders :: LockedWeight(orders[id], user))
  }

  ghost function Escrowed(orders: map<OrderId, Row>, outcome: OutcomeId): real {
    Sum(map id | id in orders :: EscrowWeight(orders[id], outcome))
  }

  ghost function Held(positions: map<Holding, Position>, outcome: OutcomeId): real {
    Sum(map h | h in positions :: ShareWeight(h, positions[h], outcome))
  }

  /** All the cash there is, available and locked. */
  ghost function TotalCash(users: map<UserId, Account>): real {
    Sum(map u | u in users :: users[u].balance + users[u].locked)
  }

  function Minted(mints: seq<MintTx>, market: MarketId): real {
    if mints == [] then 0.0
    else Minted(mints[..|mints| - 1], market)
         + (if mints[|mints| - 1].market == market then mints[|mints| - 1].quantity else 0.0)
  }

  function LostOf(lost: map<OutcomeId, real>, outcome: OutcomeId): real {
    if outcome in lost then lost[outcome] else 0.0
  }

  lemma LockedByUpdate(orders: map<OrderId, Row>, id: OrderId, r: Row, user: UserId)
    ensures LockedBy(orders[id := r], user)
         == LockedBy(orders, user) - (if id in orders then LockedWeight(orders[id], user) else 0.0)
            + LockedWeight(r, user)
  {
    var w := map i | i in orders :: LockedWeight(orders[i], user);
    SumUpdate(w, id, LockedWeight(r, user));
    var orders' := orders[id := r];
    assert (map i | i in orders' :: LockedWeight(orders'[i], user))
        == w[id := LockedWeight(r, user)];
  }

  lemma EscrowedUpdate(orders: map<OrderId, Row>, id: OrderId, r: Row, outcome: OutcomeId)
    ensures Escrowed(orders[id := r], outcome)
         == Escrowed(orders, outcome) - (if id in orders then EscrowWeight(orders[id], outcome) else 0.0)
            + EscrowWeight(r, outcome)
  {
    var w := map i | i in orders :: EscrowWeight(orders[i], outcome);
    SumUpdate(w, id, EscrowWeight(r, outcome));
    var orders' := orders[id := r];
    assert (map i | i in orders' :: EscrowWeight(orders'[i], outcome))
        == w[id := EscrowWeight(r, outcome)];
  }

  lemma HeldUpdate(positions: map<Holding, Position>, h: Holding, p: Position, outcome: OutcomeId)
    ensures Held(positions[h := p], outcome)
         == Held(positions, outcome)
            - (if h in positions then ShareWeight(h, positions[h], outcome) else 0.0)
            + ShareWeight(h, p, outcome)
  {
    var w := map i | i in positions :: ShareWeight(i, positions[i], outcome);
    SumUpdate(w, h, ShareWeight(h, p, outcome));
    var positions' := positions[h := p];
    assert (map i | i in positions' :: ShareWeight(i, positions'[i], outcome))
        == w[h := ShareWeight(h, p, outcome)];
  }

  lemma TotalCashUpdate(users: map<UserId, Account>, u: UserId, a: Account)
    ensures TotalCash(users[u := a])
         == TotalCash(users) - (if u in users then users[u].balance + users[u].locked else 0.0)
            + (a.balance + a.locked)
  {
    var w := map i | i in users :: users[i].balance + users[i].locked;
    SumUpdate(w, u, a.balance + a.locked);
    var users' := users[u := a];
    assert (map i | i in users' :: users'[i].balance + users'[i].locked)
        == w[u := a.balance + a.locked];
  }

  // ---- the invariant ----

  /** No balance is negative, and each locked balance is what the user's open buys need. */
  ghost predicate AccountsOk(users: map<UserId, Account>, orders: map<OrderId, Row>) {
    && (forall u | u in users :: users[u].balance >= 0.0)
    && (forall u {:trigger LockedBy(orders, u)} | u in users :: users[u].locked == LockedBy(orders, u))
  }

  predicate OrderOk(cat: Catalog, l: Ledger, r: Row) {
    && r.user in l.users
    && r.outcome in cat && cat[r.outcome] == r.market
    && PriceInRange(r.price)
    && 0.0 <= r.filled <= r.quantity && r.quantity > 0.0
    && (r.Live() && r.side.Sell? ==> Holding(r.user, r.outcome) in l.positions)
  }

  ghost predicate OrdersOk(cat: Catalog, l: Ledger, orders: map<OrderId, Row>) {
    forall id | id in orders :: orders[id].id == id && OrderOk(cat, l, orders[id])
  }

  predicate PositionOk(cat: Catalog, users: map<UserId, Account>, h: Holding, p: Position) {
    && h.user in users
    && h.outcome in cat && cat[h.outcome] == p.market
    && p.quantity >= 0.0
    && MIN_PRICE <= p.avgPrice <= 1.0
  }

  ghost predicate PositionsOk(cat: Catalog, l: Ledger) {
    forall h | h in l.positions :: PositionOk(cat, l.users, h, l.positions[h])
  }

  /** Every share minted is held, in escrow, or lost. */
  ghost predicate SharesOk(cat: Catalog, l: Ledger, orders: map<OrderId, Row>, lost: map<OutcomeId, real>) {
    && (forall o {:trigger LostOf(lost, o)} | o in cat :: LostOf(lost, o) >= 0.0)
    && forall o {:trigger Escrowed(orders, o)} | o in cat ::
      Held(l.positions, o) + Escrowed(orders, o) + LostOf(lost, o) == Minted(l.mints, cat[o])
  }

  /** The funds invariant. `orders` is the order table, except that while an order is being
      settled it shows the taker's row as the engine has it. */
  ghost predicate FundsOk(cat: Catalog, l: Ledger, orders: map<OrderId, Row>, lost: map<OutcomeId, real>) {
    && AccountsOk(l.users, orders)
    && OrdersOk(cat, l, orders)
    && PositionsOk(cat, l)
    && SharesOk(cat, l, orders, lost)
  }

  /** Rounding keeps an average between two prices between them. */
  ghost predicate KeepsBounds(div: Division) {
    forall a, b {:trigger div(a, b)} | b > 0.0 && 0.01 * b <= a <= b :: 0.01 <= div(a, b) <= 1.0
  }

  // ---- one change at a time ----

  function OldLocked(orders: map<OrderId, Row>, id: OrderId, user: UserId): real {
    if id in orders then LockedWeight(orders[id], user) else 0.0
  }

  function OldEscrow(orders: map<OrderId, Row>, id: OrderId, outcome: OutcomeId): real {
    if id in orders then EscrowWeight(orders[id], outcome) else 0.0
  }

  /** An account and an order of the same user change together. */
  lemma AccountFollowsOrder(users: map<UserId, Account>, orders: map<OrderId, Row>, a: Account, r: Row)
    requires AccountsOk(users, orders) && r.user in users
    requires r.id in orders ==> orders[r.id].user == r.user
    requires a.balance >= 0.0
    requires a.locked - users[r.user].locked == LockedWeight(r, r.user) - OldLocked(orders, r.id, r.user)
    ensures AccountsOk(users[r.user := a], orders[r.id := r])
  {
    forall u | u in users ensures
      (if u == r.user then a.locked else users[u].locked) == LockedBy(orders[r.id := r], u)
    {
      LockedByUpdate(orders, r.id, r, u);
    }
  }

  /** An order that locks as much as before changes no account. */
  lemma OrderLocksAsBefore(users: map<UserId, Account>, orders: map<OrderId, Row>, r: Row)
    requires AccountsOk(users, orders)
    requires forall u | u in users :: LockedWeight(r, u) == OldLocked(orders, r.id, u)
    ensures AccountsOk(users, orders[r.id := r])
  {
    forall u | u in users ensures users[u].locked == LockedBy(orders[r.id := r], u) {
      LockedByUpdate(orders, r.id, r, u);
    }
  }

  // ---- escrow ----

  predicate NewOrder(cat: Catalog, l: Ledger, r: Row) {
    && r.id !in l.orders
    && PriceInRange(r.price) && r.quantity > 0.0 && r.filled == 0.0 && r.status == Open
    && r.outcome in cat && cat[r.outcome] == r.market
  }

  /** Rows stay well-formed while users and positions only gain. */
  lemma TablesKept(cat: Catalog, l: Ledger, l': Ledger, r: Row)
    requires OrdersOk(cat, l, l.orders) && PositionsOk(cat, l)
    requires l.users.Keys <= l'.users.Keys && l.positions.Keys <= l'.positions.Keys
    requires OrderOk(cat, l', r)
    requires forall h | h in l'.positions ::
      (h in l.positions && l'.positions[h] == l.positions[h]) || PositionOk(cat, l'.users, h, l'.positions[h])
    ensures OrdersOk(cat, l', l.orders[r.id := r]) && PositionsOk(cat, l')
  {
    forall h | h in l'.positions ensures PositionOk(cat, l'.users, h, l'.positions[h]) {
      if h in l.positions { assert PositionOk(cat, l.users, h, l.positions[h]); }
    }
    forall id | id in l.orders ensures OrderOk(cat, l', l.orders[id]) {
      assert OrderOk(cat, l, l.orders[id]);
    }
  }

  lemma EscrowSharesBuy(cat: Catalog, l: Ledger, r: Row, lost: map<OutcomeId, real>)
    requires SharesOk(cat, l, l.orders, lost) && r.side.Buy? && r.id !in l.orders && Escrow(l, r).Ok?
    ensures SharesOk(cat, Escrow(l, r).value, l.orders[r.id := r], lost)
  {
    var l' := Escrow(l, r).value;
    assert l'.positions == l.positions && l'.mints == l.mints;
    forall o | o in cat ensures Escrowed(l.orders[r.id := r], o) == Escrowed(l.orders, o) {
      EscrowedUpdate(l.orders, r.id, r, o);
    }
  }

  lemma EscrowBuyKeepsFunds(cat: Catalog, l: Ledger, r: Row, lost: map<OutcomeId, real>)
    requires FundsOk(cat, l, l.orders, lost) && NewOrder(cat, l, r) && Escrow(l, r).Ok? && r.side.Buy?
    ensures FundsOk(cat, Escrow(l, r).value, l.orders[r.id := r], lost)
  {
    var l' := Escrow(l, r).value;
    AccountFollowsOrder(l.users, l.orders, l'.users[r.user], r);
    EscrowSharesBuy(cat, l, r, lost);
    TablesKept(cat, l, l', r);
  }

  lemma EscrowSharesSell(cat: Catalog, l: Ledger, r: Row, lost: map<OutcomeId, real>)
    requires SharesOk(cat, l, l.orders, lost) && r.side.Sell? && r.id !in l.orders
    requires r.filled == 0.0 && r.status == Open && Escrow(l, r).Ok?
    ensures SharesOk(cat, Escrow(l, r).value, l.orders[r.id := r], lost)
  {
    var h := Holding(r.user, r.outcome);
    var l' := Escrow(l, r).value;
    forall o | o in cat
      ensures Held(l'.positions, o) + Escrowed(l.orders[r.id := r], o) == Held(l.positions, o) + Escrowed(l.orders, o)
    {
      EscrowedUpdate(l.orders, r.id, r, o);
      HeldUpdate(l.positions, h, l'.positions[h], o);
    }
  }

  lemma EscrowSellKeepsFunds(cat: Catalog, l: Ledger, r: Row, lost: map<OutcomeId, real>)
    requires FundsOk(cat, l, l.orders, lost) && NewOrder(cat, l, r) && Escrow(l, r).Ok? && r.side.Sell?
    ensures FundsOk(cat, Escrow(l, r).value, l.orders[r.id := r], lost)
  {
    var l' := Escrow(l, r).value;
    var h := Holding(r.user, r.outcome);
    assert PositionOk(cat, l.users, h, l.positions[h]);
    OrderLocksAsBefore(l.users, l.orders, r);
    EscrowSharesSell(cat, l, r, lost);
    TablesKept(cat, l, l', r);
  }

  /** A new order's escrow backs it: locked funds for a buy, shares for a sell. */
  lemma EscrowKeepsFunds(cat: Catalog, l: Ledger, r: Row, lost: map<OutcomeId, real>)
    requires FundsOk(cat, l, l.orders, lost) && NewOrder(cat, l, r) && Escrow(l, r).Ok?
    ensures var l' := Escrow(l, r).value;
      && l'.orders == l.orders && l'.mints == l.mints && l'.users.Keys == l.users.Keys
      && FundsOk(cat, l', l.orders[r.id := r], lost)
  {
    if r.side.Buy? {
      EscrowBuyKeepsFunds(cat, l, r, lost);
    } else {
      EscrowSellKeepsFunds(cat, l, r, lost);
    }
  }
}
