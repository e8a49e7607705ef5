/** The life of a market: which status may follow which. */
module Lifecycle {
  import Domain

  datatype MarketStatus = Draft | Open | Closed | Resolved | Cancelled

  datatype Market = Market(status: MarketStatus, resolvedOutcome: Domain.Option<Domain.OutcomeId>)

  const VALID_TRANSITIONS: map<MarketStatus, seq<MarketStatus>> :=
    map[Draft := [Open], Open := [Closed], Closed := [Resolved, Cancelled]]

  predicate IsValidTransition(from: MarketStatus, to: MarketStatus) {
    from in VALID_TRANSITIONS && to in VALID_TRANSITIONS[from]
  }

  function Age(s: MarketStatus): nat {
    match s
    case Draft => 0
    case Open => 1
    case Closed => 2
    case Resolved => 3
    case Cancelled => 3
  }

  predicate Terminal(s: MarketStatus) { s.Resolved? || s.Cancelled? }

  /** Every transition advances the market by exactly one stage; only closed markets reach a
      terminal status, and nothing leaves one. */
  lemma TransitionsAdvance(from: MarketStatus, to: MarketStatus)
    ensures IsValidTransition(from, to) <==> Age(to) == Age(from) + 1
    ensures IsValidTransition(from, to) && Terminal(to) ==> from == Closed
    ensures Terminal(from) ==> !IsValidTransition(from, to)
  {
    assert forall s :: s in VALID_TRANSITIONS <==> s in {Draft, Open, Closed};
  }
}
