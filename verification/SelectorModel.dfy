/** The ticketed round-robin selector as a state machine, and what its retirement
    discipline guarantees in every reachable state (internal/pool/selector.go). */
module SelectorModel {

  datatype Candidate = Candidate(id: string, eligible: bool, halfOpen: bool)

  /** What one attempt reported: it gave up, or it connected at absolute position target - 1. */
  datatype Outcome = Aborted | Committed(target: nat)

  datatype Selector = Selector(
    cursor: nat,
    reservationNext: nat,
    nextTicket: nat,
    retireTicket: nat,
    results: map<nat, Outcome>)

  const NEW_SELECTOR := Selector(0, 0, 0, 0, map[])

  /** The locked part of Begin: it hands out ticket `nextTicket` and start `reservationNext`. */
  ghost function Reserve(s: Selector): Selector {
    s.(nextTicket := s.nextTicket + 1, reservationNext := s.reservationNext + 1)
  }

  ghost function RetireOne(s: Selector): Selector
    requires s.retireTicket in s.results
  {
    var outcome := s.results[s.retireTicket];
    s.(cursor := if outcome.Committed? && outcome.target > s.cursor then outcome.target else s.cursor,
       results := s.results - {s.retireTicket},
       retireTicket := s.retireTicket + 1)
  }

  /** Retires parked results in ticket order until the next one is missing. */
  ghost function Retire(s: Selector): Selector
    decreases |s.results|
  {
    if s.retireTicket in s.results then
      assert |s.results - {s.retireTicket}| < |s.results| by { ShrinkMap(s.results, s.retireTicket); }
      Retire(RetireOne(s))
    else s
  }

  lemma ShrinkMap<K, V>(m: map<K, V>, k: K)
    requires k in m
    ensures |m - {k}| == |m| - 1
  {
    assert (m - {k}).Keys == m.Keys - {k};
    assert |m.Keys - {k}| == |m.Keys| - 1;
  }

  ghost function Finish(s: Selector, ticket: nat, outcome: Outcome): Selector {
    var r := Retire(s.(results := s.results[ticket := outcome]));
    if r.retireTicket == r.nextTicket then r.(reservationNext := r.cursor) else r
  }

  /** What happened to a selector since it was created: the start handed to each ticket,
      every outcome reported so far, and the ticket and counter value with which the
      current busy period began. The selector itself keeps none of this. */
  datatype History = History(starts: seq<nat>, outcomes: map<nat, Outcome>, epoch: nat, base: nat)

  const NO_HISTORY := History([], map[], 0, 0)

  ghost function Reserved(s: Selector, h: History): History {
    h.(starts := h.starts + [s.reservationNext])
  }

  ghost function Finished(s: Selector, h: History, ticket: nat, outcome: Outcome): History {
    var next := Finish(s, ticket, outcome);
    var reported := h.(outcomes := h.outcomes[ticket := outcome]);
    if next.retireTicket == next.nextTicket
    then reported.(epoch := next.nextTicket, base := next.cursor)
    else reported
  }

  ghost predicate Outstanding(s: Selector, h: History, ticket: nat) {
    ticket < s.nextTicket && ticket !in h.outcomes
  }

  ghost predicate Idle(s: Selector) {
    s.retireTicket == s.nextTicket
  }

  /** `cursor` is the largest target committed by a ticket in [from, upto), or `floor` if none exceeds it. */
  ghost predicate IsHighest(cursor: nat, outcomes: map<nat, Outcome>, from: nat, upto: nat, floor: nat) {
    && floor <= cursor
    && (forall t :: from <= t < upto && t in outcomes && outcomes[t].Committed? ==> outcomes[t].target <= cursor)
    && (cursor == floor || exists t :: from <= t < upto && t in outcomes && outcomes[t] == Committed(cursor))
  }

  /** `results` parks exactly the finished tickets from `retireTicket` on. */
  ghost predicate Parked(s: Selector, outcomes: map<nat, Outcome>) {
    && s.retireTicket <= s.nextTicket
    && (forall t :: t in outcomes ==> t < s.nextTicket)
    && (forall t: nat :: t < s.retireTicket ==> t in outcomes)
    && (forall t :: t in s.results <==> t in outcomes && s.retireTicket <= t)
    && (forall t :: t in s.results ==> s.results[t] == outcomes[t])
  }

  /** Every ticket of the current busy period got the start `base` plus its distance from the period's first ticket. */
  ghost predicate Spaced(s: Selector, h: History) {
    && |h.starts| == s.nextTicket
    && h.epoch <= s.retireTicket
    && s.reservationNext == h.base + (s.nextTicket - h.epoch)
    && (forall t :: h.epoch <= t < s.nextTicket ==> h.starts[t] == h.base + (t - h.epoch))
    && (Idle(s) ==> h.epoch == s.nextTicket && h.base == s.cursor)
  }

  ghost predicate Inv(s: Selector, h: History) {
    && Parked(s, h.outcomes)
    && s.retireTicket !in h.outcomes
    && IsHighest(s.cursor, h.outcomes, 0, s.retireTicket, 0)
    && IsHighest(s.cursor, h.outcomes, h.epoch, s.retireTicket, h.base)
    && Spaced(s, h)
  }

  lemma {:induction false} RetireSettles(s: Selector, outcomes: map<nat, Outcome>, epoch: nat, base: nat)
    requires Parked(s, outcomes) && epoch <= s.retireTicket
    requires IsHighest(s.cursor, outcomes, 0, s.retireTicket, 0)
    requires IsHighest(s.cursor, outcomes, epoch, s.retireTicket, base)
    ensures var r := Retire(s);
      && Parked(r, outcomes) && r.retireTicket !in outcomes && s.retireTicket <= r.retireTicket
      && IsHighest(r.cursor, outcomes, 0, r.retireTicket, 0)
      && IsHighest(r.cursor, outcomes, epoch, r.retireTicket, base)
      && r.nextTicket == s.nextTicket && r.reservationNext == s.reservationNext && s.cursor <= r.cursor
    decreases |s.results|
  {
    if s.retireTicket in s.results {
      ShrinkMap(s.results, s.retireTicket);
      var one := RetireOne(s);
      assert one.cursor != s.cursor ==> outcomes[s.retireTicket] == Committed(one.cursor);
      RetireSettles(one, outcomes, epoch, base);
    }
  }

  lemma ReserveKeepsInv(s: Selector, h: History)
    requires Inv(s, h)
    ensures Inv(Reserve(s), Reserved(s, h))
    ensures Outstanding(Reserve(s), Reserved(s, h), s.nextTicket)
  {
  }

  /** A report for a later ticket does not disturb the maximum over earlier ones. */
  lemma HighestIgnoresLater(cursor: nat, outcomes: map<nat, Outcome>, from: nat, upto: nat, floor: nat,
                            ticket: nat, outcome: Outcome)
    requires IsHighest(cursor, outcomes, from, upto, floor) && upto <= ticket
    ensures IsHighest(cursor, outcomes[ticket := outcome], from, upto, floor)
  {
    var next := outcomes[ticket := outcome];
    if cursor != floor {
      var t :| from <= t < upto && t in outcomes && outcomes[t] == Committed(cursor);
      assert t in next && next[t] == Committed(cursor);
    }
  }

  /** Parking the report and retiring what has become due. */
  lemma ReportSettles(s: Selector, h: History, ticket: nat, outcome: Outcome)
    requires Inv(s, h) && Outstanding(s, h, ticket)
    ensures var r := Retire(s.(results := s.results[ticket := outcome]));
      var outcomes := h.outcomes[ticket := outcome];
      && Parked(r, outcomes) && r.retireTicket !in outcomes && s.retireTicket <= r.retireTicket
      && IsHighest(r.cursor, outcomes, 0, r.retireTicket, 0)
      && IsHighest(r.cursor, outcomes, h.epoch, r.retireTicket, h.base)
      && r.nextTicket == s.nextTicket && r.reservationNext == s.reservationNext && s.cursor <= r.cursor
  {
    HighestIgnoresLater(s.cursor, h.outcomes, 0, s.retireTicket, 0, ticket, outcome);
    HighestIgnoresLater(s.cursor, h.outcomes, h.epoch, s.retireTicket, h.base, ticket, outcome);
    RetireSettles(s.(results := s.results[ticket := outcome]), h.outcomes[ticket := outcome], h.epoch, h.base);
  }

  lemma FinishKeepsInv(s: Selector, h: History, ticket: nat, outcome: Outcome)
    requires Inv(s, h) && Outstanding(s, h, ticket)
    ensures Inv(Finish(s, ticket, outcome), Finished(s, h, ticket, outcome))
    ensures s.cursor <= Finish(s, ticket, outcome).cursor
    ensures Finish(s, ticket, outcome).nextTicket == s.nextTicket
  {
    ReportSettles(s, h, ticket, outcome);
  }
}
