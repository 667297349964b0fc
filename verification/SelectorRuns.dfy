/** Runs of the selector: in-order retirement, independence of the order of results,
    spacing of outstanding attempts, and the effect of an all-aborted busy period. */
module SelectorRuns {
  import opened Ordering
  import opened AttemptModel
  import opened SelectorModel

  datatype Event = Began | Reported(ticket: nat, outcome: Outcome)

  ghost function Step(s: Selector, h: History, event: Event): (Selector, History) {
    match event
    case Began => (Reserve(s), Reserved(s, h))
    case Reported(ticket, outcome) => (Finish(s, ticket, outcome), Finished(s, h, ticket, outcome))
  }

  ghost function Play(events: seq<Event>): (Selector, History) {
    if events == [] then (NEW_SELECTOR, NO_HISTORY)
    else
      var n := |events| - 1;
      var (s, h) := Play(events[..n]);
      Step(s, h, events[n])
  }

  /** Each attempt reports its own ticket, and at most once (Commit and Abort check `finished`). */
  ghost predicate Legal(events: seq<Event>) {
    events == [] ||
    var n := |events| - 1;
    var (s, h) := Play(events[..n]);
    Legal(events[..n]) && (events[n].Reported? ==> Outstanding(s, h, events[n].ticket))
  }

  lemma {:induction false} RunsKeepInv(events: seq<Event>)
    requires Legal(events)
    ensures var (s, h) := Play(events); Inv(s, h)
  {
    if events != [] {
      var n := |events| - 1;
      RunsKeepInv(events[..n]);
      var (s, h) := Play(events[..n]);
      match events[n]
      case Began => ReserveKeepsInv(s, h);
      case Reported(ticket, outcome) => FinishKeepsInv(s, h, ticket, outcome);
    }
  }

  ghost predicate Records(h: History, events: seq<Event>) {
    forall t: nat, o :: t in h.outcomes && h.outcomes[t] == o <==> Reported(t, o) in events
  }

  /** The history records exactly the reports of the run. */
  lemma {:induction false} HistoryRecordsReports(events: seq<Event>)
    requires Legal(events)
    ensures Records(Play(events).1, events)
  {
    if events != [] {
      var n := |events| - 1;
      HistoryRecordsReports(events[..n]);
      assert events == events[..n] + [events[n]];
    }
  }

  ghost predicate InTicketOrder(s: Selector, events: seq<Event>) {
    && s.retireTicket <= s.nextTicket
    && (forall o :: Reported(s.retireTicket, o) !in events)
    && (forall t: nat :: t < s.retireTicket ==> HasReport(t, events))
    && (forall t :: t in s.results ==> s.retireTicket <= t && Reported(t, s.results[t]) in events)
    && (forall t: nat, o :: Reported(t, o) in events && s.retireTicket <= t ==> t in s.results && s.results[t] == o)
    && (forall t: nat, c: nat :: t < s.retireTicket && Reported(t, Committed(c)) in events ==> c <= s.cursor)
    && (s.cursor == 0 || exists t: nat :: t < s.retireTicket && Reported(t, Committed(s.cursor)) in events)
  }

  ghost predicate HasReport(ticket: nat, events: seq<Event>) {
    exists o :: Reported(ticket, o) in events
  }

  lemma RunsAreInTicketOrder(events: seq<Event>)
    requires Legal(events)
    ensures InTicketOrder(Play(events).0, events)
  {
    RunsKeepInv(events);
    HistoryRecordsReports(events);
    ReadOff(Play(events).0, Play(events).1, events);
  }

  /** In every reachable state `retireTicket` is the least unreported ticket (or `nextTicket`), and
      `results` holds exactly the reported tickets from there on. */
  lemma RetirementIsInTicketOrder(events: seq<Event>, t: nat, o: Outcome)
    requires Legal(events)
    ensures var s := Play(events).0;
      && s.retireTicket <= s.nextTicket && Reported(s.retireTicket, o) !in events
      && (t < s.retireTicket ==> exists reported :: Reported(t, reported) in events)
      && (t in s.results && s.results[t] == o <==> Reported(t, o) in events && s.retireTicket <= t)
  {
    RunsAreInTicketOrder(events);
    TicketInOrder(Play(events).0, events, t, o);
  }

  lemma TicketInOrder(s: Selector, events: seq<Event>, t: nat, o: Outcome)
    requires InTicketOrder(s, events)
    ensures s.retireTicket <= s.nextTicket && Reported(s.retireTicket, o) !in events
    ensures t < s.retireTicket ==> exists reported :: Reported(t, reported) in events
    ensures t in s.results && s.results[t] == o <==> Reported(t, o) in events && s.retireTicket <= t
  {
    assert t < s.retireTicket ==> HasReport(t, events);
  }

  /** `cursor` is the largest target committed by a retired ticket, 0 if there is none, and with
      nothing outstanding the reservations continue from it. */
  lemma CursorIsGreatestRetired(events: seq<Event>)
    requires Legal(events)
    ensures var s := Play(events).0;
      && (forall t: nat, c: nat :: t < s.retireTicket && Reported(t, Committed(c)) in events ==> c <= s.cursor)
      && (s.cursor == 0 || exists t: nat :: t < s.retireTicket && Reported(t, Committed(s.cursor)) in events)
      && (s.retireTicket == s.nextTicket ==> s.reservationNext == s.cursor)
  {
    RunsKeepInv(events);
    HistoryRecordsReports(events);
    CursorOfRun(Play(events).0, Play(events).1, events);
  }

  lemma CursorOfRun(s: Selector, h: History, events: seq<Event>)
    requires Inv(s, h) && Records(h, events)
    ensures forall t: nat, c: nat :: t < s.retireTicket && Reported(t, Committed(c)) in events ==> c <= s.cursor
    ensures s.cursor == 0 || exists t: nat :: t < s.retireTicket && Reported(t, Committed(s.cursor)) in events
    ensures s.retireTicket == s.nextTicket ==> s.reservationNext == s.cursor
  {
    ReadOff(s, h, events);
    IdleContinues(s, h);
  }

  lemma IdleContinues(s: Selector, h: History)
    requires Inv(s, h)
    ensures s.retireTicket == s.nextTicket ==> s.reservationNext == s.cursor
  {
  }

  lemma ReadOff(s: Selector, h: History, events: seq<Event>)
    requires Inv(s, h) && Records(h, events)
    ensures InTicketOrder(s, events)
  {
    forall t: nat | t < s.retireTicket ensures HasReport(t, events) {
      assert Reported(t, h.outcomes[t]) in events;
    }
    if s.cursor != 0 {
      var t :| 0 <= t < s.retireTicket && t in h.outcomes && h.outcomes[t] == Committed(s.cursor);
      assert Reported(t, Committed(s.cursor)) in events;
    }
  }

  /** The cursor never decreases. */
  lemma {:induction false} CursorNeverDecreases(events: seq<Event>, n: nat)
    requires Legal(events) && n <= |events|
    ensures Legal(events[..n]) && Play(events[..n]).0.cursor <= Play(events).0.cursor
  {
    if n == |events| {
      assert events[..n] == events;
    } else {
      var m := |events| - 1;
      CursorNeverDecreases(events[..m], n);
      assert events[..m][..n] == events[..n];
      RunsKeepInv(events[..m]);
      var (s, h) := Play(events[..m]);
      if events[m].Reported? {
        FinishKeepsInv(s, h, events[m].ticket, events[m].outcome);
      }
    }
  }

  // ----- any order of results -----

  ghost function FinishAll(s: Selector, order: seq<nat>, reports: map<nat, Outcome>): Selector
    requires forall t :: t in order ==> t in reports
    decreases |order|
  {
    if order == [] then s
    else FinishAll(Finish(s, order[0], reports[order[0]]), order[1..], reports)
  }

  ghost function FinishedAll(s: Selector, h: History, order: seq<nat>, reports: map<nat, Outcome>): History
    requires forall t :: t in order ==> t in reports
    decreases |order|
  {
    if order == [] then h
    else FinishedAll(Finish(s, order[0], reports[order[0]]),
                     Finished(s, h, order[0], reports[order[0]]), order[1..], reports)
  }

  ghost predicate AllOutstanding(s: Selector, h: History, order: seq<nat>, reports: map<nat, Outcome>) {
    Distinct(order) && forall i :: 0 <= i < |order| ==> order[i] in reports && Outstanding(s, h, order[i])
  }

  lemma OneReported(s: Selector, h: History, order: seq<nat>, reports: map<nat, Outcome>)
    requires Inv(s, h) && AllOutstanding(s, h, order, reports) && order != []
    ensures var s1 := Finish(s, order[0], reports[order[0]]);
      var h1 := Finished(s, h, order[0], reports[order[0]]);
      && Inv(s1, h1) && AllOutstanding(s1, h1, order[1..], reports) && s1.nextTicket == s.nextTicket
      && (|order| > 1 ==> h1.epoch == h.epoch && h1.base == h.base)
  {
    FinishKeepsInv(s, h, order[0], reports[order[0]]);
    var s1 := Finish(s, order[0], reports[order[0]]);
    var h1 := Finished(s, h, order[0], reports[order[0]]);
    if |order| > 1 {
      assert Outstanding(s1, h1, order[1]);
    }
  }

  lemma {:induction false} FinishAllKeepsInv(s: Selector, h: History, order: seq<nat>, reports: map<nat, Outcome>)
    requires Inv(s, h) && AllOutstanding(s, h, order, reports)
    requires forall t :: t in order ==> t in reports
    ensures var s' := FinishAll(s, order, reports);
      var h' := FinishedAll(s, h, order, reports);
      && Inv(s', h') && s'.nextTicket == s.nextTicket
      && (!Idle(s') ==> h'.epoch == h.epoch && h'.base == h.base)
    decreases |order|
  {
    if order != [] {
      OneReported(s, h, order, reports);
      var s1 := Finish(s, order[0], reports[order[0]]);
      var h1 := Finished(s, h, order[0], reports[order[0]]);
      FinishAllKeepsInv(s1, h1, order[1..], reports);
    }
  }

  ghost function Chosen(order: seq<nat>, reports: map<nat, Outcome>): map<nat, Outcome>
    requires forall t :: t in order ==> t in reports
  {
    map t | t in Elements(order) :: reports[t]
  }

  lemma {:induction false} FinishedAllOutcomes(s: Selector, h: History, order: seq<nat>, reports: map<nat, Outcome>)
    requires forall t :: t in order ==> t in reports
    ensures FinishedAll(s, h, order, reports).outcomes == h.outcomes + Chosen(order, reports)
    decreases |order|
  {
    if order != [] {
      var first, rest := order[0], order[1..];
      var h1 := Finished(s, h, first, reports[first]);
      FinishedAllOutcomes(Finish(s, first, reports[first]), h1, rest, reports);
      ChosenFirstThenRest(h.outcomes, order, reports);
    }
  }

  lemma ChosenFirstThenRest(outcomes: map<nat, Outcome>, order: seq<nat>, reports: map<nat, Outcome>)
    requires order != [] && forall t :: t in order ==> t in reports
    ensures outcomes[order[0] := reports[order[0]]] + Chosen(order[1..], reports)
            == outcomes + Chosen(order, reports)
  {
    assert order == [order[0]] + order[1..];
    assert Elements(order) == {order[0]} + Elements(order[1..]);
  }

  /** A selector is a function of the outcomes reported so far and, while some attempt is
      outstanding, of where the busy period began. */
  lemma StateIsDetermined(s1: Selector, h1: History, s2: Selector, h2: History)
    requires Inv(s1, h1) && Inv(s2, h2)
    requires s1.nextTicket == s2.nextTicket && h1.outcomes == h2.outcomes
    requires !Idle(s1) ==> h1.epoch == h2.epoch && h1.base == h2.base
    ensures s1 == s2
  {
    assert s1.retireTicket == s2.retireTicket;
    assert s1.cursor == s2.cursor;
    assert s1.results == s2.results;
  }

  /** Confluence: whatever order a fixed set of outstanding attempts reports in, the selector
      ends in the same state. */
  lemma OrderOfResultsIsIrrelevant(s: Selector, h: History, order1: seq<nat>, order2: seq<nat>,
                                   reports: map<nat, Outcome>)
    requires Inv(s, h) && AllOutstanding(s, h, order1, reports) && AllOutstanding(s, h, order2, reports)
    requires Elements(order1) == Elements(order2)
    ensures FinishAll(s, order1, reports) == FinishAll(s, order2, reports)
  {
    FinishAllKeepsInv(s, h, order1, reports);
    FinishAllKeepsInv(s, h, order2, reports);
    FinishedAllOutcomes(s, h, order1, reports);
    FinishedAllOutcomes(s, h, order2, reports);
    assert Chosen(order1, reports) == Chosen(order2, reports);
    StateIsDetermined(FinishAll(s, order1, reports), FinishedAll(s, h, order1, reports),
                      FinishAll(s, order2, reports), FinishedAll(s, h, order2, reports));
  }

  // ----- spacing and roll-back -----

  /** Two outstanding tickets have starts exactly as far apart as the tickets, so over the same
      n candidates they start on different nodes whenever fewer than n tickets lie between them. */
  lemma OutstandingStartsAreSpread(s: Selector, h: History, t1: nat, t2: nat, n: nat)
    requires Inv(s, h) && t1 < t2 && Outstanding(s, h, t1) && Outstanding(s, h, t2)
    ensures h.starts[t2] - h.starts[t1] == t2 - t1
    ensures t2 - t1 < n ==> h.starts[t1] % n != h.starts[t2] % n
  {
    assert s.retireTicket <= t1;
    if t2 - t1 < n {
      NearbyResiduesDiffer(h.starts[t1], h.starts[t2], n);
    }
  }

  lemma NearbyResiduesDiffer(a: nat, b: nat, n: nat)
    requires a < b < a + n
    ensures a % n != b % n
  {
    var q := b / n - a / n;
    assert b - a == n * q + (b % n - a % n);
    Multiples(n, q);
  }

  /** When every attempt of a busy period aborts, the last report puts the reservation counter
      back to the start the period's first attempt was given, and leaves the cursor alone. */
  lemma AbortedPeriodRestores(s: Selector, h: History, last: nat)
    requires Inv(s, h) && Outstanding(s, h, last)
    requires forall t: nat :: t < s.nextTicket && t != last ==> t in h.outcomes
    requires forall t :: h.epoch <= t && t in h.outcomes ==> h.outcomes[t] == Aborted
    ensures var next := Finish(s, last, Aborted);
      && Idle(next) && next.cursor == s.cursor
      && next.reservationNext == h.starts[h.epoch]
  {
    FinishKeepsInv(s, h, last, Aborted);
    var next := Finish(s, last, Aborted);
    RetireSettlesFrom(s, h, last);
  }

  /** Retiring only aborted tickets cannot move the cursor. */
  lemma RetireSettlesFrom(s: Selector, h: History, last: nat)
    requires Inv(s, h) && Outstanding(s, h, last)
    requires forall t :: h.epoch <= t && t in h.outcomes ==> h.outcomes[t] == Aborted
    ensures Finish(s, last, Aborted).cursor == h.base == s.cursor
  {
    HighestIgnoresLater(s.cursor, h.outcomes, 0, s.retireTicket, 0, last, Aborted);
    HighestIgnoresLater(s.cursor, h.outcomes, h.epoch, s.retireTicket, h.base, last, Aborted);
    RetireSettles(s.(results := s.results[last := Aborted]), h.outcomes[last := Aborted], h.epoch, h.base);
  }
}
