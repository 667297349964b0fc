/** What one dial does in every interleaving with other dials, probes, refreshes and shutdown. */
module DialRuns {
  import opened Options
  import opened Ordering
  import opened SelectorModel
  import opened AttemptModel
  import opened RegistryModel
  import opened LeaseAccounting
  import opened Gateway
  import opened GatewayInvariant
  import opened GatewayRuns
  import RegistryRuns

  /** The session's mutex is held by a dial. */
  ghost predicate MidDial(phase: Phase) {
    !phase.Ready? && !phase.Pinned?
  }

  /** The next step of a dial; `works` and `nextProbe` say how its connection attempt turns out. */
  ghost function NextOfDial(phase: Phase, sid: nat, works: bool, nextProbe: nat): Step
    requires MidDial(phase)
  {
    match phase
    case Snapped(_) => Step.Begin(sid)
    case Choosing(_) => Choose(sid)
    case Dialing(_, _) => if works then DialWorks(sid, nextProbe) else DialFails(sid, nextProbe)
    case Failing(_, _) => CloseFailed(sid)
    case Committing(_, _) => Commit(sid)
  }

  /** A dial is never stuck: whatever the others do, its next step is possible. */
  lemma DialsNeverStick(start: Gateway, steps: seq<Step>, sid: nat, works: bool, nextProbe: nat)
    requires Initial(start) && Legal(start, steps)
    requires sid in Run(start, steps).sessions && MidDial(Run(start, steps).sessions[sid].phase)
    ensures Enabled(Run(start, steps), NextOfDial(Run(start, steps).sessions[sid].phase, sid, works, nextProbe))
  {
    ReachableIsGood(start, steps);
    DialGoesOn(Run(start, steps), sid, works, nextProbe);
  }

  lemma DialGoesOn(g: Gateway, sid: nat, works: bool, nextProbe: nat)
    requires GatewayLeases(g) && In(g, sid) && WellFormed(g.sessions[sid].phase) && MidDial(g.sessions[sid].phase)
    ensures Enabled(g, NextOfDial(g.sessions[sid].phase, sid, works, nextProbe))
  {
    SessionCanClose(g, sid);
  }

  // ----- a dial ends after boundedly many steps of its own -----

  /** How many more steps of its own the dial can take. */
  ghost function StepsLeft(phase: Phase): nat {
    match phase
    case Ready => 0
    case Snapped(candidates) => 3 * |candidates| + 2
    case Choosing(a) => 3 * Left(a) + 1
    case Dialing(a, _) => 3 * Left(a) + 3
    case Failing(a, _) => 3 * Left(a) + 2
    case Committing(a, _) => 3 * Left(a) + 1
    case Pinned(_) => 0
  }

  /** The candidates the attempt has not looked at. */
  ghost function Left(a: AttemptState): nat {
    if a.offset <= |a.candidates| then |a.candidates| - a.offset else 0
  }

  /** The session whose dial takes this step, if a dial does. */
  ghost function DialStepOf(step: Step): Option<nat> {
    match step
    case Begin(sid) => Some(sid)
    case Choose(sid) => Some(sid)
    case DialFails(sid, _) => Some(sid)
    case CloseFailed(sid) => Some(sid)
    case DialWorks(sid, _) => Some(sid)
    case Commit(sid) => Some(sid)
    case _ => None
  }

  ghost function OwnSteps(steps: seq<Step>, sid: nat): nat {
    if steps == [] then 0 else One(DialStepOf(steps[0]) == Some(sid)) + OwnSteps(steps[1..], sid)
  }

  lemma OwnStepUsesOne(g: Gateway, step: Step, sid: nat)
    requires Enabled(g, step) && DialStepOf(step) == Some(sid) && WellFormed(g.sessions[sid].phase)
    ensures sid in Next(g, step).sessions
    ensures StepsLeft(Next(g, step).sessions[sid].phase) < StepsLeft(g.sessions[sid].phase)
  {
    if step.Choose? {
      ChoosingUsesOne(g, sid);
    }
  }

  lemma ChoosingUsesOne(g: Gateway, sid: nat)
    requires Enabled(g, Choose(sid)) && WellFormed(g.sessions[sid].phase)
    ensures var phase := ChooseNext(g, sid).sessions[sid].phase;
      && StepsLeft(phase) < StepsLeft(g.sessions[sid].phase)
  {
  }

  lemma OthersKeepSession(g: Gateway, step: Step, sid: nat)
    requires Enabled(g, step) && SessionOf(step) != Some(sid) && sid in g.sessions
    ensures sid in Next(g, step).sessions && Next(g, step).sessions[sid] == g.sessions[sid]
  {
  }

  /** The other steps leave the dial alone, or end the session's pinning. */
  lemma OtherStepUsesNone(g: Gateway, step: Step, sid: nat)
    requires Enabled(g, step) && DialStepOf(step) != Some(sid) && step != TakeSnapshot(sid) && sid in g.sessions
    ensures sid in Next(g, step).sessions && Next(g, step).sessions[sid].listener == g.sessions[sid].listener
    ensures MidDial(g.sessions[sid].phase) ==> Next(g, step).sessions[sid].phase == g.sessions[sid].phase
    ensures !MidDial(g.sessions[sid].phase) ==> !MidDial(Next(g, step).sessions[sid].phase)
  {
    if SessionOf(step) != Some(sid) {
      OthersKeepSession(g, step, sid);
    }
  }

  lemma StepUsesItsOwn(g: Gateway, step: Step, sid: nat)
    requires Enabled(g, step) && step != TakeSnapshot(sid) && sid in g.sessions && WellFormed(g.sessions[sid].phase)
    ensures sid in Next(g, step).sessions && WellFormed(Next(g, step).sessions[sid].phase)
    ensures One(DialStepOf(step) == Some(sid)) + StepsLeft(Next(g, step).sessions[sid].phase)
            <= StepsLeft(g.sessions[sid].phase)
  {
    if DialStepOf(step) == Some(sid) {
      OwnStepUsesOne(g, step, sid);
      SessionStepKeepsShape(g, step, sid);
    } else {
      OtherStepUsesNone(g, step, sid);
    }
  }

  lemma {:induction false} DialIsShort(g: Gateway, steps: seq<Step>, sid: nat)
    requires Legal(g, steps) && sid in g.sessions && WellFormed(g.sessions[sid].phase) && TakeSnapshot(sid) !in steps
    ensures sid in Run(g, steps).sessions
    ensures OwnSteps(steps, sid) + StepsLeft(Run(g, steps).sessions[sid].phase) <= StepsLeft(g.sessions[sid].phase)
    decreases |steps|
  {
    if steps != [] {
      StepUsesItsOwn(g, steps[0], sid);
      DialIsShort(Next(g, steps[0]), steps[1..], sid);
    }
  }

  // ----- a dial acquires each candidate at most once -----

  /** The node a Choose step of the session acquired. */
  ghost function AcquiredBy(g: Gateway, step: Step, sid: nat): Option<string>
    requires Enabled(g, step)
  {
    if step != Choose(sid) || sid !in Next(g, step).sessions then None
    else
      var held := HeldIn(Next(g, step).sessions[sid].phase);
      if held.Some? then Some(held.value.id) else None
  }

  ghost function Acquired(g: Gateway, steps: seq<Step>, sid: nat): seq<string>
    requires Legal(g, steps)
    decreases |steps|
  {
    if steps == [] then []
    else
      var first := AcquiredBy(g, steps[0], sid);
      (if first.Some? then [first.value] else []) + Acquired(Next(g, steps[0]), steps[1..], sid)
  }

  /** Some candidate at offset `from` or later has this ID. */
  ghost predicate Ahead(a: AttemptState, from: nat, id: string) {
    a.candidates != [] && exists k :: from <= k < |a.candidates| && At(a.candidates, a.startAbsolute, k).id == id
  }

  ghost predicate SameCandidates(a: AttemptState, b: AttemptState) {
    a.candidates == b.candidates && a.startAbsolute == b.startAbsolute && a.offset <= b.offset <= |b.candidates|
  }

  /** After the step the attempt still runs over the same candidates, or the dial has ended. */
  ghost predicate GoesOn(a: AttemptState, phase: Phase) {
    if AttemptIn(phase).Some? then SameCandidates(a, AttemptIn(phase).value) else !MidDial(phase)
  }

  /** What the session acquired is the candidate that its attempt passed last. */
  ghost predicate PassedLast(a: AttemptState, phase: Phase, id: string) {
    && AttemptIn(phase).Some? && a.candidates != []
    && a.offset < AttemptIn(phase).value.offset
    && At(a.candidates, a.startAbsolute, AttemptIn(phase).value.offset - 1).id == id
  }

  lemma AttemptGoesOn(g: Gateway, step: Step, sid: nat)
    requires Enabled(g, step) && sid in g.sessions && WellFormed(g.sessions[sid].phase)
    requires AttemptIn(g.sessions[sid].phase).Some? && step != TakeSnapshot(sid)
    ensures sid in Next(g, step).sessions
    ensures GoesOn(AttemptIn(g.sessions[sid].phase).value, Next(g, step).sessions[sid].phase)
    ensures AcquiredBy(g, step, sid).Some? ==>
              PassedLast(AttemptIn(g.sessions[sid].phase).value, Next(g, step).sessions[sid].phase,
                         AcquiredBy(g, step, sid).value)
  {
    if step == Choose(sid) {
      OfferIsAhead(g, sid);
    } else if DialStepOf(step) == Some(sid) {
      OwnStepKeepsAttempt(g, step, sid);
    } else {
      OtherStepUsesNone(g, step, sid);
    }
  }

  lemma OwnStepKeepsAttempt(g: Gateway, step: Step, sid: nat)
    requires Enabled(g, step) && DialStepOf(step) == Some(sid) && !step.Choose? && WellFormed(g.sessions[sid].phase)
    requires AttemptIn(g.sessions[sid].phase).Some?
    ensures sid in Next(g, step).sessions
    ensures GoesOn(AttemptIn(g.sessions[sid].phase).value, Next(g, step).sessions[sid].phase)
  {
  }

  lemma OfferIsAhead(g: Gateway, sid: nat)
    requires Enabled(g, Choose(sid))
    ensures var a, phase := g.sessions[sid].phase.attempt, ChooseNext(g, sid).sessions[sid].phase;
      GoesOn(a, phase) && (HeldIn(phase).Some? ==> PassedLast(a, phase, HeldIn(phase).value.id))
  {
  }

  lemma {:induction false} EndedAcquiresNothing(g: Gateway, steps: seq<Step>, sid: nat)
    requires Legal(g, steps) && sid in g.sessions && !MidDial(g.sessions[sid].phase) && TakeSnapshot(sid) !in steps
    ensures Acquired(g, steps, sid) == []
    decreases |steps|
  {
    if steps != [] {
      OtherStepUsesNone(g, steps[0], sid);
      EndedAcquiresNothing(Next(g, steps[0]), steps[1..], sid);
    }
  }

  /** What a running attempt still acquires are candidates it has not passed, each at most once. */
  lemma {:induction false} AcquiresOnce(g: Gateway, steps: seq<Step>, sid: nat)
    requires Legal(g, steps) && sid in g.sessions && WellFormed(g.sessions[sid].phase) && TakeSnapshot(sid) !in steps
    requires var a := AttemptIn(g.sessions[sid].phase); a.Some? && UniqueIds(a.value.candidates)
    ensures var a, ids := AttemptIn(g.sessions[sid].phase).value, Acquired(g, steps, sid);
      Distinct(ids) && forall id :: id in ids ==> Ahead(a, a.offset, id)
    decreases |steps|
  {
    if steps != [] {
      var g1 := Next(g, steps[0]);
      var a := AttemptIn(g.sessions[sid].phase).value;
      AttemptGoesOn(g, steps[0], sid);
      StepUsesItsOwn(g, steps[0], sid);
      if AttemptIn(g1.sessions[sid].phase).Some? {
        AcquiresOnce(g1, steps[1..], sid);
        FirstAcquired(a, AttemptIn(g1.sessions[sid].phase).value, AcquiredBy(g, steps[0], sid), Acquired(g1, steps[1..], sid));
      } else {
        EndedAcquiresNothing(g1, steps[1..], sid);
      }
    }
  }

  lemma FirstAcquired(a: AttemptState, b: AttemptState, first: Option<string>, rest: seq<string>)
    requires SameCandidates(a, b) && UniqueIds(a.candidates)
    requires Distinct(rest) && forall id :: id in rest ==> Ahead(b, b.offset, id)
    requires first.Some? ==>
               && a.candidates != [] && a.offset < b.offset
               && At(a.candidates, a.startAbsolute, b.offset - 1).id == first.value
    ensures var ids := (if first.Some? then [first.value] else []) + rest;
      Distinct(ids) && forall id :: id in ids ==> Ahead(a, a.offset, id)
  {
    forall id | id in rest ensures Ahead(a, a.offset, id) && (first.Some? ==> id != first.value) {
      AheadEarlier(a, b, id);
      if first.Some? {
        PassedIsNotAhead(b, b.offset - 1, id);
      }
    }
    if first.Some? {
      DistinctWithFirst(first.value, rest);
      PassedIsAhead(a, b.offset - 1);
    } else {
      assert [] + rest == rest;
    }
  }

  lemma DistinctWithFirst(first: string, rest: seq<string>)
    requires Distinct(rest) && first !in rest
    ensures Distinct([first] + rest)
  {
  }

  lemma PassedIsAhead(a: AttemptState, k: nat)
    requires a.offset <= k < |a.candidates|
    ensures Ahead(a, a.offset, At(a.candidates, a.startAbsolute, k).id)
  {
  }

  lemma AheadEarlier(a: AttemptState, b: AttemptState, id: string)
    requires SameCandidates(a, b) && Ahead(b, b.offset, id)
    ensures Ahead(a, a.offset, id)
  {
    var k :| b.offset <= k < |b.candidates| && At(b.candidates, b.startAbsolute, k).id == id;
    assert At(a.candidates, a.startAbsolute, k).id == id;
  }

  lemma PassedIsNotAhead(b: AttemptState, k: nat, id: string)
    requires UniqueIds(b.candidates) && k < |b.candidates| && Ahead(b, k + 1, id)
    ensures At(b.candidates, b.startAbsolute, k).id != id
  {
    var j :| k + 1 <= j < |b.candidates| && At(b.candidates, b.startAbsolute, j).id == id;
    OffsetsNameDistinctPositions(|b.candidates|, b.startAbsolute, j, k);
  }

  // ----- a dial reports its ticket -----

  ghost predicate HoldsTicket(g: Gateway, sid: nat, l: nat, ticket: nat) {
    sid in g.sessions && TicketOf(g.sessions[sid]) == Some((l, ticket))
  }

  ghost predicate IsReported(g: Gateway, l: nat, ticket: nat) {
    l in g.listeners && ticket in g.listeners[l].history.outcomes
  }

  lemma HeldOrReported(g: Gateway, step: Step, sid: nat, l: nat, ticket: nat)
    requires Enabled(g, step) && (HoldsTicket(g, sid, l, ticket) || IsReported(g, l, ticket))
    ensures HoldsTicket(Next(g, step), sid, l, ticket) || IsReported(Next(g, step), l, ticket)
  {
    if IsReported(g, l, ticket) {
      ReportsStay(g, step, l, ticket);
    } else if SessionOf(step) == Some(sid) {
      OwnStepHoldsOrReports(g, step, sid, l, ticket);
    } else {
      OthersKeepSession(g, step, sid);
    }
  }

  lemma OwnStepHoldsOrReports(g: Gateway, step: Step, sid: nat, l: nat, ticket: nat)
    requires Enabled(g, step) && HoldsTicket(g, sid, l, ticket) && SessionOf(step) == Some(sid)
    ensures HoldsTicket(Next(g, step), sid, l, ticket) || IsReported(Next(g, step), l, ticket)
  {
    if ReportOf(g, step).Some? {
      ReportingStepMoves(g, step);
    } else {
      QuietStepKeepsTicket(g, step, sid);
    }
  }

  lemma ReportsStay(g: Gateway, step: Step, l: nat, ticket: nat)
    requires Enabled(g, step) && IsReported(g, l, ticket)
    ensures IsReported(Next(g, step), l, ticket)
  {
    if ReportOf(g, step).Some? {
      ReportingStepMoves(g, step);
    }
  }

  lemma {:induction false} HeldOrReportedAfter(g: Gateway, steps: seq<Step>, sid: nat, l: nat, ticket: nat)
    requires Legal(g, steps) && (HoldsTicket(g, sid, l, ticket) || IsReported(g, l, ticket))
    ensures HoldsTicket(Run(g, steps), sid, l, ticket) || IsReported(Run(g, steps), l, ticket)
    decreases |steps|
  {
    if steps != [] {
      HeldOrReported(g, steps[0], sid, l, ticket);
      HeldOrReportedAfter(Next(g, steps[0]), steps[1..], sid, l, ticket);
    }
  }

  lemma HeldIsUnreported(g: Gateway, sid: nat, l: nat, ticket: nat)
    requires GatewayInv(g) && HoldsTicket(g, sid, l, ticket)
    ensures !IsReported(g, l, ticket)
  {
    TakenIsOutstanding(g.listeners, g.sessions, sid);
  }

  // ----- what it reports -----

  /** The node whose lease the dial holds is the one its attempt offered last. */
  ghost predicate HoldsLastOffered(phase: Phase) {
    (phase.Dialing? || phase.Failing? || phase.Committing?) ==>
      var a, id := phase.attempt, phase.lease.id;
      && 0 < a.offset <= |a.candidates| && id in a.returned && a.returned[id] == a.offset - 1
      && At(a.candidates, a.startAbsolute, a.offset - 1).id == id
  }

  /** A running attempt has the start that its ticket was given. */
  ghost predicate HasItsStart(listeners: map<nat, Listener>, session: Session) {
    AttemptIn(session.phase).Some? && AttemptIn(session.phase).value.reserved ==>
      var a := AttemptIn(session.phase).value;
      && session.listener in listeners && a.ticket < |listeners[session.listener].history.starts|
      && listeners[session.listener].history.starts[a.ticket] == a.startAbsolute
  }

  ghost predicate DialsAreTrue(g: Gateway) {
    forall sid :: sid in g.sessions ==> HoldsLastOffered(g.sessions[sid].phase) && HasItsStart(g.listeners, g.sessions[sid])
  }

  /** Starts are only ever added. */
  ghost predicate StartsGrow(before: map<nat, Listener>, after: map<nat, Listener>) {
    && after.Keys == before.Keys
    && forall l :: l in before ==> before[l].history.starts <= after[l].history.starts
  }

  lemma StepGrowsStarts(g: Gateway, step: Step)
    requires Enabled(g, step)
    ensures StartsGrow(g.listeners, Next(g, step).listeners)
  {
    if SessionOf(step).Some? && ReportOf(g, step).Some? {
      ReportingStepMoves(g, step);
    } else if step.Begin? && g.sessions[step.sid].phase.candidates != [] {
      ReservingStepMoves(g, step.sid);
    } else if SessionOf(step).Some? {
      QuietStepKeepsSelectors(g, step, SessionOf(step).value);
    }
  }

  lemma OfferIsHeld(g: Gateway, sid: nat)
    requires Enabled(g, Choose(sid)) && WellFormed(g.sessions[sid].phase)
    ensures HoldsLastOffered(ChooseNext(g, sid).sessions[sid].phase)
    ensures HasItsStart(g.listeners, g.sessions[sid]) ==>
              HasItsStart(ChooseNext(g, sid).listeners, ChooseNext(g, sid).sessions[sid])
  {
  }

  lemma BegunHasItsStart(g: Gateway, sid: nat)
    requires Enabled(g, Step.Begin(sid)) && SelectorsReachable(g.listeners)
    ensures HasItsStart(BeginAttempt(g, sid).listeners, BeginAttempt(g, sid).sessions[sid])
  {
  }

  lemma OwnStepKeepsTrue(g: Gateway, step: Step, sid: nat)
    requires Enabled(g, step) && SessionOf(step) == Some(sid) && SelectorsReachable(g.listeners)
    requires sid in g.sessions ==>
               && WellFormed(g.sessions[sid].phase) && HoldsLastOffered(g.sessions[sid].phase)
               && HasItsStart(g.listeners, g.sessions[sid])
    ensures sid in Next(g, step).sessions
    ensures HoldsLastOffered(Next(g, step).sessions[sid].phase) && HasItsStart(Next(g, step).listeners, Next(g, step).sessions[sid])
  {
    if step.Choose? {
      OfferIsHeld(g, sid);
    } else if step.Begin? {
      BegunHasItsStart(g, sid);
    } else {
      LaterStepKeepsTrue(g, step, sid);
    }
  }

  lemma LaterStepKeepsTrue(g: Gateway, step: Step, sid: nat)
    requires Enabled(g, step) && SessionOf(step) == Some(sid) && !step.Choose? && !step.Begin?
    requires sid in g.sessions ==> HoldsLastOffered(g.sessions[sid].phase) && HasItsStart(g.listeners, g.sessions[sid])
    ensures sid in Next(g, step).sessions
    ensures HoldsLastOffered(Next(g, step).sessions[sid].phase) && HasItsStart(Next(g, step).listeners, Next(g, step).sessions[sid])
  {
    StepGrowsStarts(g, step);
  }

  lemma StepKeepsTrue(g: Gateway, step: Step)
    requires GatewayInv(g) && DialsAreTrue(g) && Enabled(g, step)
    ensures DialsAreTrue(Next(g, step))
  {
    var g' := Next(g, step);
    StepGrowsStarts(g, step);
    SessionsAfterStep(g, step);
    forall sid | sid in g'.sessions
      ensures HoldsLastOffered(g'.sessions[sid].phase) && HasItsStart(g'.listeners, g'.sessions[sid])
    {
      if SessionOf(step) == Some(sid) {
        OwnStepKeepsTrue(g, step, sid);
      } else {
        OthersKeepSession(g, step, sid);
      }
    }
  }

  lemma SessionsAfterStep(g: Gateway, step: Step)
    requires Enabled(g, step)
    ensures forall sid :: sid in Next(g, step).sessions ==> sid in g.sessions || SessionOf(step) == Some(sid)
  {
  }

  lemma {:induction false} RunKeepsTrue(g: Gateway, steps: seq<Step>)
    requires GatewayInv(g) && DialsAreTrue(g) && Legal(g, steps)
    ensures DialsAreTrue(Run(g, steps))
    decreases |steps|
  {
    if steps != [] {
      StepKeepsInv(g, steps[0]);
      StepKeepsTrue(g, steps[0]);
      RunKeepsTrue(Next(g, steps[0]), steps[1..]);
    }
  }

  /** In every interleaving the node that a dial holds is the candidate its attempt offered last, and
      stands at that offset from the start which the attempt's ticket was given. */
  lemma DialHoldsItsOffer(start: Gateway, steps: seq<Step>, sid: nat)
    requires Initial(start) && Legal(start, steps) && sid in Run(start, steps).sessions
    requires IsDial(Run(start, steps).sessions[sid].phase)
    ensures var g := Run(start, steps);
      var l, a, id := g.sessions[sid].listener, g.sessions[sid].phase.attempt, g.sessions[sid].phase.lease.id;
      && a.reserved && 0 < a.offset <= |a.candidates| && At(a.candidates, a.startAbsolute, a.offset - 1).id == id
      && id in a.returned && a.returned[id] == a.offset - 1
      && l in g.listeners && a.ticket < |g.listeners[l].history.starts|
      && g.listeners[l].history.starts[a.ticket] == a.startAbsolute
  {
    ReachableIsGood(start, steps);
    InitialIsGood(start);
    RunKeepsTrue(start, steps);
    TrueDialHoldsItsOffer(Run(start, steps), sid);
  }

  lemma TrueDialHoldsItsOffer(g: Gateway, sid: nat)
    requires DialsAreTrue(g) && sid in g.sessions && WellFormed(g.sessions[sid].phase) && IsDial(g.sessions[sid].phase)
    ensures var l, a, id := g.sessions[sid].listener, g.sessions[sid].phase.attempt, g.sessions[sid].phase.lease.id;
      && a.reserved && 0 < a.offset <= |a.candidates| && At(a.candidates, a.startAbsolute, a.offset - 1).id == id
      && id in a.returned && a.returned[id] == a.offset - 1
      && l in g.listeners && a.ticket < |g.listeners[l].history.starts|
      && g.listeners[l].history.starts[a.ticket] == a.startAbsolute
  {
    assert HoldsLastOffered(g.sessions[sid].phase) && HasItsStart(g.listeners, g.sessions[sid]);
  }

  // ----- all of it, for one dial -----

  ghost predicate Offered(candidates: seq<Candidate>, id: string) {
    exists i :: 0 <= i < |candidates| && candidates[i].id == id
  }

  lemma {:induction false} SnappedAcquiresOnce(g: Gateway, steps: seq<Step>, sid: nat)
    requires Legal(g, steps) && sid in g.sessions && TakeSnapshot(sid) !in steps
    requires g.sessions[sid].phase.Snapped? && UniqueIds(g.sessions[sid].phase.candidates)
    ensures var ids := Acquired(g, steps, sid);
      Distinct(ids) && forall id :: id in ids ==> Offered(g.sessions[sid].phase.candidates, id)
    decreases |steps|
  {
    if steps != [] {
      var g1 := Next(g, steps[0]);
      if steps[0] == Step.Begin(sid) {
        BegunAcquiresOnce(g, steps, sid);
      } else {
        OtherStepUsesNone(g, steps[0], sid);
        SnappedAcquiresOnce(g1, steps[1..], sid);
      }
    }
  }

  lemma BegunAcquiresOnce(g: Gateway, steps: seq<Step>, sid: nat)
    requires Legal(g, steps) && sid in g.sessions && TakeSnapshot(sid) !in steps
    requires g.sessions[sid].phase.Snapped? && UniqueIds(g.sessions[sid].phase.candidates)
    requires steps != [] && steps[0] == Step.Begin(sid)
    ensures var ids := Acquired(g, steps, sid);
      Distinct(ids) && forall id :: id in ids ==> Offered(g.sessions[sid].phase.candidates, id)
  {
    var cs, g1 := g.sessions[sid].phase.candidates, BeginAttempt(g, sid);
    AcquiresOnce(g1, steps[1..], sid);
    var a := AttemptIn(g1.sessions[sid].phase).value;
    forall id | id in Acquired(g1, steps[1..], sid) ensures Offered(cs, id) {
      AheadIsOffered(a, id);
    }
    assert Acquired(g, steps, sid) == [] + Acquired(g1, steps[1..], sid);
  }

  lemma AheadIsOffered(a: AttemptState, id: string)
    requires Ahead(a, a.offset, id)
    ensures Offered(a.candidates, id)
  {
    var k :| a.offset <= k < |a.candidates| && At(a.candidates, a.startAbsolute, k).id == id;
    assert a.candidates[Index(|a.candidates|, a.startAbsolute, k)].id == id;
  }

  /** Whatever happens around it, a dial over n candidates takes at most 3n + 2 steps of its own,
      has ended when it has taken that many, and acquires only nodes that were live at its
      snapshot, each at most once. */
  lemma OneDial(start: Gateway, before: seq<Step>, sid: nat, steps: seq<Step>)
    requires Initial(start) && Legal(start, before) && Enabled(Run(start, before), TakeSnapshot(sid))
    requires Legal(Next(Run(start, before), TakeSnapshot(sid)), steps) && TakeSnapshot(sid) !in steps
    ensures var g := Next(Run(start, before), TakeSnapshot(sid));
      var n := |Run(start, before).world.pool.order|;
      && sid in Run(g, steps).sessions
      && OwnSteps(steps, sid) <= 3 * n + 2
      && (OwnSteps(steps, sid) == 3 * n + 2 ==> !MidDial(Run(g, steps).sessions[sid].phase))
      && Distinct(Acquired(g, steps, sid))
      && (forall id :: id in Acquired(g, steps, sid) ==> id in Live(Run(start, before).world.pool))
  {
    ReachableIsGood(start, before);
    DialFrom(Run(start, before), sid, steps);
  }

  lemma DialFrom(g0: Gateway, sid: nat, steps: seq<Step>)
    requires Ordered(g0.world.pool) && Enabled(g0, TakeSnapshot(sid))
    requires Legal(Next(g0, TakeSnapshot(sid)), steps) && TakeSnapshot(sid) !in steps
    ensures var g, n := Next(g0, TakeSnapshot(sid)), |g0.world.pool.order|;
      && sid in Run(g, steps).sessions
      && OwnSteps(steps, sid) <= 3 * n + 2
      && (OwnSteps(steps, sid) == 3 * n + 2 ==> !MidDial(Run(g, steps).sessions[sid].phase))
      && Distinct(Acquired(g, steps, sid))
      && (forall id :: id in Acquired(g, steps, sid) ==> id in Live(g0.world.pool))
  {
    var g, p := Next(g0, TakeSnapshot(sid)), g0.world.pool;
    RegistryRuns.SnapshotMatchesAdmission(p);
    DialIsShort(g, steps, sid);
    SnappedAcquiresOnce(g, steps, sid);
    forall id | id in Acquired(g, steps, sid) ensures id in Live(p) {
      assert Offered(RoutingSnapshot(p), id);
    }
  }

  /** A dial's ticket is reported exactly when the dial has ended. */
  lemma TicketIsReportedAtTheEnd(start: Gateway, before: seq<Step>, sid: nat, l: nat, ticket: nat, steps: seq<Step>)
    requires Initial(start) && Legal(start, before) && HoldsTicket(Run(start, before), sid, l, ticket)
    requires Legal(Run(start, before), steps)
    ensures var g := Run(Run(start, before), steps);
      IsReported(g, l, ticket) <==> !HoldsTicket(g, sid, l, ticket)
  {
    ReachableIsGood(start, before);
    RunsKeepInv(Run(start, before), steps);
    HeldOrReportedAfter(Run(start, before), steps, sid, l, ticket);
    if HoldsTicket(Run(Run(start, before), steps), sid, l, ticket) {
      HeldIsUnreported(Run(Run(start, before), steps), sid, l, ticket);
    }
  }
}
