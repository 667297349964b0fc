/** Dials that start after their session's release. The program lets them happen (dial of
    internal/httpproxy/server.go never asks whether release has run), and they are exactly what can
    leave a lease behind. */
module LateDials {
  import opened Options
  import opened Ordering
  import opened EngineModel
  import opened SelectorModel
  import opened AttemptModel
  import opened RegistryModel
  import opened LeaseAccounting
  import opened ApplyTransaction
  import opened Gateway
  import opened GatewayInvariant
  import opened GatewayRuns
  import Dialing
  import RegistryRuns
  import Fairness

  /** The session pinned a lease after its release, so no release will close it. */
  ghost predicate Leaking(g: Gateway, sid: nat) {
    sid in g.sessions && g.sessions[sid].released && g.sessions[sid].phase.Pinned?
  }

  ghost predicate SomeLeak(g: Gateway) {
    exists sid :: Leaking(g, sid)
  }

  /** The step pins a lease for a session that is already released. */
  ghost predicate PinsLate(g: Gateway, step: Step) {
    step.Commit? && step.sid in g.sessions && g.sessions[step.sid].released
  }

  ghost predicate PinsLateIn(g: Gateway, steps: seq<Step>)
    requires Legal(g, steps)
    decreases |steps|
  {
    steps != [] && (PinsLate(g, steps[0]) || PinsLateIn(Next(g, steps[0]), steps[1..]))
  }

  lemma LeaksAfterStep(g: Gateway, step: Step, sid: nat)
    requires Enabled(g, step)
    ensures Leaking(Next(g, step), sid) <==> Leaking(g, sid) || (PinsLate(g, step) && step.sid == sid)
    ensures Leaking(g, sid) ==> Next(g, step).sessions[sid].phase == g.sessions[sid].phase
  {
  }

  lemma {:induction false} LeaksAfterRun(g: Gateway, steps: seq<Step>)
    requires Legal(g, steps)
    ensures SomeLeak(Run(g, steps)) <==> SomeLeak(g) || PinsLateIn(g, steps)
    decreases |steps|
  {
    if steps != [] {
      LeaksAfterRun(Next(g, steps[0]), steps[1..]);
      SomeLeakAfterStep(g, steps[0]);
    }
  }

  lemma SomeLeakAfterStep(g: Gateway, step: Step)
    requires Enabled(g, step)
    ensures SomeLeak(Next(g, step)) <==> SomeLeak(g) || PinsLate(g, step)
  {
    forall sid: nat ensures Leaking(Next(g, step), sid) <==> Leaking(g, sid) || (PinsLate(g, step) && step.sid == sid) {
      LeaksAfterStep(g, step, sid);
    }
    if PinsLate(g, step) {
      assert Leaking(Next(g, step), step.sid);
    }
  }

  // ----- exactly when finished sessions leave something behind -----

  /** Every session has been released, none is in the middle of a dial, and no probe holds a lease. */
  ghost predicate AllFinished(g: Gateway) {
    && (forall sid :: sid in g.sessions ==> g.sessions[sid].released)
    && (forall sid :: sid in g.sessions ==> g.sessions[sid].phase.Ready? || g.sessions[sid].phase.Pinned?)
    && (forall i :: 0 <= i < |TasksOf(g.app)| ==> HeldByTask(TasksOf(g.app)[i]).None?)
  }

  ghost predicate NoneActive(p: Pool) {
    forall id :: id in p.nodes ==> p.nodes[id].active == 0
  }

  ghost predicate NothingHeld(p: Pool) {
    forall id :: id in p.nodes ==> p.nodes[id].active == 0 && !p.nodes[id].probing && !p.nodes[id].removed
  }

  /** Once everything has finished, the pool is clean (or merely free of leases) if and only if no
      dial that started after its session's release pinned a node. The selectors are clean anyway. */
  lemma LeftBehindIff(start: Gateway, steps: seq<Step>)
    requires Initial(start) && Legal(start, steps) && AllFinished(Run(start, steps))
    ensures var g := Run(start, steps);
      && (NoneActive(g.world.pool) <==> !PinsLateIn(start, steps))
      && (NothingHeld(g.world.pool) <==> !PinsLateIn(start, steps))
      && (forall l :: l in g.listeners ==>
            var s := g.listeners[l].selector; s.retireTicket == s.nextTicket && s.reservationNext == s.cursor)
  {
    ReachableIsGood(start, steps);
    LeaksAfterRun(start, steps);
    assert !SomeLeak(start);
    HeldIffLeaking(Run(start, steps));
  }

  lemma HeldIffLeaking(g: Gateway)
    requires GatewayInv(g) && AllFinished(g)
    ensures NoneActive(g.world.pool) <==> !SomeLeak(g)
    ensures NothingHeld(g.world.pool) <==> !SomeLeak(g)
    ensures forall l :: l in g.listeners ==>
              var s := g.listeners[l].selector; s.retireTicket == s.nextTicket && s.reservationNext == s.cursor
  {
    NoneIsDialing(g);
    QuietSelectors(g.listeners, g.sessions);
    if SomeLeak(g) {
      SomeLeakHoldsSomeNode(g);
    } else {
      NotLeakingIsQuiet(g);
      QuietPool(g);
    }
  }

  lemma SomeLeakHoldsSomeNode(g: Gateway)
    requires WorldInv(g.world) && GatewayLeases(g) && SomeLeak(g)
    ensures !NoneActive(g.world.pool) && !NothingHeld(g.world.pool)
  {
    var sid: nat :| Leaking(g, sid);
    LeakHoldsNode(g, sid);
  }

  lemma NoneIsDialing(g: Gateway)
    requires AllFinished(g)
    ensures forall sid :: sid in g.sessions ==> TicketIn(g.sessions[sid].phase).None?
  {
  }

  lemma NotLeakingIsQuiet(g: Gateway)
    requires AllFinished(g) && !SomeLeak(g)
    ensures Quiet(g)
  {
    forall sid | sid in g.sessions ensures g.sessions[sid].phase.Ready? {
      assert !Leaking(g, sid);
    }
  }

  /** A leaked lease keeps its node stored, with a lease, and perhaps a gate, that nobody will give back. */
  lemma LeakHoldsNode(g: Gateway, sid: nat)
    requires WorldInv(g.world) && GatewayLeases(g) && Leaking(g, sid)
    ensures HoldsNode(g.world.pool, g.sessions[sid].phase.lease)
  {
    SessionLeaseIsOpen(g.world.open, g.sessions, TasksOf(g.app), sid);
    ReleaseGuardsHold(g.world, g.sessions[sid].phase.lease);
  }

  ghost predicate HoldsNode(p: Pool, lease: Lease) {
    lease.id in p.nodes && p.nodes[lease.id].active > 0 && (lease.gated ==> p.nodes[lease.id].probing)
  }

  /** The leak is for good: whatever happens afterwards, the node stays stored and leased, and a
      gate taken with the lease stays taken. */
  lemma {:induction false} LeaksAreForGood(g: Gateway, steps: seq<Step>, sid: nat)
    requires GatewayInv(g) && Legal(g, steps) && Leaking(g, sid)
    ensures Leaking(Run(g, steps), sid) && HoldsNode(Run(g, steps).world.pool, g.sessions[sid].phase.lease)
    decreases |steps|
  {
    if steps == [] {
      LeakHoldsNode(g, sid);
    } else {
      StepKeepsInv(g, steps[0]);
      LeaksAfterStep(g, steps[0], sid);
      LeaksAreForGood(Next(g, steps[0]), steps[1..], sid);
    }
  }

  // ----- runs without such a dial -----

  /** A dial starts on a session that is already released. */
  ghost predicate StartsLate(g: Gateway, step: Step) {
    step.TakeSnapshot? && step.sid in g.sessions && g.sessions[step.sid].released
  }

  ghost predicate StartsLateIn(g: Gateway, steps: seq<Step>)
    requires Legal(g, steps)
    decreases |steps|
  {
    steps != [] && (StartsLate(g, steps[0]) || StartsLateIn(Next(g, steps[0]), steps[1..]))
  }

  ghost predicate ReleasedAreReady(g: Gateway) {
    forall sid :: sid in g.sessions && g.sessions[sid].released ==> g.sessions[sid].phase.Ready?
  }

  lemma StepKeepsReleasedReady(g: Gateway, step: Step)
    requires Enabled(g, step) && ReleasedAreReady(g) && !StartsLate(g, step)
    ensures ReleasedAreReady(Next(g, step)) && !PinsLate(g, step)
  {
  }

  lemma {:induction false} NoLateStartNoLatePin(g: Gateway, steps: seq<Step>)
    requires Legal(g, steps) && ReleasedAreReady(g) && !StartsLateIn(g, steps)
    ensures ReleasedAreReady(Run(g, steps)) && !PinsLateIn(g, steps)
    decreases |steps|
  {
    if steps != [] {
      StepKeepsReleasedReady(g, steps[0]);
      NoLateStartNoLatePin(Next(g, steps[0]), steps[1..]);
    }
  }

  /** If no dial starts after its session's release, then finished sessions leave nothing behind,
      and every listener whose sessions have all counted down counts no connection. */
  lemma NoLateDialNothingLeft(start: Gateway, steps: seq<Step>)
    requires Initial(start) && Legal(start, steps) && AllFinished(Run(start, steps)) && !StartsLateIn(start, steps)
    ensures var g := Run(start, steps);
      && NothingHeld(g.world.pool) && !SomeLeak(g)
      && (forall l :: l in g.listeners && (forall sid :: sid in g.sessions ==> !g.sessions[sid].counted) ==>
            g.listeners[l].active == 0)
  {
    var g := Run(start, steps);
    NoLateStartNoLatePin(start, steps);
    LeftBehindIff(start, steps);
    LeaksAfterRun(start, steps);
    ReachableIsGood(start, steps);
    if forall sid :: sid in g.sessions ==> !g.sessions[sid].counted {
      forall l | l in g.listeners ensures g.listeners[l].active == 0 {
        CountIs(CountedSessions(g.sessions), Some(l), {});
      }
    }
  }

  // ----- such a dial happens -----

  /** Snapshot, ticket, first offer, connection, commit: a dial that meets no obstacle. */
  ghost function SmoothDial(sid: nat, nextProbe: nat): seq<Step> {
    [TakeSnapshot(sid), Step.Begin(sid), Choose(sid), DialWorks(sid, nextProbe), Commit(sid)]
  }

  /** The session moved from `g` to `g'`, and nothing else that matters to it did. */
  ghost predicate Moved(g: Gateway, g': Gateway, sid: nat, phase: Phase) {
    && In(g, sid) && g'.listeners.Keys == g.listeners.Keys
    && g'.sessions == g.sessions[sid := g.sessions[sid].(phase := phase)] && g'.app == g.app
  }

  lemma SnapshotTaken(g: Gateway, sid: nat) returns (g': Gateway)
    requires In(g, sid) && g.sessions[sid].phase.Ready?
    ensures Enabled(g, TakeSnapshot(sid)) && g' == Next(g, TakeSnapshot(sid))
    ensures Moved(g, g', sid, Snapped(RoutingSnapshot(g.world.pool))) && g'.world == g.world
  {
    g' := Next(g, TakeSnapshot(sid));
  }

  lemma TicketDrawn(g: Gateway, sid: nat) returns (g': Gateway, a: AttemptState)
    requires In(g, sid) && g.sessions[sid].phase.Snapped? && g.sessions[sid].phase.candidates != []
    ensures Enabled(g, Step.Begin(sid)) && g' == Next(g, Step.Begin(sid))
    ensures Moved(g, g', sid, Choosing(a)) && g'.world == g.world
    ensures a.candidates == g.sessions[sid].phase.candidates && a.offset == 0 && !a.finished
  {
    g' := Next(g, Step.Begin(sid));
    a := g'.sessions[sid].phase.attempt;
  }

  lemma OfferTaken(g: Gateway, sid: nat) returns (g': Gateway, lease: Lease)
    requires In(g, sid) && g.sessions[sid].phase.Choosing?
    requires var a := g.sessions[sid].phase.attempt;
      && a.candidates == RoutingSnapshot(g.world.pool) && a.offset == 0 && !a.finished
    requires Ordered(g.world.pool) && Fairness.SomeEligible(RoutingSnapshot(g.world.pool))
    ensures Enabled(g, Choose(sid)) && g' == Next(g, Choose(sid))
    ensures Moved(g, g', sid, Phase.Dialing(NextOf(g.sessions[sid].phase.attempt).0, lease))
    ensures lease.id in NextOf(g.sessions[sid].phase.attempt).0.returned
  {
    FirstOfferIsAdmitted(g.world.pool, g.sessions[sid].phase.attempt);
    g' := Next(g, Choose(sid));
    lease := g'.sessions[sid].phase.lease;
  }

  lemma Connected(g: Gateway, sid: nat, nextProbe: nat) returns (g': Gateway)
    requires In(g, sid) && g.sessions[sid].phase.Dialing?
    ensures Enabled(g, DialWorks(sid, nextProbe)) && g' == Next(g, DialWorks(sid, nextProbe))
    ensures Moved(g, g', sid, Committing(g.sessions[sid].phase.attempt, g.sessions[sid].phase.lease))
  {
    g' := Next(g, DialWorks(sid, nextProbe));
  }

  lemma PinnedAtLast(g: Gateway, sid: nat) returns (g': Gateway)
    requires In(g, sid) && g.sessions[sid].phase.Committing?
    requires g.sessions[sid].phase.lease.id in g.sessions[sid].phase.attempt.returned
    ensures Enabled(g, Commit(sid)) && g' == Next(g, Commit(sid))
    ensures Moved(g, g', sid, Pinned(g.sessions[sid].phase.lease))
  {
    g' := Next(g, Commit(sid));
  }

  /** Whenever a released session is idle and some node is admissible, one more dial on it leaks. */
  lemma LateDialLeaks(g: Gateway, sid: nat, nextProbe: nat)
    requires Ordered(g.world.pool) && In(g, sid) && g.sessions[sid].released && g.sessions[sid].phase.Ready?
    requires Fairness.SomeEligible(RoutingSnapshot(g.world.pool))
    ensures Legal(g, SmoothDial(sid, nextProbe))
    ensures var g' := Run(g, SmoothDial(sid, nextProbe));
      && Leaking(g', sid) && g'.app == g.app && g'.sessions == g.sessions[sid := g'.sessions[sid]]
  {
    var g1 := SnapshotTaken(g, sid);
    var g2, a := TicketDrawn(g1, sid);
    var g3, lease := OfferTaken(g2, sid);
    var g4 := Connected(g3, sid, nextProbe);
    var g5 := PinnedAtLast(g4, sid);
    RunOfFive(g, g1, g2, g3, g4, g5, SmoothDial(sid, nextProbe));
  }

  lemma FirstOfferIsAdmitted(p: Pool, a: AttemptState)
    requires Ordered(p) && Fairness.SomeEligible(RoutingSnapshot(p))
    requires a.candidates == RoutingSnapshot(p) && a.offset == 0 && !a.finished
    ensures var (a', id) := NextOf(a);
      id.Some? && id.value in a'.returned && Acquire(p, id.value, OfferedHalfOpen(a.candidates, id.value)).1.Some?
  {
    var cs := a.candidates;
    RegistryRuns.SnapshotMatchesAdmission(p);
    Fairness.NextPositionIsFirstEligible(cs, a.startAbsolute);
    var i := Index(|cs|, a.startAbsolute, NextOffset(cs, a.startAbsolute, 0));
    assert OfferedHalfOpen(cs, cs[i].id) == cs[i].halfOpen;
  }

  lemma RunOfFive(g: Gateway, g1: Gateway, g2: Gateway, g3: Gateway, g4: Gateway, g5: Gateway, steps: seq<Step>)
    requires |steps| == 5
    requires Enabled(g, steps[0]) && g1 == Next(g, steps[0]) && Enabled(g1, steps[1]) && g2 == Next(g1, steps[1])
    requires Enabled(g2, steps[2]) && g3 == Next(g2, steps[2]) && Enabled(g3, steps[3]) && g4 == Next(g3, steps[3])
    requires Enabled(g4, steps[4]) && g5 == Next(g4, steps[4])
    ensures Legal(g, steps) && Run(g, steps) == g5
  {
    assert steps[1..][1..] == steps[2..] && steps[2..][1..] == steps[3..] && steps[3..][1..] == steps[4..];
    assert steps[4..][1..] == [];
    assert Legal(g4, steps[4..]) && Run(g4, steps[4..]) == g5;
    assert Legal(g3, steps[3..]) && Run(g3, steps[3..]) == g5;
    assert Legal(g2, steps[2..]) && Run(g2, steps[2..]) == g5;
    assert Legal(g1, steps[1..]) && Run(g1, steps[1..]) == g5;
  }

  lemma {:induction false} RunsCompose(g: Gateway, first: seq<Step>, second: seq<Step>)
    requires Legal(g, first) && Legal(Run(g, first), second)
    ensures Legal(g, first + second) && Run(g, first + second) == Run(Run(g, first), second)
    decreases |first|
  {
    if first == [] {
      assert first + second == second;
    } else {
      RunsCompose(Next(g, first[0]), first[1..], second);
      assert (first + second)[1..] == first[1..] + second;
    }
  }

  /** A gateway with one listener, as New leaves it. */
  ghost function OneListener(): Gateway {
    Gateway(NEW_WORLD, map[0 := Listener(NEW_SELECTOR, NO_HISTORY, 0)], map[], Free)
  }

  /** A library that accepts every node. */
  ghost function Willing(): string -> Library {
    _ => Library(true, true)
  }

  /** One node is applied; one session connects and is released. */
  ghost function ComeAndGo(spec: NodeSpec): seq<Step> {
    [Lock, ApplySnapshot([spec], [spec.id], Willing()), Unlock, Connect(0, 0), Disconnect(0)]
  }

  lemma AfterComeAndGo(spec: NodeSpec)
    requires spec.id != ""
    ensures Initial(OneListener()) && Legal(OneListener(), ComeAndGo(spec))
    ensures var g := Run(OneListener(), ComeAndGo(spec));
      && g.sessions == map[0 := Session(0, Ready, true, true)] && In(g, 0) && g.app == Free
      && Fairness.SomeEligible(RoutingSnapshot(g.world.pool))
  {
    var g0 := OneListener();
    var g1, g2, g3 := Stocked(g0, spec, [spec], [spec.id]);
    var g4, g5 := Visited(g3);
    RunOfFive(g0, g1, g2, g3, g4, g5, ComeAndGo(spec));
  }

  lemma Refreshed(g: Gateway, specs: seq<NodeSpec>, order: seq<string>, library: string -> Library)
    returns (g1: Gateway, g2: Gateway, g3: Gateway)
    requires g.app == Free && VisitsMissing(g.world.pool, specs, order)
    ensures Enabled(g, Lock) && g1 == Next(g, Lock)
    ensures var apply := ApplySnapshot(specs, order, library); Enabled(g1, apply) && g2 == Next(g1, apply)
    ensures Enabled(g2, Unlock) && g3 == Next(g2, Unlock)
    ensures g3.sessions == g.sessions && g3.listeners == g.listeners && g3.app == Free
    ensures g3.world.pool == Apply(g.world.pool, g.world.engine, specs, order, library).0
  {
    g1 := Next(g, Lock);
    assert g1 == g.(app := Locked);
    g2 := Next(g1, ApplySnapshot(specs, order, library));
    assert g2 == g1.(world := Act(g.world, Reload(specs, order, library)));
    g3 := Next(g2, Unlock);
    assert g3 == g2.(app := Free);
  }

  lemma Stocked(g: Gateway, spec: NodeSpec, specs: seq<NodeSpec>, order: seq<string>)
    returns (g1: Gateway, g2: Gateway, g3: Gateway)
    requires g.world == NEW_WORLD && g.app == Free && spec.id != "" && specs == [spec] && order == [spec.id]
    ensures Enabled(g, Lock) && g1 == Next(g, Lock)
    ensures var apply := ApplySnapshot(specs, order, Willing()); Enabled(g1, apply) && g2 == Next(g1, apply)
    ensures Enabled(g2, Unlock) && g3 == Next(g2, Unlock)
    ensures g3.sessions == g.sessions && g3.listeners == g.listeners && g3.app == Free
    ensures Fairness.SomeEligible(RoutingSnapshot(g3.world.pool))
  {
    OneNodeIsEligible(spec);
    g1, g2, g3 := Refreshed(g, specs, order, Willing());
  }

  lemma Visited(g: Gateway) returns (g1: Gateway, g2: Gateway)
    requires g.sessions == map[] && 0 in g.listeners
    ensures Enabled(g, Connect(0, 0)) && g1 == Next(g, Connect(0, 0))
    ensures Enabled(g1, Disconnect(0)) && g2 == Next(g1, Disconnect(0))
    ensures g2.sessions == map[0 := Session(0, Ready, true, true)] && In(g2, 0)
    ensures g2.world == g.world && g2.app == g.app
  {
    g1 := Next(g, Connect(0, 0));
    g2 := Next(g1, Disconnect(0));
  }

  /** A pool with one new node admits it half-open. */
  lemma OneNodeIsEligible(spec: NodeSpec)
    requires spec.id != ""
    ensures VisitsMissing(NEW_POOL, [spec], [spec.id])
    ensures Fairness.SomeEligible(RoutingSnapshot(Apply(NEW_POOL, NEW_ENGINE, [spec], [spec.id], Willing()).0))
  {
    var id := spec.id;
    assert [spec][..0] == [];
    assert Wanted([spec]) == map[id := spec];
    assert id in [id];
    RegistryRuns.NewWorldIsGood();
    ApplyIsATransaction(NEW_WORLD, [spec], [id], Willing());
    var p := Apply(NEW_POOL, NEW_ENGINE, [spec], [id], Willing()).0;
    assert id in Elements(p.order);
    var i :| 0 <= i < |p.order| && p.order[i] == id;
    Dialing.EligibleMeansAdmissible(p, i);
  }

  /** After its release a session can still start the dial that leaks: a legal run in which
      everything has finished, yet one node is leased for good. */
  lemma LateDialHappens(spec: NodeSpec, nextProbe: nat)
    requires spec.id != ""
    ensures var start, steps := OneListener(), ComeAndGo(spec) + SmoothDial(0, nextProbe);
      && Initial(start) && Legal(start, steps)
      && var g := Run(start, steps);
         AllFinished(g) && Leaking(g, 0) && !NoneActive(g.world.pool)
  {
    AfterComeAndGo(spec);
    LeakAfter(OneListener(), ComeAndGo(spec), nextProbe);
  }

  lemma LeakAfter(start: Gateway, steps: seq<Step>, nextProbe: nat)
    requires Initial(start) && Legal(start, steps)
    requires var g := Run(start, steps);
      && g.sessions == map[0 := Session(0, Ready, true, true)] && In(g, 0) && g.app == Free
      && Fairness.SomeEligible(RoutingSnapshot(g.world.pool))
    ensures Legal(start, steps + SmoothDial(0, nextProbe))
    ensures var g := Run(start, steps + SmoothDial(0, nextProbe));
      AllFinished(g) && Leaking(g, 0) && !NoneActive(g.world.pool)
  {
    ReachablePoolIsOrdered(start, steps);
    LateDialLeaks(Run(start, steps), 0, nextProbe);
    RunsCompose(start, steps, SmoothDial(0, nextProbe));
    LoneLeakIsFinished(Run(start, steps + SmoothDial(0, nextProbe)));
    ReachableLeak(start, steps + SmoothDial(0, nextProbe), 0);
  }

  lemma ReachablePoolIsOrdered(start: Gateway, steps: seq<Step>)
    requires Initial(start) && Legal(start, steps)
    ensures Ordered(Run(start, steps).world.pool)
  {
    ReachableIsGood(start, steps);
  }

  lemma LoneLeakIsFinished(g: Gateway)
    requires Leaking(g, 0) && g.sessions.Keys == {0} && g.app == Free
    ensures AllFinished(g)
  {
  }

  lemma ReachableLeak(start: Gateway, steps: seq<Step>, sid: nat)
    requires Initial(start) && Legal(start, steps) && Leaking(Run(start, steps), sid)
    ensures !NoneActive(Run(start, steps).world.pool)
  {
    ReachableIsGood(start, steps);
    LeakHoldsNode(Run(start, steps), sid);
  }
}
