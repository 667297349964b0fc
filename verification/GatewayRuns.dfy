/** What every interleaving of sessions, probe rounds, refreshes and shutdown guarantees. */
module GatewayRuns {
  import opened Options
  import opened Ordering
  import opened SelectorModel
  import opened RegistryModel
  import opened LeaseAccounting
  import opened RegistryRuns
  import opened Gateway
  import opened GatewayInvariant

  /** A gateway as New leaves it: nothing built, every listener with its own fresh selector. */
  ghost predicate Initial(g: Gateway) {
    && g.world == NEW_WORLD && g.sessions == map[] && g.app == Free
    && forall l :: l in g.listeners ==> g.listeners[l] == Listener(NEW_SELECTOR, NO_HISTORY, 0)
  }

  ghost predicate Legal(g: Gateway, steps: seq<Step>)
    decreases |steps|
  {
    steps == [] || (Enabled(g, steps[0]) && Legal(Next(g, steps[0]), steps[1..]))
  }

  ghost function Run(g: Gateway, steps: seq<Step>): Gateway
    requires Legal(g, steps)
    decreases |steps|
  {
    if steps == [] then g else Run(Next(g, steps[0]), steps[1..])
  }

  lemma InitialIsGood(g: Gateway)
    requires Initial(g)
    ensures GatewayInv(g)
  {
    assert WorldInv(g.world);
    forall lease: Lease
      ensures g.world.open[lease] == Count(SessionLeases(g.sessions), Some(lease)) + Count(TaskLeases([]), Some(lease))
    {
      NothingCounted(SessionLeases(g.sessions), Some(lease));
      NothingCounted(TaskLeases([]), Some(lease));
    }
    forall l, t | l in g.listeners ensures OneHolder(g.listeners[l], g.sessions, l, t) {
      NothingCounted(TicketsTaken(g.sessions), Some((l, t)));
    }
    forall l | l in g.listeners ensures g.listeners[l].active == Count(CountedSessions(g.sessions), Some(l)) {
      NothingCounted(CountedSessions(g.sessions), Some(l));
    }
  }

  lemma NothingCounted<K, V>(m: map<K, V>, v: V)
    requires m == map[]
    ensures Count(m, v) == 0
  {
    CountIs(m, v, {});
  }

  lemma {:induction false} RunsKeepInv(g: Gateway, steps: seq<Step>)
    requires GatewayInv(g) && Legal(g, steps)
    ensures GatewayInv(Run(g, steps))
    decreases |steps|
  {
    if steps != [] {
      StepKeepsInv(g, steps[0]);
      RunsKeepInv(Next(g, steps[0]), steps[1..]);
    }
  }

  // ----- conservation of leases -----

  ghost predicate IsDial(phase: Phase) {
    phase.Dialing? || phase.Failing? || phase.Committing?
  }

  ghost function PinnedOn(g: Gateway, id: string): set<nat> {
    set sid | sid in g.sessions && g.sessions[sid].phase.Pinned? && g.sessions[sid].phase.lease.id == id
  }

  ghost function DialsOn(g: Gateway, id: string): set<nat> {
    set sid | sid in g.sessions && IsDial(g.sessions[sid].phase) && g.sessions[sid].phase.lease.id == id
  }

  ghost function ProbesOn(g: Gateway, id: string): set<nat> {
    set i | 0 <= i < |TasksOf(g.app)| && OnNode(HeldByTask(TasksOf(g.app)[i]), id)
  }

  ghost predicate OnNode(held: Option<Lease>, id: string) {
    held.Some? && held.value.id == id
  }

  ghost function HoldersOn(m: map<nat, Option<Lease>>, id: string): set<nat> {
    set k | k in m && OnNode(m[k], id)
  }

  /** Holders of a node's leases hold its gated or its plain lease. */
  lemma HoldersSplit(m: map<nat, Option<Lease>>, id: string, a: Lease, b: Lease)
    requires a != b && a.id == id && b.id == id
    requires forall k :: k in m && OnNode(m[k], id) ==> m[k].value == a || m[k].value == b
    ensures |HoldersOn(m, id)| == Count(m, Some(a)) + Count(m, Some(b))
  {
    var onA := set k | k in m && m[k] == Some(a);
    var onB := set k | k in m && m[k] == Some(b);
    CountIs(m, Some(a), onA);
    CountIs(m, Some(b), onB);
    assert onA !! onB && HoldersOn(m, id) == onA + onB;
  }

  lemma HeldAreNodeLeases(p: Pool, open: multiset<Lease>, sessions: map<nat, Session>, tasks: seq<Task>, id: string)
    requires Accounted(p, open) && LeasesHeld(open, sessions, tasks) && id in p.nodes
    ensures forall k :: k in SessionLeases(sessions) && OnNode(SessionLeases(sessions)[k], id) ==>
              SessionLeases(sessions)[k].value in {Gated(p, id), Plain(p, id)}
    ensures forall k :: k in TaskLeases(tasks) && OnNode(TaskLeases(tasks)[k], id) ==>
              TaskLeases(tasks)[k].value in {Gated(p, id), Plain(p, id)}
  {
    forall k | k in SessionLeases(sessions) && OnNode(SessionLeases(sessions)[k], id)
      ensures SessionLeases(sessions)[k].value in {Gated(p, id), Plain(p, id)}
    {
      SessionLeaseIsOpen(open, sessions, tasks, k);
    }
    forall k | k in TaskLeases(tasks) && OnNode(TaskLeases(tasks)[k], id)
      ensures TaskLeases(tasks)[k].value in {Gated(p, id), Plain(p, id)}
    {
      ProbeLeaseIsOpen(open, sessions, tasks, k);
    }
  }

  lemma SessionsSplit(g: Gateway, id: string)
    ensures |HoldersOn(SessionLeases(g.sessions), id)| == |PinnedOn(g, id)| + |DialsOn(g, id)|
  {
    assert HoldersOn(SessionLeases(g.sessions), id) == PinnedOn(g, id) + DialsOn(g, id);
    assert PinnedOn(g, id) !! DialsOn(g, id);
  }

  lemma HoldersAddUp(p: Pool, open: multiset<Lease>, sessions: map<nat, Session>, tasks: seq<Task>, id: string)
    requires Accounted(p, open) && LeasesHeld(open, sessions, tasks) && id in p.nodes
    ensures p.nodes[id].active == |HoldersOn(SessionLeases(sessions), id)| + |HoldersOn(TaskLeases(tasks), id)|
  {
    var gated, plain := Gated(p, id), Plain(p, id);
    HeldAreNodeLeases(p, open, sessions, tasks, id);
    HoldersSplit(SessionLeases(sessions), id, gated, plain);
    HoldersSplit(TaskLeases(tasks), id, gated, plain);
    assert Balanced(p, open, id);
    OpenIsHeld(open, sessions, tasks, gated);
    OpenIsHeld(open, sessions, tasks, plain);
  }

  lemma OpenIsHeld(open: multiset<Lease>, sessions: map<nat, Session>, tasks: seq<Task>, lease: Lease)
    requires LeasesHeld(open, sessions, tasks)
    ensures open[lease] == Count(SessionLeases(sessions), Some(lease)) + Count(TaskLeases(tasks), Some(lease))
  {
  }

  /** In every interleaving each node's `active` is the number of sessions pinned to it plus dials
      in flight on it plus probe leases on it, and each listener's connection count is the number
      of its sessions not yet released. */
  lemma ActiveIsConserved(start: Gateway, steps: seq<Step>, id: string)
    requires Initial(start) && Legal(start, steps) && id in Run(start, steps).world.pool.nodes
    ensures var g := Run(start, steps);
      && g.world.pool.nodes[id].active == |PinnedOn(g, id)| + |DialsOn(g, id)| + |ProbesOn(g, id)|
      && (forall l :: l in g.listeners ==>
            g.listeners[l].active == |SessionsOn(g.sessions, l)|)
  {
    ReachableIsGood(start, steps);
    ConnectionsAreSessions(Run(start, steps).listeners, Run(start, steps).sessions);
    var g := Run(start, steps);
    HoldersAddUp(g.world.pool, g.world.open, g.sessions, TasksOf(g.app), id);
    SessionsSplit(g, id);
    assert HoldersOn(TaskLeases(TasksOf(g.app)), id) == ProbesOn(g, id);
  }

  lemma ConnectionsAreSessions(listeners: map<nat, Listener>, sessions: map<nat, Session>)
    requires ConnectionsCounted(listeners, sessions)
    ensures forall l :: l in listeners ==> listeners[l].active == |SessionsOn(sessions, l)|
  {
    forall l: nat | l in listeners ensures listeners[l].active == |SessionsOn(sessions, l)| {
      CountIs(CountedSessions(sessions), Some(l), SessionsOn(sessions, l));
    }
  }

  /** The sessions that a listener counts: those that have not counted down. */
  ghost function SessionsOn(sessions: map<nat, Session>, l: nat): set<nat> {
    set sid | sid in sessions && sessions[sid].counted && sessions[sid].listener == l
  }

  // ----- quiescence -----

  /** No dial is running, no session is pinned and no probe holds a lease. */
  ghost predicate Quiet(g: Gateway) {
    && (forall sid :: sid in g.sessions ==> g.sessions[sid].phase.Ready?)
    && (forall i :: 0 <= i < |TasksOf(g.app)| ==> HeldByTask(TasksOf(g.app)[i]).None?)
  }

  lemma QuietHoldsNothing(g: Gateway, lease: Lease)
    requires GatewayLeases(g) && Quiet(g)
    ensures g.world.open[lease] == 0
  {
    NoTasksHoldNothing(TasksOf(g.app), lease);
    CountIs(SessionLeases(g.sessions), Some(lease), {});
    OpenIsHeld(g.world.open, g.sessions, TasksOf(g.app), lease);
  }

  lemma QuietSelectorIsIdle(listeners: map<nat, Listener>, sessions: map<nat, Session>, l: nat)
    requires TicketsHeld(listeners, sessions) && SelectorsReachable(listeners) && l in listeners
    requires forall sid :: sid in sessions ==> TicketIn(sessions[sid].phase).None?
    ensures var s := listeners[l].selector; Idle(s) && s.reservationNext == s.cursor
  {
    var t := listeners[l].selector.retireTicket;
    CountIs(TicketsTaken(sessions), Some((l, t)), {});
    assert OneHolder(listeners[l], sessions, l, t);
  }

  /** Whenever everything has finished, nothing is left behind: no leases, no gates, no node that is
      being removed, and every selector has retired all tickets and rolled its reservations back. */
  lemma NothingIsLeftBehind(start: Gateway, steps: seq<Step>)
    requires Initial(start) && Legal(start, steps) && Quiet(Run(start, steps))
    ensures var g := Run(start, steps);
      && (forall id :: id in g.world.pool.nodes ==>
            var n := g.world.pool.nodes[id]; n.active == 0 && !n.probing && !n.removed)
      && (forall l :: l in g.listeners ==>
            var s := g.listeners[l].selector; s.retireTicket == s.nextTicket && s.reservationNext == s.cursor)
  {
    ReachableIsGood(start, steps);
    QuietIsClean(Run(start, steps));
  }

  lemma QuietIsClean(g: Gateway)
    requires GatewayInv(g) && Quiet(g)
    ensures forall id :: id in g.world.pool.nodes ==>
              var n := g.world.pool.nodes[id]; n.active == 0 && !n.probing && !n.removed
    ensures forall l :: l in g.listeners ==>
              var s := g.listeners[l].selector; s.retireTicket == s.nextTicket && s.reservationNext == s.cursor
  {
    QuietPool(g);
    QuietSelectors(g.listeners, g.sessions);
  }

  lemma ReachableIsGood(start: Gateway, steps: seq<Step>)
    requires Initial(start) && Legal(start, steps)
    ensures GatewayInv(Run(start, steps))
  {
    InitialIsGood(start);
    RunsKeepInv(start, steps);
  }

  lemma QuietPool(g: Gateway)
    requires Accounted(g.world.pool, g.world.open) && GatewayLeases(g) && Quiet(g)
    ensures forall id :: id in g.world.pool.nodes ==>
              var n := g.world.pool.nodes[id]; n.active == 0 && !n.probing && !n.removed
  {
    forall id | id in g.world.pool.nodes
      ensures var n := g.world.pool.nodes[id]; n.active == 0 && !n.probing && !n.removed
    {
      QuietNode(g, id);
    }
  }

  lemma QuietSelectors(listeners: map<nat, Listener>, sessions: map<nat, Session>)
    requires TicketsHeld(listeners, sessions) && SelectorsReachable(listeners)
    requires forall sid :: sid in sessions ==> TicketIn(sessions[sid].phase).None?
    ensures forall l :: l in listeners ==>
              var s := listeners[l].selector; s.retireTicket == s.nextTicket && s.reservationNext == s.cursor
  {
    forall l | l in listeners
      ensures var s := listeners[l].selector; s.retireTicket == s.nextTicket && s.reservationNext == s.cursor
    {
      QuietSelectorIsIdle(listeners, sessions, l);
    }
  }

  lemma QuietNode(g: Gateway, id: string)
    requires Accounted(g.world.pool, g.world.open) && GatewayLeases(g) && Quiet(g) && id in g.world.pool.nodes
    ensures var n := g.world.pool.nodes[id]; n.active == 0 && !n.probing && !n.removed
  {
    QuietHoldsNothing(g, Gated(g.world.pool, id));
    QuietHoldsNothing(g, Plain(g.world.pool, id));
    assert Balanced(g.world.pool, g.world.open, id);
  }

  // ----- probe rounds -----

  /** Probes running now are those between taking and giving back a semaphore slot. */
  ghost function Running(g: Gateway): set<nat> {
    set i | 0 <= i < |TasksOf(g.app)| && InSlot(TasksOf(g.app)[i])
  }

  /** During a round at most max(1, concurrency) probes run at once; a round that ends has marked
      each of its nodes once and closed each of its leases once; and whenever the app may call
      Apply, as after a round, every open lease belongs to a session. */
  lemma ProbeRoundsAreBounded(start: Gateway, steps: seq<Step>)
    requires Initial(start) && Legal(start, steps)
    ensures var g := Run(start, steps);
      && (g.app.Round? ==> |Running(g)| <= g.app.capacity)
      && (Enabled(g, EndRound) ==> forall i :: 0 <= i < |g.app.tasks| ==> g.app.tasks[i].marks == 1 && g.app.tasks[i].closes == 1)
      && (!g.app.Round? || Enabled(g, EndRound) ==>
            forall lease :: g.world.open[lease] == Count(SessionLeases(g.sessions), Some(lease)))
  {
    ReachableIsGood(start, steps);
    RoundIsBounded(Run(start, steps));
  }

  /** Apply, and a new round, are possible only while no round runs, so that no probe lease is open. */
  lemma ApplyMeetsNoProbe(start: Gateway, steps: seq<Step>, step: Step)
    requires Initial(start) && Legal(start, steps) && Enabled(Run(start, steps), step)
    requires step.ApplySnapshot? || step.StartRound?
    ensures var g := Run(start, steps);
      !g.app.Round? && forall lease :: g.world.open[lease] == Count(SessionLeases(g.sessions), Some(lease))
  {
    ReachableIsGood(start, steps);
    RoundIsBounded(Run(start, steps));
  }

  lemma RoundIsBounded(g: Gateway)
    requires GatewayLeases(g) && RoundOk(g.app)
    ensures g.app.Round? ==> |Running(g)| <= g.app.capacity
    ensures Enabled(g, EndRound) ==> forall i :: 0 <= i < |g.app.tasks| ==> g.app.tasks[i].marks == 1 && g.app.tasks[i].closes == 1
    ensures !g.app.Round? || Enabled(g, EndRound) ==>
              forall lease :: g.world.open[lease] == Count(SessionLeases(g.sessions), Some(lease))
  {
    if g.app.Round? {
      RunningIsSlots(g.app.tasks, Running(g));
    }
    forall lease: Lease | !g.app.Round? || Enabled(g, EndRound)
      ensures g.world.open[lease] == Count(SessionLeases(g.sessions), Some(lease))
    {
      NoProbeHolds(g, lease);
    }
  }

  lemma NoProbeHolds(g: Gateway, lease: Lease)
    requires GatewayLeases(g) && (!g.app.Round? || Enabled(g, EndRound))
    ensures g.world.open[lease] == Count(SessionLeases(g.sessions), Some(lease))
  {
    NoTasksHoldNothing(TasksOf(g.app), lease);
    OpenIsHeld(g.world.open, g.sessions, TasksOf(g.app), lease);
  }

  lemma RunningIsSlots(tasks: seq<Task>, running: set<nat>)
    requires forall i :: i in running <==> 0 <= i < |tasks| && InSlot(tasks[i])
    ensures |running| == Count(SlotHolders(tasks), true)
  {
    CountIs(SlotHolders(tasks), true, running);
  }

  /** A round starts with exactly one probe per due node, each holding that node's gate. */
  lemma RoundStartsWithTheDue(start: Gateway, steps: seq<Step>, now: nat, concurrency: int)
    requires Initial(start) && Legal(start, steps) && Enabled(Run(start, steps), StartRound(now, concurrency))
    ensures var p := Run(start, steps).world.pool;
      var app := Next(Run(start, steps), StartRound(now, concurrency)).app;
      && app.capacity == (if concurrency < 1 then 1 else concurrency)
      && (forall i, j :: 0 <= i < j < |app.tasks| ==> app.tasks[i].lease.id != app.tasks[j].lease.id)
      && (forall i :: 0 <= i < |app.tasks| ==>
            var id := app.tasks[i].lease.id;
            && id in p.nodes && !p.nodes[id].removed && !p.nodes[id].probing && p.nodes[id].nextProbe <= now
            && app.tasks[i] == Task(Lease(id, p.nodes[id].dialer, true), Queued, 0, 0))
      && (forall id :: id in p.nodes && !p.nodes[id].removed && !p.nodes[id].probing && p.nodes[id].nextProbe <= now ==>
            exists i :: 0 <= i < |app.tasks| && app.tasks[i].lease.id == id)
  {
    ReachableIsGood(start, steps);
    NewTasksAreTheDue(Run(start, steps).world.pool, now);
  }

  lemma NewTasksAreTheDue(p: Pool, now: nat)
    requires Ordered(p)
    ensures var tasks := NewTasks(ProbeDue(p, now).1);
      && (forall i, j :: 0 <= i < j < |tasks| ==> tasks[i].lease.id != tasks[j].lease.id)
      && (forall i :: 0 <= i < |tasks| ==>
            var id := tasks[i].lease.id;
            && id in p.nodes && !p.nodes[id].removed && !p.nodes[id].probing && p.nodes[id].nextProbe <= now
            && tasks[i] == Task(Lease(id, p.nodes[id].dialer, true), Queued, 0, 0))
      && (forall id :: id in p.nodes && !p.nodes[id].removed && !p.nodes[id].probing && p.nodes[id].nextProbe <= now ==>
            HasTask(tasks, id))
  {
    DueLeases(p, now);
    var leases := ProbeDue(p, now).1;
    forall id | id in p.nodes && !p.nodes[id].removed && !p.nodes[id].probing && p.nodes[id].nextProbe <= now
      ensures HasTask(NewTasks(leases), id)
    {
      var i :| 0 <= i < |leases| && leases[i] == Lease(id, p.nodes[id].dialer, true);
      assert NewTasks(leases)[i].lease.id == id;
    }
  }

  ghost predicate HasTask(tasks: seq<Task>, id: string) {
    exists i :: 0 <= i < |tasks| && tasks[i].lease.id == id
  }

  /** The next step of the goroutine of probe `i`. */
  ghost function NextOfTask(tasks: seq<Task>, i: nat, ok: bool, nextProbe: nat): Step
    requires i < |tasks| && !tasks[i].stage.Done?
  {
    match tasks[i].stage
    case Queued => EnterProbe(i)
    case Probing => MarkProbe(i, ok, nextProbe)
    case Marked => CloseProbe(i)
    case Closed => LeaveProbe(i)
  }

  /** A round is never stuck: until it can end, some probe can take its next step, and one that
      holds a slot always can. */
  lemma RoundsNeverStick(start: Gateway, steps: seq<Step>, ok: bool, nextProbe: nat)
    requires Initial(start) && Legal(start, steps) && Run(start, steps).app.Round?
    ensures var g := Run(start, steps);
      && (forall i :: 0 <= i < |g.app.tasks| && InSlot(g.app.tasks[i]) ==>
            Enabled(g, NextOfTask(g.app.tasks, i, ok, nextProbe)))
      && (Enabled(g, EndRound) || exists i :: 0 <= i < |g.app.tasks| && !g.app.tasks[i].stage.Done?
                                         && Enabled(g, NextOfTask(g.app.tasks, i, ok, nextProbe)))
  {
    ReachableIsGood(start, steps);
    RoundGoesOn(Run(start, steps), ok, nextProbe);
  }

  lemma RoundGoesOn(g: Gateway, ok: bool, nextProbe: nat)
    requires GatewayLeases(g) && g.app.Round? && RoundOk(g.app)
    ensures forall i :: 0 <= i < |g.app.tasks| && InSlot(g.app.tasks[i]) ==>
              Enabled(g, NextOfTask(g.app.tasks, i, ok, nextProbe))
    ensures Enabled(g, EndRound) || exists i :: 0 <= i < |g.app.tasks| && !g.app.tasks[i].stage.Done?
                                       && Enabled(g, NextOfTask(g.app.tasks, i, ok, nextProbe))
  {
    var tasks := g.app.tasks;
    forall i | 0 <= i < |tasks| && InSlot(tasks[i]) ensures Enabled(g, NextOfTask(tasks, i, ok, nextProbe)) {
      InSlotGoesOn(g, i, ok, nextProbe);
    }
    if !Enabled(g, EndRound) {
      var i :| 0 <= i < |tasks| && !tasks[i].stage.Done?;
      if j :| 0 <= j < |tasks| && InSlot(tasks[j]) {
        assert Enabled(g, NextOfTask(tasks, j, ok, nextProbe));
      } else {
        NobodyInSlot(tasks);
        assert Enabled(g, NextOfTask(tasks, i, ok, nextProbe));
      }
    }
  }

  lemma InSlotGoesOn(g: Gateway, i: nat, ok: bool, nextProbe: nat)
    requires GatewayLeases(g) && g.app.Round? && RoundOk(g.app) && i < |g.app.tasks| && InSlot(g.app.tasks[i])
    ensures Enabled(g, NextOfTask(g.app.tasks, i, ok, nextProbe))
  {
    CountIsPositive(SlotHolders(g.app.tasks), i, true);
    if HeldByTask(g.app.tasks[i]).Some? {
      ProbeLeaseIsOpen(g.world.open, g.sessions, TasksOf(g.app), i);
    }
  }

  /** A failed dial, a disconnect and a finished probe can always give their lease back: the lease
      is open, so NodeLease.Close and release do real work exactly once. */
  lemma HeldLeasesAreOpen(start: Gateway, steps: seq<Step>)
    requires Initial(start) && Legal(start, steps)
    ensures var g := Run(start, steps);
      && (forall sid :: sid in g.sessions && g.sessions[sid].phase.Failing? ==> Enabled(g, CloseFailed(sid)))
      && (forall sid :: sid in g.sessions && g.sessions[sid].phase.Pinned? && !g.sessions[sid].released ==>
            Enabled(g, Disconnect(sid)))
      && (forall sid :: sid in g.sessions && g.sessions[sid].phase.Committing? ==> Enabled(g, Commit(sid)))
      && (forall i :: AtStage(g, i, Marked) ==> Enabled(g, CloseProbe(i)))
  {
    ReachableIsGood(start, steps);
    ClosesAreEnabled(Run(start, steps));
  }

  lemma ClosesAreEnabled(g: Gateway)
    requires GatewayLeases(g)
    requires forall sid :: sid in g.sessions ==> g.sessions[sid].listener in g.listeners && WellFormed(g.sessions[sid].phase)
    ensures forall sid :: sid in g.sessions && g.sessions[sid].phase.Failing? ==> Enabled(g, CloseFailed(sid))
    ensures forall sid :: sid in g.sessions && g.sessions[sid].phase.Pinned? && !g.sessions[sid].released ==>
              Enabled(g, Disconnect(sid))
    ensures forall sid :: sid in g.sessions && g.sessions[sid].phase.Committing? ==> Enabled(g, Commit(sid))
    ensures forall i :: AtStage(g, i, Marked) ==> Enabled(g, CloseProbe(i))
  {
    forall sid | sid in g.sessions && HeldIn(g.sessions[sid].phase).Some?
      ensures g.sessions[sid].phase.Failing? ==> Enabled(g, CloseFailed(sid))
      ensures g.sessions[sid].phase.Pinned? && !g.sessions[sid].released ==> Enabled(g, Disconnect(sid))
      ensures g.sessions[sid].phase.Committing? ==> Enabled(g, Commit(sid))
    {
      SessionCanClose(g, sid);
    }
    forall i: nat | AtStage(g, i, Marked) ensures Enabled(g, CloseProbe(i)) {
      ProbeLeaseIsOpen(g.world.open, g.sessions, TasksOf(g.app), i);
    }
  }

  lemma SessionCanClose(g: Gateway, sid: nat)
    requires GatewayLeases(g) && In(g, sid) && WellFormed(g.sessions[sid].phase)
    ensures g.sessions[sid].phase.Failing? ==> Enabled(g, CloseFailed(sid))
    ensures g.sessions[sid].phase.Pinned? && !g.sessions[sid].released ==> Enabled(g, Disconnect(sid))
    ensures g.sessions[sid].phase.Committing? ==> Enabled(g, Commit(sid))
  {
    if HeldIn(g.sessions[sid].phase).Some? {
      SessionLeaseIsOpen(g.world.open, g.sessions, TasksOf(g.app), sid);
    }
  }

  /** In every interleaving the node of a lease that a dial, a pinned session or a probe holds is
      stored, with a lease, so every mark and every close finds it. */
  lemma HeldNodesAreStored(start: Gateway, steps: seq<Step>)
    requires Initial(start) && Legal(start, steps)
    ensures var g := Run(start, steps);
      && (forall sid :: sid in g.sessions && (IsDial(g.sessions[sid].phase) || g.sessions[sid].phase.Pinned?) ==>
            var id := g.sessions[sid].phase.lease.id; id in g.world.pool.nodes && g.world.pool.nodes[id].active > 0)
      && (g.app.Round? ==>
            forall i :: 0 <= i < |g.app.tasks| && !g.app.tasks[i].stage.Closed? && !g.app.tasks[i].stage.Done? ==>
              var id := g.app.tasks[i].lease.id; id in g.world.pool.nodes && g.world.pool.nodes[id].active > 0)
  {
    ReachableIsGood(start, steps);
    HeldAreStored(Run(start, steps));
  }

  lemma HeldAreStored(g: Gateway)
    requires WorldInv(g.world) && GatewayLeases(g)
    ensures forall sid :: sid in g.sessions && (IsDial(g.sessions[sid].phase) || g.sessions[sid].phase.Pinned?) ==>
              var id := g.sessions[sid].phase.lease.id; id in g.world.pool.nodes && g.world.pool.nodes[id].active > 0
    ensures g.app.Round? ==>
              forall i :: 0 <= i < |g.app.tasks| && !g.app.tasks[i].stage.Closed? && !g.app.tasks[i].stage.Done? ==>
                var id := g.app.tasks[i].lease.id; id in g.world.pool.nodes && g.world.pool.nodes[id].active > 0
  {
    forall sid | sid in g.sessions && (IsDial(g.sessions[sid].phase) || g.sessions[sid].phase.Pinned?)
      ensures var id := g.sessions[sid].phase.lease.id; id in g.world.pool.nodes && g.world.pool.nodes[id].active > 0
    {
      SessionLeaseIsOpen(g.world.open, g.sessions, TasksOf(g.app), sid);
      ReleaseGuardsHold(g.world, g.sessions[sid].phase.lease);
    }
    if g.app.Round? {
      forall i | 0 <= i < |g.app.tasks| && !g.app.tasks[i].stage.Closed? && !g.app.tasks[i].stage.Done?
        ensures var id := g.app.tasks[i].lease.id; id in g.world.pool.nodes && g.world.pool.nodes[id].active > 0
      {
        ProbeLeaseIsOpen(g.world.open, g.sessions, TasksOf(g.app), i);
        ReleaseGuardsHold(g.world, g.app.tasks[i].lease);
      }
    }
  }
}
