/** What each step of the gateway does, in terms of the fields of nodes, leases, attempts and
    selectors; everything not named stays as it was (internal/httpproxy/server.go,
    internal/app/app.go). */
module StepEffects {
  import opened Options
  import opened Ordering
  import opened EngineModel
  import opened SelectorModel
  import opened AttemptModel
  import opened RegistryModel
  import opened LeaseAccounting
  import opened Gateway
  import opened GatewayInvariant
  import NodeEffects
  import RegistryRuns

  // ----- marks -----

  /** A successful probe or dial makes a live node healthy and clears its failure; one that is being
      removed is left alone. A failure makes either kind unhealthy and failed. */
  lemma ProbeMarks(g: Gateway, i: nat, ok: bool, nextProbe: nat)
    requires g.app.Round? && i < |g.app.tasks| && g.app.tasks[i].stage.Probing?
    requires g.app.tasks[i].lease.id in g.world.pool.nodes
    ensures Enabled(g, MarkProbe(i, ok, nextProbe))
    ensures var id, task := g.app.tasks[i].lease.id, g.app.tasks[i];
      var n := g.world.pool.nodes[id];
      Next(g, MarkProbe(i, ok, nextProbe)) == g.(
        world := g.world.(pool := g.world.pool.(nodes := g.world.pool.nodes[id :=
          if ok && n.removed then n
          else if ok then n.(healthy := true, failed := false, nextProbe := nextProbe)
          else n.(healthy := false, failed := true, nextProbe := nextProbe)])),
        app := g.app.(tasks := g.app.tasks[i := task.(stage := Marked, marks := task.marks + 1)]))
  {
    NodeEffects.Succeeding(g.world, g.app.tasks[i].lease.id, nextProbe);
    NodeEffects.Failing(g.world, g.app.tasks[i].lease.id, true, nextProbe);
  }

  lemma DialWorksMarks(g: Gateway, sid: nat, nextProbe: nat)
    requires sid in g.sessions && g.sessions[sid].listener in g.listeners && g.sessions[sid].phase.Dialing?
    requires g.sessions[sid].phase.lease.id in g.world.pool.nodes
    ensures Enabled(g, DialWorks(sid, nextProbe))
    ensures var session, phase := g.sessions[sid], g.sessions[sid].phase;
      var n := g.world.pool.nodes[phase.lease.id];
      Next(g, DialWorks(sid, nextProbe)) == g.(
        world := g.world.(pool := g.world.pool.(nodes := g.world.pool.nodes[phase.lease.id :=
          if n.removed then n else n.(healthy := true, failed := false, nextProbe := nextProbe)])),
        sessions := g.sessions[sid := session.(phase := Committing(phase.attempt, phase.lease))])
  {
    NodeEffects.Succeeding(g.world, g.sessions[sid].phase.lease.id, nextProbe);
  }

  lemma DialFailsMarks(g: Gateway, sid: nat, nextProbe: nat)
    requires sid in g.sessions && g.sessions[sid].listener in g.listeners && g.sessions[sid].phase.Dialing?
    requires g.sessions[sid].phase.lease.id in g.world.pool.nodes
    ensures Enabled(g, DialFails(sid, nextProbe))
    ensures var session, phase := g.sessions[sid], g.sessions[sid].phase;
      var n := g.world.pool.nodes[phase.lease.id];
      Next(g, DialFails(sid, nextProbe)) == g.(
        world := g.world.(pool := g.world.pool.(nodes := g.world.pool.nodes[phase.lease.id :=
          n.(healthy := false, failed := true, nextProbe := nextProbe)])),
        sessions := g.sessions[sid := session.(phase := Phase.Failing(phase.attempt, phase.lease))])
  {
    NodeEffects.Failing(g.world, g.sessions[sid].phase.lease.id, true, nextProbe);
  }

  lemma PinnedDialFailsMarks(g: Gateway, sid: nat, nextProbe: nat)
    requires sid in g.sessions && g.sessions[sid].listener in g.listeners && g.sessions[sid].phase.Pinned?
    requires g.sessions[sid].phase.lease.id in g.world.pool.nodes
    ensures Enabled(g, PinnedDialFails(sid, nextProbe))
    ensures var id := g.sessions[sid].phase.lease.id;
      Next(g, PinnedDialFails(sid, nextProbe)) == g.(
        world := g.world.(pool := g.world.pool.(nodes := g.world.pool.nodes[id :=
          g.world.pool.nodes[id].(healthy := false, failed := true, nextProbe := nextProbe)])))
  {
    NodeEffects.Failing(g.world, g.sessions[sid].phase.lease.id, true, nextProbe);
  }

  // ----- a dial -----

  /** The snapshot lists the live nodes in order; a node is offered half-open exactly if no live
      node is healthy and its gate is free, and is eligible exactly if healthy or so offered. */
  lemma SnapshotTaken(g: Gateway, sid: nat)
    requires Ordered(g.world.pool) && sid in g.sessions && g.sessions[sid].listener in g.listeners
    requires g.sessions[sid].phase.Ready?
    ensures Enabled(g, TakeSnapshot(sid))
    ensures var p, g' := g.world.pool, Next(g, TakeSnapshot(sid));
      var noneHealthy := forall id :: id in p.nodes && !p.nodes[id].removed ==> !p.nodes[id].healthy;
      && sid in g'.sessions && g'.sessions[sid].phase.Snapped?
      && g' == g.(sessions := g.sessions[sid := g.sessions[sid].(phase := g'.sessions[sid].phase)])
      && var cs := g'.sessions[sid].phase.candidates;
      && |cs| == |p.order|
      && (forall i :: 0 <= i < |cs| ==>
            && p.order[i] in p.nodes
            && var n := p.nodes[p.order[i]];
               cs[i] == Candidate(p.order[i], n.healthy || (noneHealthy && !n.probing), noneHealthy && !n.probing))
  {
    RegistryRuns.SnapshotMatchesAdmission(g.world.pool);
  }

  /** Begin takes the next ticket and the next reserved start, unless there is no candidate. */
  lemma TicketDrawn(g: Gateway, sid: nat)
    requires sid in g.sessions && g.sessions[sid].listener in g.listeners && g.sessions[sid].phase.Snapped?
    ensures Enabled(g, Step.Begin(sid))
    ensures var session, cs := g.sessions[sid], g.sessions[sid].phase.candidates;
      var listener := g.listeners[session.listener];
      var s, h := listener.selector, listener.history;
      Next(g, Step.Begin(sid)) ==
      if cs == [] then
        g.(sessions := g.sessions[sid := session.(phase := Choosing(AttemptState([], 0, 0, false, 0, map[], false)))])
      else
        g.(sessions := g.sessions[sid :=
             session.(phase := Choosing(AttemptState(cs, s.reservationNext, s.nextTicket, true, 0, map[], false)))],
           listeners := g.listeners[session.listener := listener.(
             selector := s.(nextTicket := s.nextTicket + 1, reservationNext := s.reservationNext + 1),
             history := h.(starts := h.starts + [s.reservationNext]))])
  {
  }

  /** Next gives up exactly when no eligible candidate is left, and then the ticket is aborted. */
  lemma GivesUpOnlyWhenNoneIsLeft(g: Gateway, sid: nat)
    requires sid in g.sessions && g.sessions[sid].listener in g.listeners && g.sessions[sid].phase.Choosing?
    requires WellFormed(g.sessions[sid].phase)
    ensures Enabled(g, Choose(sid)) && sid in Next(g, Choose(sid)).sessions
    ensures var a, phase := g.sessions[sid].phase.attempt, Next(g, Choose(sid)).sessions[sid].phase;
      && (phase.Ready? <==> forall k :: a.offset <= k < |a.candidates| ==> !At(a.candidates, a.startAbsolute, k).eligible)
      && (phase.Ready? || phase.Dialing? || phase.Choosing?)
  {
    NextEndsIff(g.sessions[sid].phase.attempt);
  }

  lemma GivingUpAborts(g: Gateway, sid: nat)
    requires sid in g.sessions && g.sessions[sid].listener in g.listeners && g.sessions[sid].phase.Choosing?
    requires WellFormed(g.sessions[sid].phase)
    requires var a := g.sessions[sid].phase.attempt;
      forall k :: a.offset <= k < |a.candidates| ==> !At(a.candidates, a.startAbsolute, k).eligible
    ensures Enabled(g, Choose(sid))
    ensures var a, l := g.sessions[sid].phase.attempt, g.sessions[sid].listener;
      var s, h := g.listeners[l].selector, g.listeners[l].history;
      Next(g, Choose(sid)) == g.(
        sessions := g.sessions[sid := g.sessions[sid].(phase := Ready)],
        listeners := if !a.reserved then g.listeners else g.listeners[l := g.listeners[l].(
          selector := Finish(s, a.ticket, Aborted), history := Finished(s, h, a.ticket, Aborted))])
  {
    NextEndsIff(g.sessions[sid].phase.attempt);
  }

  /** Otherwise the first eligible candidate from the offset on is passed and, if the registry still
      admits it, dialed; a candidate that has gone, is being removed, or is unhealthy and either
      gated or not offered half-open is skipped without a change. */
  lemma FirstLeftIsTried(g: Gateway, sid: nat, k: nat)
    requires sid in g.sessions && g.sessions[sid].listener in g.listeners && g.sessions[sid].phase.Choosing?
    requires WellFormed(g.sessions[sid].phase)
    requires var a := g.sessions[sid].phase.attempt;
      && a.offset <= k < |a.candidates| && At(a.candidates, a.startAbsolute, k).eligible
      && (forall j :: a.offset <= j < k ==> !At(a.candidates, a.startAbsolute, j).eligible)
    ensures Enabled(g, Choose(sid))
    ensures var a, nodes := g.sessions[sid].phase.attempt, g.world.pool.nodes;
      var id := At(a.candidates, a.startAbsolute, k).id;
      var a' := a.(offset := k + 1, returned := a.returned[id := k]);
      var offeredHalfOpen := exists i :: 0 <= i < |a.candidates| && a.candidates[i].id == id && a.candidates[i].halfOpen;
      Next(g, Choose(sid)) ==
      if id in nodes && !nodes[id].removed && (nodes[id].healthy || (offeredHalfOpen && !nodes[id].probing)) then
        var n := nodes[id];
        var lease := Lease(id, n.dialer, !n.healthy);
        g.(world := World(
             g.world.pool.(nodes := nodes[id := n.(active := n.active + 1, probing := n.probing || !n.healthy)]),
             g.world.engine, g.world.open + multiset{lease}),
           sessions := g.sessions[sid := g.sessions[sid].(phase := Phase.Dialing(a', lease))])
      else
        g.(sessions := g.sessions[sid := g.sessions[sid].(phase := Choosing(a'))])
  {
    var a := g.sessions[sid].phase.attempt;
    var id := At(a.candidates, a.startAbsolute, k).id;
    NextOffersFirstLeft(a, k);
    NodeEffects.Acquiring(g.world, id, OfferedHalfOpen(a.candidates, id));
  }

  /** A failed candidate's lease is closed and the attempt goes on. */
  lemma FailedIsGivenBack(g: Gateway, sid: nat)
    requires sid in g.sessions && g.sessions[sid].listener in g.listeners && g.sessions[sid].phase.Failing?
    requires g.sessions[sid].phase.lease in g.world.open
    ensures Enabled(g, CloseFailed(sid))
    ensures var session := g.sessions[sid];
      Next(g, CloseFailed(sid)) == g.(world := Act(g.world, CloseLease(session.phase.lease)),
        sessions := g.sessions[sid := session.(phase := Choosing(session.phase.attempt))])
  {
  }

  /** A dial that connected pins its lease and reports one past the offset at which its node was
      offered, from its start. */
  lemma CommitPins(g: Gateway, sid: nat, k: nat)
    requires sid in g.sessions && g.sessions[sid].listener in g.listeners && g.sessions[sid].phase.Committing?
    requires var phase := g.sessions[sid].phase;
      phase.attempt.reserved && phase.lease.id in phase.attempt.returned && phase.attempt.returned[phase.lease.id] == k
    ensures Enabled(g, Commit(sid))
    ensures var session, a, l := g.sessions[sid], g.sessions[sid].phase.attempt, g.sessions[sid].listener;
      var s, h, outcome := g.listeners[l].selector, g.listeners[l].history, Committed(a.startAbsolute + k + 1);
      Next(g, Commit(sid)) == g.(
        sessions := g.sessions[sid := session.(phase := Pinned(session.phase.lease))],
        listeners := g.listeners[l := g.listeners[l].(
          selector := Finish(s, a.ticket, outcome), history := Finished(s, h, a.ticket, outcome))])
  {
  }

  // ----- connections -----

  lemma ClientConnects(g: Gateway, sid: nat, l: nat)
    requires sid !in g.sessions && l in g.listeners
    ensures Enabled(g, Connect(sid, l))
    ensures Next(g, Connect(sid, l)) == g.(sessions := g.sessions[sid := Session(l, Ready, false, true)],
              listeners := g.listeners[l := g.listeners[l].(active := g.listeners[l].active + 1)])
  {
  }

  /** The first release closes the pinned lease, if there is one, and later lowers the count. */
  lemma ClientDisconnects(g: Gateway, sid: nat)
    requires sid in g.sessions && g.sessions[sid].listener in g.listeners && !g.sessions[sid].released
    requires g.sessions[sid].phase.Ready? || (g.sessions[sid].phase.Pinned? && g.sessions[sid].phase.lease in g.world.open)
    ensures Enabled(g, Disconnect(sid))
    ensures var session := g.sessions[sid];
      Next(g, Disconnect(sid)) == g.(
        world := if session.phase.Pinned? then Act(g.world, CloseLease(session.phase.lease)) else g.world,
        sessions := g.sessions[sid := session.(phase := Ready, released := true)])
  {
  }

  lemma ReleaseCountsDown(g: Gateway, sid: nat)
    requires sid in g.sessions && g.sessions[sid].listener in g.listeners && g.sessions[sid].released && g.sessions[sid].counted
    ensures Enabled(g, CountDown(sid))
    ensures var l := g.sessions[sid].listener;
      Next(g, CountDown(sid)) == g.(sessions := g.sessions[sid := g.sessions[sid].(counted := false)],
        listeners := g.listeners[l := g.listeners[l].(active := g.listeners[l].active - 1)])
  {
  }

  // ----- the app -----

  /** The refresh mutex, Apply under it, and a probe round under it. */
  lemma AppSteps(g: Gateway, specs: seq<NodeSpec>, order: seq<string>, library: string -> Library)
    ensures g.app.Free? ==> Enabled(g, Lock) && Next(g, Lock) == g.(app := Locked)
    ensures g.app.Locked? ==> Enabled(g, Unlock) && Next(g, Unlock) == g.(app := Free)
    ensures g.app.Locked? && VisitsMissing(g.world.pool, specs, order) ==>
      var apply := ApplySnapshot(specs, order, library);
      Enabled(g, apply) && Next(g, apply) == g.(world := Act(g.world, Reload(specs, order, library)))
    ensures Enabled(g, ShutDown) && Next(g, ShutDown) == g.(world := Act(g.world, ShutEngine))
  {
  }

  lemma RoundStarts(g: Gateway, now: nat, concurrency: int)
    requires g.app.Locked?
    ensures Enabled(g, StartRound(now, concurrency))
    ensures var g' := Next(g, StartRound(now, concurrency));
      && g'.world == Act(g.world, TakeDue(now)) && g'.sessions == g.sessions && g'.listeners == g.listeners
      && g'.app.Round? && g'.app.slots == 0 && g'.app.capacity == (if concurrency < 1 then 1 else concurrency)
      && |g'.app.tasks| == |ProbeDue(g.world.pool, now).1|
      && (forall i :: 0 <= i < |g'.app.tasks| ==> g'.app.tasks[i] == Task(ProbeDue(g.world.pool, now).1[i], Queued, 0, 0))
  {
  }

  /** The steps of one probe around its mark, and the end of the round. */
  lemma ProbeSteps(g: Gateway, i: nat)
    requires g.app.Round?
    ensures i < |g.app.tasks| && g.app.tasks[i].stage.Queued? && g.app.slots < g.app.capacity ==>
      && Enabled(g, EnterProbe(i))
      && Next(g, EnterProbe(i)) == g.(app := g.app.(tasks := g.app.tasks[i := g.app.tasks[i].(stage := Probing)],
                                                    slots := g.app.slots + 1))
    ensures i < |g.app.tasks| && g.app.tasks[i].stage.Marked? && g.app.tasks[i].lease in g.world.open ==>
      && Enabled(g, CloseProbe(i))
      && Next(g, CloseProbe(i)) == g.(world := Act(g.world, CloseLease(g.app.tasks[i].lease)),
           app := g.app.(tasks := g.app.tasks[i := g.app.tasks[i].(stage := Closed, closes := g.app.tasks[i].closes + 1)]))
    ensures i < |g.app.tasks| && g.app.tasks[i].stage.Closed? && g.app.slots > 0 ==>
      && Enabled(g, LeaveProbe(i))
      && Next(g, LeaveProbe(i)) == g.(app := g.app.(tasks := g.app.tasks[i := g.app.tasks[i].(stage := Done)],
                                                    slots := g.app.slots - 1))
    ensures (forall k :: 0 <= k < |g.app.tasks| ==> g.app.tasks[k].stage.Done?) ==>
      Enabled(g, EndRound) && Next(g, EndRound) == g.(app := Free)
  {
  }
}
