/** Every step of the gateway keeps its invariant. */
module GatewayInvariant {
  import opened Options
  import opened Ordering
  import opened SelectorModel
  import opened AttemptModel
  import opened RegistryModel
  import opened LeaseAccounting
  import opened RegistryRuns
  import opened Gateway

  // ----- who holds which lease -----

  ghost function One(b: bool): nat {
    if b then 1 else 0
  }

  lemma SessionLeasesAfterMove(open: multiset<Lease>, open': multiset<Lease>, sessions: map<nat, Session>,
                               tasks: seq<Task>, sid: nat, session: Session)
    requires LeasesHeld(open, sessions, tasks)
    requires forall lease :: open'[lease] == open[lease]
               - One(sid in sessions && HeldIn(sessions[sid].phase) == Some(lease))
               + One(HeldIn(session.phase) == Some(lease))
    ensures LeasesHeld(open', sessions[sid := session], tasks)
  {
    var sessions' := sessions[sid := session];
    assert SessionLeases(sessions') == SessionLeases(sessions)[sid := HeldIn(session.phase)];
    forall lease: Lease
      ensures open'[lease] == Count(SessionLeases(sessions'), Some(lease)) + Count(TaskLeases(tasks), Some(lease))
    {
      CountAfterUpdate(SessionLeases(sessions), sid, HeldIn(session.phase), Some(lease));
    }
  }

  lemma TaskLeasesAfterStep(open: multiset<Lease>, open': multiset<Lease>, sessions: map<nat, Session>,
                            tasks: seq<Task>, i: nat, task: Task)
    requires LeasesHeld(open, sessions, tasks) && i < |tasks|
    requires forall lease :: open'[lease] == open[lease]
               - One(HeldByTask(tasks[i]) == Some(lease)) + One(HeldByTask(task) == Some(lease))
    ensures LeasesHeld(open', sessions, tasks[i := task])
  {
    var tasks' := tasks[i := task];
    assert TaskLeases(tasks') == TaskLeases(tasks)[i := HeldByTask(task)];
    forall lease: Lease
      ensures open'[lease] == Count(SessionLeases(sessions), Some(lease)) + Count(TaskLeases(tasks'), Some(lease))
    {
      CountAfterUpdate(TaskLeases(tasks), i, HeldByTask(task), Some(lease));
    }
  }

  /** A lease that a session holds is open, so the close that follows is always possible. */
  lemma SessionLeaseIsOpen(open: multiset<Lease>, sessions: map<nat, Session>, tasks: seq<Task>, sid: nat)
    requires LeasesHeld(open, sessions, tasks) && sid in sessions && HeldIn(sessions[sid].phase).Some?
    ensures HeldIn(sessions[sid].phase).value in open
  {
    var lease := HeldIn(sessions[sid].phase).value;
    CountIsPositive(SessionLeases(sessions), sid, Some(lease));
    assert open[lease] == Count(SessionLeases(sessions), Some(lease)) + Count(TaskLeases(tasks), Some(lease));
  }

  /** So is a lease that a probe holds. */
  lemma ProbeLeaseIsOpen(open: multiset<Lease>, sessions: map<nat, Session>, tasks: seq<Task>, i: nat)
    requires LeasesHeld(open, sessions, tasks) && i < |tasks| && HeldByTask(tasks[i]).Some?
    ensures HeldByTask(tasks[i]).value in open
  {
    var lease := HeldByTask(tasks[i]).value;
    CountIsPositive(TaskLeases(tasks), i, Some(lease));
    assert open[lease] == Count(SessionLeases(sessions), Some(lease)) + Count(TaskLeases(tasks), Some(lease));
  }

  lemma CountIsPositive<K, V>(m: map<K, V>, k: K, v: V)
    requires k in m && m[k] == v
    ensures Count(m, v) > 0
  {
    var carriers := set x | x in m && m[x] == v;
    CountIs(m, v, carriers);
    assert k in carriers;
  }

  // ----- tickets -----

  ghost predicate SameSelectors(before: map<nat, Listener>, after: map<nat, Listener>) {
    && after.Keys == before.Keys
    && forall l :: l in before ==> after[l].selector == before[l].selector && after[l].history == before[l].history
  }

  lemma TicketsTakenAfterMove(sessions: map<nat, Session>, sid: nat, session: Session, l: nat, t: nat)
    ensures Count(TicketsTaken(sessions[sid := session]), Some((l, t)))
            == Count(TicketsTaken(sessions), Some((l, t)))
               - One(sid in sessions && TicketOf(sessions[sid]) == Some((l, t)))
               + One(TicketOf(session) == Some((l, t)))
  {
    assert TicketsTaken(sessions[sid := session]) == TicketsTaken(sessions)[sid := TicketOf(session)];
    CountAfterUpdate(TicketsTaken(sessions), sid, TicketOf(session), Some((l, t)));
  }

  /** A running attempt's ticket is outstanding. */
  lemma TakenIsOutstanding(listeners: map<nat, Listener>, sessions: map<nat, Session>, sid: nat)
    requires TicketsHeld(listeners, sessions) && sid in sessions && TicketIn(sessions[sid].phase).Some?
    ensures var l := listeners[sessions[sid].listener];
      Outstanding(l.selector, l.history, TicketIn(sessions[sid].phase).value)
  {
    var l, t := sessions[sid].listener, TicketIn(sessions[sid].phase).value;
    CountIsPositive(TicketsTaken(sessions), sid, Some((l, t)));
    assert OneHolder(listeners[l], sessions, l, t);
  }

  /** Moves that neither take nor finish a ticket. */
  lemma TicketsKept(before: map<nat, Listener>, after: map<nat, Listener>, sessions: map<nat, Session>,
                    sid: nat, session: Session)
    requires TicketsHeld(before, sessions) && SameSelectors(before, after) && session.listener in before
    requires TicketOf(session) == if sid in sessions then TicketOf(sessions[sid]) else None
    ensures TicketsHeld(after, sessions[sid := session])
  {
    var sessions' := sessions[sid := session];
    forall l, t | l in after ensures OneHolder(after[l], sessions', l, t) {
      assert OneHolder(before[l], sessions, l, t);
      TicketsTakenAfterMove(sessions, sid, session, l, t);
    }
  }

  /** A move that changes one listener's selector together with its own session's ticket. */
  lemma TicketsMoved(listeners: map<nat, Listener>, sessions: map<nat, Session>, sid: nat, session: Session,
                     s: Selector, h: History)
    requires TicketsHeld(listeners, sessions) && sid in sessions && session.listener == sessions[sid].listener
    requires var l := listeners[session.listener];
      forall t: nat :: One(Outstanding(s, h, t)) == One(Outstanding(l.selector, l.history, t))
        - One(TicketIn(sessions[sid].phase) == Some(t)) + One(TicketIn(session.phase) == Some(t))
    ensures TicketsHeld(listeners[session.listener := listeners[session.listener].(selector := s, history := h)],
                        sessions[sid := session])
  {
    var after := listeners[session.listener := listeners[session.listener].(selector := s, history := h)];
    var sessions' := sessions[sid := session];
    forall l, t | l in after ensures OneHolder(after[l], sessions', l, t) {
      assert OneHolder(listeners[l], sessions, l, t);
      TicketsTakenAfterMove(sessions, sid, session, l, t);
    }
  }

  lemma TicketTaken(listeners: map<nat, Listener>, sessions: map<nat, Session>, sid: nat, session: Session)
    requires TicketsHeld(listeners, sessions) && SelectorsReachable(listeners)
    requires sid in sessions && TicketIn(sessions[sid].phase).None?
    requires session.listener == sessions[sid].listener
    requires TicketIn(session.phase) == Some(listeners[session.listener].selector.nextTicket)
    ensures var l := session.listener;
      var s, h := listeners[l].selector, listeners[l].history;
      var after := listeners[l := listeners[l].(selector := Reserve(s), history := Reserved(s, h))];
      TicketsHeld(after, sessions[sid := session]) && SelectorsReachable(after)
  {
    var s, h := listeners[session.listener].selector, listeners[session.listener].history;
    TicketAppears(s, h, TicketIn(sessions[sid].phase), TicketIn(session.phase));
    ReserveKeepsInv(s, h);
    TicketsMoved(listeners, sessions, sid, session, Reserve(s), Reserved(s, h));
  }

  lemma TicketAppears(s: Selector, h: History, held: Option<nat>, now: Option<nat>)
    requires Inv(s, h) && held.None? && now == Some(s.nextTicket)
    ensures forall t: nat :: One(Outstanding(Reserve(s), Reserved(s, h), t))
                             == One(Outstanding(s, h, t)) - One(held == Some(t)) + One(now == Some(t))
  {
    OutstandingAfterReserve(s, h);
  }

  lemma OutstandingAfterReserve(s: Selector, h: History)
    requires Inv(s, h)
    ensures Inv(Reserve(s), Reserved(s, h))
    ensures forall t: nat :: Outstanding(Reserve(s), Reserved(s, h), t) <==> Outstanding(s, h, t) || t == s.nextTicket
    ensures !Outstanding(s, h, s.nextTicket)
  {
    ReserveKeepsInv(s, h);
  }

  lemma TicketFinished(listeners: map<nat, Listener>, sessions: map<nat, Session>, sid: nat, session: Session,
                       outcome: Outcome)
    requires TicketsHeld(listeners, sessions) && SelectorsReachable(listeners)
    requires sid in sessions && TicketIn(sessions[sid].phase).Some?
    requires session.listener == sessions[sid].listener && TicketIn(session.phase).None?
    ensures var l, ticket := session.listener, TicketIn(sessions[sid].phase).value;
      var s, h := listeners[l].selector, listeners[l].history;
      var after := listeners[l := listeners[l].(selector := Finish(s, ticket, outcome),
                                                history := Finished(s, h, ticket, outcome))];
      TicketsHeld(after, sessions[sid := session]) && SelectorsReachable(after)
  {
    var ticket := TicketIn(sessions[sid].phase).value;
    var s, h := listeners[session.listener].selector, listeners[session.listener].history;
    TakenIsOutstanding(listeners, sessions, sid);
    FinishKeepsInv(s, h, ticket, outcome);
    OutstandingAfterFinish(s, h, ticket, outcome);
    TicketsMoved(listeners, sessions, sid, session, Finish(s, ticket, outcome), Finished(s, h, ticket, outcome));
  }

  lemma OutstandingAfterFinish(s: Selector, h: History, ticket: nat, outcome: Outcome)
    requires Inv(s, h) && Outstanding(s, h, ticket)
    ensures forall t: nat :: Outstanding(Finish(s, ticket, outcome), Finished(s, h, ticket, outcome), t)
                             <==> Outstanding(s, h, t) && t != ticket
  {
    FinishKeepsInv(s, h, ticket, outcome);
  }

  // ----- connection counts -----

  lemma CountsAfterMove(before: map<nat, Listener>, after: map<nat, Listener>, sessions: map<nat, Session>,
                        sid: nat, session: Session)
    requires ConnectionsCounted(before, sessions) && after.Keys == before.Keys
    requires forall l :: l in before ==>
               after[l].active == before[l].active
                 - One(sid in sessions && CountedOn(sessions[sid]) == Some(l)) + One(CountedOn(session) == Some(l))
    ensures ConnectionsCounted(after, sessions[sid := session])
  {
    var sessions' := sessions[sid := session];
    assert CountedSessions(sessions') == CountedSessions(sessions)[sid := CountedOn(session)];
    forall l | l in after ensures after[l].active == Count(CountedSessions(sessions'), Some(l)) {
      CountAfterUpdate(CountedSessions(sessions), sid, CountedOn(session), Some(l));
    }
  }

  // ----- the steps, one part of the invariant at a time -----

  /** The registry action a step performs, if any. */
  ghost function ActionOf(g: Gateway, step: Step): Option<Action>
    requires Enabled(g, step)
  {
    match step
    case Choose(sid) =>
      var a := g.sessions[sid].phase.attempt;
      var id := NextOf(a).1;
      if id.None? then None else Some(TryAcquire(id.value, OfferedHalfOpen(a.candidates, id.value)))
    case DialFails(sid, nextProbe) => Some(Fail(g.sessions[sid].phase.lease.id, true, nextProbe))
    case CloseFailed(sid) => Some(CloseLease(g.sessions[sid].phase.lease))
    case DialWorks(sid, nextProbe) => Some(Succeed(g.sessions[sid].phase.lease.id, nextProbe))
    case PinnedDialFails(sid, nextProbe) => Some(Fail(g.sessions[sid].phase.lease.id, true, nextProbe))
    case Disconnect(sid) => if g.sessions[sid].phase.Pinned? then Some(CloseLease(g.sessions[sid].phase.lease)) else None
    case ApplySnapshot(specs, order, library) => Some(Reload(specs, order, library))
    case StartRound(now, _) => Some(TakeDue(now))
    case MarkProbe(i, ok, nextProbe) =>
      var id := g.app.tasks[i].lease.id;
      Some(if ok then Succeed(id, nextProbe) else Fail(id, true, nextProbe))
    case CloseProbe(i) => Some(CloseLease(g.app.tasks[i].lease))
    case ShutDown => Some(ShutEngine)
    case _ => None
  }

  lemma StepActs(g: Gateway, step: Step)
    requires Enabled(g, step)
    ensures var a := ActionOf(g, step);
      && (a.Some? ==> Possible(g.world, a.value))
      && Next(g, step).world == if a.Some? then Act(g.world, a.value) else g.world
  {
  }

  lemma StepKeepsWorld(g: Gateway, step: Step)
    requires WorldInv(g.world) && Enabled(g, step)
    ensures WorldInv(Next(g, step).world)
  {
    StepActs(g, step);
    var a := ActionOf(g, step);
    if a.Some? {
      ActKeepsInv(g.world, a.value);
    }
  }

  ghost predicate GatewayLeases(g: Gateway) {
    LeasesHeld(g.world.open, g.sessions, TasksOf(g.app))
  }

  lemma {:induction false} NewTasksHoldTheLeases(leases: seq<Lease>, lease: Lease)
    ensures Count(TaskLeases(NewTasks(leases)), Some(lease)) == multiset(leases)[lease]
    decreases |leases|
  {
    if leases == [] {
      NoTasksHoldNothing(NewTasks(leases), lease);
      assert lease !in multiset(leases);
    } else {
      var n: nat := |leases| - 1;
      NewTasksHoldTheLeases(leases[..n], lease);
      assert leases == leases[..n] + [leases[n]];
      assert multiset(leases) == multiset(leases[..n]) + multiset{leases[n]};
      var before, after := TaskLeases(NewTasks(leases[..n])), TaskLeases(NewTasks(leases));
      assert n !in before;
      assert after == before[n := Some(leases[n])];
      CountAfterUpdate(before, n, Some(leases[n]), Some(lease));
    }
  }

  lemma NoTasksHoldNothing(tasks: seq<Task>, lease: Lease)
    requires forall i :: 0 <= i < |tasks| ==> HeldByTask(tasks[i]).None?
    ensures Count(TaskLeases(tasks), Some(lease)) == 0
  {
    CountIs(TaskLeases(tasks), Some(lease), {});
  }

  /** The session a step moves, if it moves one. */
  ghost function SessionOf(step: Step): Option<nat> {
    match step
    case Connect(sid, _) => Some(sid)
    case TakeSnapshot(sid) => Some(sid)
    case Begin(sid) => Some(sid)
    case Choose(sid) => Some(sid)
    case DialFails(sid, _) => Some(sid)
    case CloseFailed(sid) => Some(sid)
    case DialWorks(sid, _) => Some(sid)
    case Commit(sid) => Some(sid)
    case Disconnect(sid) => Some(sid)
    case CountDown(sid) => Some(sid)
    case _ => None
  }

  lemma SessionStepMoves(g: Gateway, step: Step, sid: nat)
    requires Enabled(g, step) && SessionOf(step) == Some(sid)
    ensures var g' := Next(g, step);
      && sid in g'.sessions && g'.sessions == g.sessions[sid := g'.sessions[sid]] && g'.app == g.app
      && (sid in g.sessions ==> g'.sessions[sid].listener == g.sessions[sid].listener)
  {
  }

  lemma SessionStepOpens(g: Gateway, step: Step, sid: nat, lease: Lease)
    requires Enabled(g, step) && SessionOf(step) == Some(sid)
    ensures var g' := Next(g, step);
      g'.world.open[lease] == g.world.open[lease]
        - One(sid in g.sessions && HeldIn(g.sessions[sid].phase) == Some(lease))
        + One(HeldIn(g'.sessions[sid].phase) == Some(lease))
  {
    if step.Choose? {
      ChoosingOpens(g, sid, lease);
    }
  }

  lemma ChoosingOpens(g: Gateway, sid: nat, lease: Lease)
    requires Enabled(g, Choose(sid))
    ensures var g' := Next(g, Choose(sid));
      && sid in g'.sessions
      && g'.world.open[lease] == g.world.open[lease] + One(HeldIn(g'.sessions[sid].phase) == Some(lease))
  {
  }

  lemma SessionStepKeepsLeases(g: Gateway, step: Step, sid: nat)
    requires GatewayLeases(g) && Enabled(g, step) && SessionOf(step) == Some(sid)
    ensures GatewayLeases(Next(g, step))
  {
    var g' := Next(g, step);
    SessionStepMoves(g, step, sid);
    forall lease: Lease {
      SessionStepOpens(g, step, sid, lease);
    }
    SessionLeasesAfterMove(g.world.open, g'.world.open, g.sessions, TasksOf(g.app), sid, g'.sessions[sid]);
  }

  /** The probe a step moves, if it moves one. */
  ghost function TaskOf(step: Step): Option<nat> {
    match step
    case EnterProbe(i) => Some(i)
    case MarkProbe(i, _, _) => Some(i)
    case CloseProbe(i) => Some(i)
    case LeaveProbe(i) => Some(i)
    case _ => None
  }

  lemma TaskStepMoves(g: Gateway, step: Step, i: nat)
    requires Enabled(g, step) && TaskOf(step) == Some(i)
    ensures var g' := Next(g, step);
      && g.app.Round? && i < |g.app.tasks| && g'.app.Round? && |g'.app.tasks| == |g.app.tasks|
      && g'.app.tasks == g.app.tasks[i := g'.app.tasks[i]] && g'.app.capacity == g.app.capacity
      && g'.app.slots == g.app.slots - One(InSlot(g.app.tasks[i])) + One(InSlot(g'.app.tasks[i]))
      && g'.sessions == g.sessions && g'.listeners == g.listeners
      && (g.app.slots <= g.app.capacity ==> g'.app.slots <= g'.app.capacity)
      && g'.app.tasks[i].lease == g.app.tasks[i].lease
      && (TaskOk(g.app.tasks[i]) ==> TaskOk(g'.app.tasks[i]))
  {
  }

  lemma TaskStepOpens(g: Gateway, step: Step, i: nat, lease: Lease)
    requires Enabled(g, step) && TaskOf(step) == Some(i)
    ensures var g' := Next(g, step);
      && g.app.Round? && i < |g.app.tasks| && g'.app.Round? && |g'.app.tasks| == |g.app.tasks|
      && g'.world.open[lease] == g.world.open[lease]
           - One(HeldByTask(g.app.tasks[i]) == Some(lease)) + One(HeldByTask(g'.app.tasks[i]) == Some(lease))
  {
  }

  lemma TaskStepKeepsLeases(g: Gateway, step: Step, i: nat)
    requires GatewayLeases(g) && Enabled(g, step) && TaskOf(step) == Some(i)
    ensures GatewayLeases(Next(g, step))
  {
    var g' := Next(g, step);
    TaskStepMoves(g, step, i);
    forall lease: Lease {
      TaskStepOpens(g, step, i, lease);
    }
    TaskLeasesAfterStep(g.world.open, g'.world.open, g.sessions, g.app.tasks, i, g'.app.tasks[i]);
  }

  lemma RoundStepKeepsLeases(g: Gateway, step: Step)
    requires GatewayLeases(g) && Enabled(g, step) && (step.StartRound? || step.EndRound?)
    ensures GatewayLeases(Next(g, step))
  {
    var g' := Next(g, step);
    forall lease: Lease
      ensures g'.world.open[lease]
              == Count(SessionLeases(g'.sessions), Some(lease)) + Count(TaskLeases(TasksOf(g'.app)), Some(lease))
    {
      assert g.world.open[lease]
             == Count(SessionLeases(g.sessions), Some(lease)) + Count(TaskLeases(TasksOf(g.app)), Some(lease));
      RoundStepOpens(g, step, lease);
    }
  }

  lemma RoundStepOpens(g: Gateway, step: Step, lease: Lease)
    requires Enabled(g, step) && (step.StartRound? || step.EndRound?)
    ensures var g' := Next(g, step);
      && g'.sessions == g.sessions
      && g'.world.open[lease] - g.world.open[lease]
         == Count(TaskLeases(TasksOf(g'.app)), Some(lease)) - Count(TaskLeases(TasksOf(g.app)), Some(lease))
  {
    NoTasksHoldNothing([], lease);
    if step.StartRound? {
      NewTasksHoldTheLeases(ProbeDue(g.world.pool, step.now).1, lease);
    } else {
      NoTasksHoldNothing(g.app.tasks, lease);
    }
  }

  lemma StepKeepsLeases(g: Gateway, step: Step)
    requires GatewayLeases(g) && Enabled(g, step)
    ensures GatewayLeases(Next(g, step))
  {
    if SessionOf(step).Some? {
      SessionStepKeepsLeases(g, step, SessionOf(step).value);
    } else if TaskOf(step).Some? {
      TaskStepKeepsLeases(g, step, TaskOf(step).value);
    } else if step.StartRound? || step.EndRound? {
      RoundStepKeepsLeases(g, step);
    } else {
      OtherStepsKeepHolders(g, step);
    }
  }

  lemma OtherStepsKeepHolders(g: Gateway, step: Step)
    requires Enabled(g, step) && SessionOf(step).None? && TaskOf(step).None? && !step.StartRound? && !step.EndRound?
    ensures var g' := Next(g, step);
      && g'.world.open == g.world.open && g'.sessions == g.sessions && g'.listeners == g.listeners
      && TasksOf(g'.app) == TasksOf(g.app) && (g'.app == g.app || !g'.app.Round?)
  {
  }

  // ----- tickets -----

  /** The outcome a step reports to its session's selector, if it reports one. */
  ghost function ReportOf(g: Gateway, step: Step): Option<Outcome>
    requires Enabled(g, step)
  {
    if step.Choose? then
      var a := g.sessions[step.sid].phase.attempt;
      if NextOf(a).1.None? && a.reserved then Some(Aborted) else None
    else if step.Commit? then
      var a := g.sessions[step.sid].phase.attempt;
      if a.reserved then Some(Committed(a.startAbsolute + a.returned[g.sessions[step.sid].phase.lease.id] + 1)) else None
    else None
  }

  lemma ReportingStepMoves(g: Gateway, step: Step)
    requires Enabled(g, step) && ReportOf(g, step).Some?
    ensures var sid, g' := step.sid, Next(g, step);
      var l := g.sessions[sid].listener;
      && sid in g'.sessions && TicketIn(g.sessions[sid].phase).Some? && TicketIn(g'.sessions[sid].phase).None?
      && g'.listeners == g.listeners[l := g.listeners[l].(
           selector := Finish(g.listeners[l].selector, TicketIn(g.sessions[sid].phase).value, ReportOf(g, step).value),
           history := Finished(g.listeners[l].selector, g.listeners[l].history,
                               TicketIn(g.sessions[sid].phase).value, ReportOf(g, step).value))]
  {
  }

  lemma ReservingStepMoves(g: Gateway, sid: nat)
    requires Enabled(g, Step.Begin(sid)) && g.sessions[sid].phase.candidates != []
    ensures var g' := Next(g, Step.Begin(sid));
      var l := g.sessions[sid].listener;
      var s, h := g.listeners[l].selector, g.listeners[l].history;
      && sid in g'.sessions && TicketIn(g.sessions[sid].phase).None?
      && TicketIn(g'.sessions[sid].phase) == Some(s.nextTicket)
      && g'.listeners == g.listeners[l := g.listeners[l].(selector := Reserve(s), history := Reserved(s, h))]
  {
  }

  lemma StepKeepsTickets(g: Gateway, step: Step)
    requires TicketsHeld(g.listeners, g.sessions) && SelectorsReachable(g.listeners) && Enabled(g, step)
    ensures TicketsHeld(Next(g, step).listeners, Next(g, step).sessions) && SelectorsReachable(Next(g, step).listeners)
  {
    if SessionOf(step).Some? {
      if ReportOf(g, step).Some? {
        ReportingStepKeepsTickets(g, step, SessionOf(step).value);
      } else if step.Begin? && g.sessions[step.sid].phase.candidates != [] {
        ReservingStepKeepsTickets(g, step.sid);
      } else {
        QuietStepKeepsTickets(g, step, SessionOf(step).value);
      }
    }
  }

  lemma ReportingStepKeepsTickets(g: Gateway, step: Step, sid: nat)
    requires TicketsHeld(g.listeners, g.sessions) && SelectorsReachable(g.listeners)
    requires Enabled(g, step) && SessionOf(step) == Some(sid) && ReportOf(g, step).Some?
    ensures TicketsHeld(Next(g, step).listeners, Next(g, step).sessions) && SelectorsReachable(Next(g, step).listeners)
  {
    var g' := Next(g, step);
    SessionStepMoves(g, step, sid);
    ReportingStepMoves(g, step);
    TicketFinished(g.listeners, g.sessions, sid, g'.sessions[sid], ReportOf(g, step).value);
  }

  lemma ReservingStepKeepsTickets(g: Gateway, sid: nat)
    requires TicketsHeld(g.listeners, g.sessions) && SelectorsReachable(g.listeners)
    requires Enabled(g, Step.Begin(sid)) && g.sessions[sid].phase.candidates != []
    ensures var g' := Next(g, Step.Begin(sid)); TicketsHeld(g'.listeners, g'.sessions) && SelectorsReachable(g'.listeners)
  {
    var g' := Next(g, Step.Begin(sid));
    SessionStepMoves(g, Step.Begin(sid), sid);
    ReservingStepMoves(g, sid);
    TicketTaken(g.listeners, g.sessions, sid, g'.sessions[sid]);
  }

  lemma QuietStepKeepsTickets(g: Gateway, step: Step, sid: nat)
    requires TicketsHeld(g.listeners, g.sessions) && SelectorsReachable(g.listeners)
    requires Enabled(g, step) && SessionOf(step) == Some(sid)
    requires ReportOf(g, step).None? && (step.Begin? ==> g.sessions[sid].phase.candidates == [])
    ensures TicketsHeld(Next(g, step).listeners, Next(g, step).sessions) && SelectorsReachable(Next(g, step).listeners)
  {
    var g' := Next(g, step);
    SessionStepMoves(g, step, sid);
    QuietStepKeepsTicket(g, step, sid);
    QuietStepKeepsSelectors(g, step, sid);
    TicketsKept(g.listeners, g'.listeners, g.sessions, sid, g'.sessions[sid]);
  }

  lemma QuietStepKeepsTicket(g: Gateway, step: Step, sid: nat)
    requires Enabled(g, step) && SessionOf(step) == Some(sid)
    requires ReportOf(g, step).None? && (step.Begin? ==> g.sessions[sid].phase.candidates == [])
    ensures sid in Next(g, step).sessions
    ensures TicketOf(Next(g, step).sessions[sid]) == if sid in g.sessions then TicketOf(g.sessions[sid]) else None
  {
    if step.Choose? {
      QuietChoiceKeepsTicket(g, sid);
    }
  }

  lemma QuietChoiceKeepsTicket(g: Gateway, sid: nat)
    requires Enabled(g, Choose(sid)) && ReportOf(g, Choose(sid)).None?
    ensures TicketOf(ChooseNext(g, sid).sessions[sid]) == TicketOf(g.sessions[sid])
  {
  }

  lemma QuietStepKeepsSelectors(g: Gateway, step: Step, sid: nat)
    requires Enabled(g, step) && SessionOf(step) == Some(sid)
    requires ReportOf(g, step).None? && (step.Begin? ==> g.sessions[sid].phase.candidates == [])
    ensures var g' := Next(g, step);
      sid in g'.sessions && SameSelectors(g.listeners, g'.listeners) && g'.sessions[sid].listener in g.listeners
  {
  }

  // ----- connection counts, shapes and rounds -----

  lemma StepKeepsCounts(g: Gateway, step: Step)
    requires ConnectionsCounted(g.listeners, g.sessions) && Enabled(g, step)
    ensures ConnectionsCounted(Next(g, step).listeners, Next(g, step).sessions)
  {
    var g' := Next(g, step);
    if SessionOf(step).Some? {
      var sid := SessionOf(step).value;
      SessionStepMoves(g, step, sid);
      SessionStepCounts(g, step, sid);
      CountsAfterMove(g.listeners, g'.listeners, g.sessions, sid, g'.sessions[sid]);
    }
  }

  lemma SessionStepCounts(g: Gateway, step: Step, sid: nat)
    requires Enabled(g, step) && SessionOf(step) == Some(sid)
    ensures var g' := Next(g, step);
      && sid in g'.sessions && g'.listeners.Keys == g.listeners.Keys
      && forall l :: l in g.listeners ==>
           g'.listeners[l].active == g.listeners[l].active
             - One(sid in g.sessions && CountedOn(g.sessions[sid]) == Some(l)) + One(CountedOn(g'.sessions[sid]) == Some(l))
  {
  }

  lemma StepKeepsShapes(g: Gateway, step: Step)
    requires (forall sid :: sid in g.sessions ==> WellFormed(g.sessions[sid].phase)) && Enabled(g, step)
    ensures forall sid :: sid in Next(g, step).sessions ==> WellFormed(Next(g, step).sessions[sid].phase)
  {
    if SessionOf(step).Some? {
      SessionStepMoves(g, step, SessionOf(step).value);
      SessionStepKeepsShape(g, step, SessionOf(step).value);
    }
  }

  lemma SessionStepKeepsShape(g: Gateway, step: Step, sid: nat)
    requires (sid in g.sessions ==> WellFormed(g.sessions[sid].phase)) && Enabled(g, step) && SessionOf(step) == Some(sid)
    ensures sid in Next(g, step).sessions && WellFormed(Next(g, step).sessions[sid].phase)
  {
    if step.Choose? {
      ChoiceKeepsShape(g, sid);
    }
  }

  lemma ChoiceKeepsShape(g: Gateway, sid: nat)
    requires Enabled(g, Choose(sid)) && WellFormed(g.sessions[sid].phase)
    ensures WellFormed(ChooseNext(g, sid).sessions[sid].phase)
  {
  }

  lemma StepKeepsRound(g: Gateway, step: Step)
    requires RoundOk(g.app) && Enabled(g, step)
    ensures RoundOk(Next(g, step).app)
  {
    var g' := Next(g, step);
    if SessionOf(step).Some? {
      SessionStepMoves(g, step, SessionOf(step).value);
    } else if TaskOf(step).Some? {
      TaskStepMoves(g, step, TaskOf(step).value);
      SlotsAfterStep(g.app, g'.app, TaskOf(step).value);
    } else if step.StartRound? {
      NobodyInSlot(g'.app.tasks);
    }
  }

  lemma SlotsAfterStep(before: AppPhase, after: AppPhase, i: nat)
    requires RoundOk(before) && before.Round? && after.Round? && i < |before.tasks| == |after.tasks|
    requires after.tasks == before.tasks[i := after.tasks[i]] && after.capacity == before.capacity
    requires after.slots == before.slots - One(InSlot(before.tasks[i])) + One(InSlot(after.tasks[i]))
    requires after.slots <= after.capacity && TaskOk(after.tasks[i])
    ensures RoundOk(after)
  {
    assert SlotHolders(after.tasks) == SlotHolders(before.tasks)[i := InSlot(after.tasks[i])];
    CountAfterUpdate(SlotHolders(before.tasks), i, InSlot(after.tasks[i]), true);
  }

  lemma NobodyInSlot(tasks: seq<Task>)
    requires forall i :: 0 <= i < |tasks| ==> !InSlot(tasks[i])
    ensures Count(SlotHolders(tasks), true) == 0
  {
    CountIs(SlotHolders(tasks), true, {});
  }

  lemma StepKeepsInv(g: Gateway, step: Step)
    requires GatewayInv(g) && Enabled(g, step)
    ensures GatewayInv(Next(g, step))
  {
    StepKeepsWorld(g, step);
    StepKeepsLeases(g, step);
    StepKeepsTickets(g, step);
    StepKeepsCounts(g, step);
    StepKeepsShapes(g, step);
    StepKeepsRound(g, step);
  }
}
