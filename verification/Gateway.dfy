/** The whole gateway as one state machine: any number of connection sessions on any number of
    listeners, the app's refreshes and probe rounds, and the engine's shutdown, interleaved at
    the granularity of the program's critical sections (internal/httpproxy/server.go,
    internal/app/app.go, over the registry, engine and selectors). */
module Gateway {
  import opened Options
  import opened Ordering
  import opened EngineModel
  import opened SelectorModel
  import opened AttemptModel
  import opened RegistryModel
  import opened LeaseAccounting

  /** Where a session is. Everything from Snapped to Committing happens inside one dial, which
      holds the session's mutex, so release waits for it. */
  datatype Phase =
    | Ready
    | Snapped(candidates: seq<Candidate>)
    | Choosing(attempt: AttemptState)
    | Dialing(attempt: AttemptState, lease: Lease)
    | Failing(attempt: AttemptState, lease: Lease)
    | Committing(attempt: AttemptState, lease: Lease)
    | Pinned(lease: Lease)

  /** `released` once release has run under the session's mutex, `counted` until it has then lowered
      its listener's connection count. Nothing stops a released session from dialing again. */
  datatype Session = Session(listener: nat, phase: Phase, released: bool, counted: bool)

  /** One goroutine of a probe round, with how often it has marked its node and closed its lease. */
  datatype Stage = Queued | Probing | Marked | Closed | Done

  datatype Task = Task(lease: Lease, stage: Stage, marks: nat, closes: nat)

  /** What the holder of the app's refresh mutex is doing. */
  datatype AppPhase = Free | Locked | Round(tasks: seq<Task>, slots: nat, capacity: nat)

  datatype Listener = Listener(selector: Selector, history: History, active: int)

  datatype Gateway = Gateway(
    world: World,
    listeners: map<nat, Listener>,
    sessions: map<nat, Session>,
    app: AppPhase)

  datatype Step =
    | Connect(sid: nat, listener: nat)
    | TakeSnapshot(sid: nat)
    | Begin(sid: nat)
    | Choose(sid: nat)
    | DialFails(sid: nat, nextProbe: nat)
    | CloseFailed(sid: nat)
    | DialWorks(sid: nat, nextProbe: nat)
    | Commit(sid: nat)
    | PinnedDialFails(sid: nat, nextProbe: nat)
    | Disconnect(sid: nat)
    | CountDown(sid: nat)
    | Lock
    | Unlock
    | ApplySnapshot(specs: seq<NodeSpec>, order: seq<string>, library: string -> Library)
    | StartRound(now: nat, concurrency: int)
    | EnterProbe(task: nat)
    | MarkProbe(task: nat, ok: bool, nextProbe: nat)
    | CloseProbe(task: nat)
    | LeaveProbe(task: nat)
    | EndRound
    | ShutDown

  ghost predicate In(g: Gateway, sid: nat) {
    sid in g.sessions && g.sessions[sid].listener in g.listeners
  }

  ghost predicate AtStage(g: Gateway, task: nat, stage: Stage) {
    g.app.Round? && task < |g.app.tasks| && g.app.tasks[task].stage == stage
  }

  ghost predicate Enabled(g: Gateway, step: Step) {
    match step
    case Connect(sid, listener) => sid !in g.sessions && listener in g.listeners
    case TakeSnapshot(sid) => In(g, sid) && g.sessions[sid].phase.Ready?
    case Begin(sid) => In(g, sid) && g.sessions[sid].phase.Snapped?
    case Choose(sid) => In(g, sid) && g.sessions[sid].phase.Choosing?
                        && g.sessions[sid].phase.attempt.offset <= |g.sessions[sid].phase.attempt.candidates|
    case DialFails(sid, _) => In(g, sid) && g.sessions[sid].phase.Dialing?
    case CloseFailed(sid) => In(g, sid) && g.sessions[sid].phase.Failing? && g.sessions[sid].phase.lease in g.world.open
    case DialWorks(sid, _) => In(g, sid) && g.sessions[sid].phase.Dialing?
    case Commit(sid) => In(g, sid) && g.sessions[sid].phase.Committing?
                        && g.sessions[sid].phase.lease.id in g.sessions[sid].phase.attempt.returned
    case PinnedDialFails(sid, _) => In(g, sid) && g.sessions[sid].phase.Pinned?
    case Disconnect(sid) => In(g, sid) && !g.sessions[sid].released && (g.sessions[sid].phase.Ready?
                              || (g.sessions[sid].phase.Pinned? && g.sessions[sid].phase.lease in g.world.open))
    case CountDown(sid) => In(g, sid) && g.sessions[sid].released && g.sessions[sid].counted
    case Lock => g.app.Free?
    case Unlock => g.app.Locked?
    case ApplySnapshot(specs, order, _) => g.app.Locked? && VisitsMissing(g.world.pool, specs, order)
    case StartRound(_, _) => g.app.Locked?
    case EnterProbe(task) => AtStage(g, task, Queued) && g.app.slots < g.app.capacity
    case MarkProbe(task, _, _) => AtStage(g, task, Probing)
    case CloseProbe(task) => AtStage(g, task, Marked) && g.app.tasks[task].lease in g.world.open
    case LeaveProbe(task) => AtStage(g, task, Closed) && g.app.slots > 0
    case EndRound => g.app.Round? && forall i :: 0 <= i < |g.app.tasks| ==> g.app.tasks[i].stage.Done?
    case ShutDown => true
  }

  ghost function Move(g: Gateway, sid: nat, phase: Phase): Gateway
    requires sid in g.sessions
  {
    g.(sessions := g.sessions[sid := g.sessions[sid].(phase := phase)])
  }

  ghost function WithSelector(g: Gateway, l: nat, selector: Selector, history: History): Gateway
    requires l in g.listeners
  {
    g.(listeners := g.listeners[l := g.listeners[l].(selector := selector, history := history)])
  }

  ghost function Report(g: Gateway, l: nat, ticket: nat, outcome: Outcome): Gateway
    requires l in g.listeners
  {
    var s, h := g.listeners[l].selector, g.listeners[l].history;
    WithSelector(g, l, Finish(s, ticket, outcome), Finished(s, h, ticket, outcome))
  }

  ghost function CountActive(g: Gateway, l: nat, delta: int): Gateway
    requires l in g.listeners
  {
    g.(listeners := g.listeners[l := g.listeners[l].(active := g.listeners[l].active + delta)])
  }

  ghost function WithTask(g: Gateway, i: nat, task: Task, slots: nat): Gateway
    requires g.app.Round? && i < |g.app.tasks|
  {
    g.(app := g.app.(tasks := g.app.tasks[i := task], slots := slots))
  }

  /** The halfOpen table of a dial: whether the candidate was offered half-open. */
  ghost predicate OfferedHalfOpen(candidates: seq<Candidate>, id: string) {
    exists i :: 0 <= i < |candidates| && candidates[i].id == id && candidates[i].halfOpen
  }

  ghost function BeginAttempt(g: Gateway, sid: nat): Gateway
    requires Enabled(g, Begin(sid))
  {
    var l, cs := g.sessions[sid].listener, g.sessions[sid].phase.candidates;
    var s, h := g.listeners[l].selector, g.listeners[l].history;
    if cs == [] then Move(g, sid, Choosing(AttemptState([], 0, 0, false, 0, map[], false)))
    else
      Move(WithSelector(g, l, Reserve(s), Reserved(s, h)), sid,
           Choosing(AttemptState(cs, s.reservationNext, s.nextTicket, true, 0, map[], false)))
  }

  ghost function ChooseNext(g: Gateway, sid: nat): Gateway
    requires Enabled(g, Choose(sid))
  {
    var l, a := g.sessions[sid].listener, g.sessions[sid].phase.attempt;
    var (a', id) := NextOf(a);
    match id
    case None => Move(if a.reserved then Report(g, l, a.ticket, Aborted) else g, sid, Ready)
    case Some(node) =>
      var allow := OfferedHalfOpen(a.candidates, node);
      var lease := Acquire(g.world.pool, node, allow).1;
      Move(g.(world := Act(g.world, TryAcquire(node, allow))), sid,
           if lease.Some? then Dialing(a', lease.value) else Choosing(a'))
  }

  ghost function NewTasks(leases: seq<Lease>): (tasks: seq<Task>)
    ensures |tasks| == |leases|
    ensures forall i :: 0 <= i < |tasks| ==> tasks[i] == Task(leases[i], Queued, 0, 0)
  {
    seq(|leases|, i requires 0 <= i < |leases| => Task(leases[i], Queued, 0, 0))
  }

  ghost function Next(g: Gateway, step: Step): Gateway
    requires Enabled(g, step)
  {
    match step
    case Connect(sid, listener) =>
      CountActive(g.(sessions := g.sessions[sid := Session(listener, Ready, false, true)]), listener, 1)
    case TakeSnapshot(sid) => Move(g, sid, Snapped(RoutingSnapshot(g.world.pool)))
    case Begin(sid) => BeginAttempt(g, sid)
    case Choose(sid) => ChooseNext(g, sid)
    case DialFails(sid, nextProbe) =>
      var phase := g.sessions[sid].phase;
      Move(g.(world := Act(g.world, Fail(phase.lease.id, true, nextProbe))), sid, Failing(phase.attempt, phase.lease))
    case CloseFailed(sid) =>
      var phase := g.sessions[sid].phase;
      Move(g.(world := Act(g.world, CloseLease(phase.lease))), sid, Choosing(phase.attempt))
    case DialWorks(sid, nextProbe) =>
      var phase := g.sessions[sid].phase;
      Move(g.(world := Act(g.world, Succeed(phase.lease.id, nextProbe))), sid, Committing(phase.attempt, phase.lease))
    case Commit(sid) =>
      var l, phase := g.sessions[sid].listener, g.sessions[sid].phase;
      var a := phase.attempt;
      Move(if a.reserved then Report(g, l, a.ticket, Committed(a.startAbsolute + a.returned[phase.lease.id] + 1)) else g,
           sid, Pinned(phase.lease))
    case PinnedDialFails(sid, nextProbe) =>
      g.(world := Act(g.world, Fail(g.sessions[sid].phase.lease.id, true, nextProbe)))
    case Disconnect(sid) =>
      var phase := g.sessions[sid].phase;
      var world := if phase.Pinned? then Act(g.world, CloseLease(phase.lease)) else g.world;
      g.(world := world, sessions := g.sessions[sid := g.sessions[sid].(phase := Ready, released := true)])
    case CountDown(sid) =>
      CountActive(g.(sessions := g.sessions[sid := g.sessions[sid].(counted := false)]), g.sessions[sid].listener, -1)
    case Lock => g.(app := Locked)
    case Unlock => g.(app := Free)
    case ApplySnapshot(specs, order, library) => g.(world := Act(g.world, Reload(specs, order, library)))
    case StartRound(now, concurrency) =>
      var leases := ProbeDue(g.world.pool, now).1;
      g.(world := Act(g.world, TakeDue(now)),
         app := Round(NewTasks(leases), 0, if concurrency < 1 then 1 else concurrency))
    case EnterProbe(i) => WithTask(g, i, g.app.tasks[i].(stage := Probing), g.app.slots + 1)
    case MarkProbe(i, ok, nextProbe) =>
      var task := g.app.tasks[i];
      var mark := if ok then Succeed(task.lease.id, nextProbe) else Fail(task.lease.id, true, nextProbe);
      WithTask(g.(world := Act(g.world, mark)), i, task.(stage := Marked, marks := task.marks + 1), g.app.slots)
    case CloseProbe(i) =>
      var task := g.app.tasks[i];
      WithTask(g.(world := Act(g.world, CloseLease(task.lease))), i,
               task.(stage := Closed, closes := task.closes + 1), g.app.slots)
    case LeaveProbe(i) => WithTask(g, i, g.app.tasks[i].(stage := Done), g.app.slots - 1)
    case EndRound => g.(app := Free)
    case ShutDown => g.(world := Act(g.world, ShutEngine))
  }

  // ----- the invariant -----

  ghost function HeldIn(phase: Phase): Option<Lease> {
    match phase
    case Dialing(_, lease) => Some(lease)
    case Failing(_, lease) => Some(lease)
    case Committing(_, lease) => Some(lease)
    case Pinned(lease) => Some(lease)
    case _ => None
  }

  ghost function HeldByTask(task: Task): Option<Lease> {
    if task.stage.Closed? || task.stage.Done? then None else Some(task.lease)
  }

  ghost function SessionLeases(sessions: map<nat, Session>): map<nat, Option<Lease>> {
    map sid | sid in sessions :: HeldIn(sessions[sid].phase)
  }

  ghost function TasksOf(app: AppPhase): seq<Task> {
    if app.Round? then app.tasks else []
  }

  ghost function TaskLeases(tasks: seq<Task>): map<nat, Option<Lease>> {
    map i: nat | i < |tasks| :: HeldByTask(tasks[i])
  }

  /** Every open lease is held by exactly one session or probe, and they hold nothing else. */
  ghost predicate LeasesHeld(open: multiset<Lease>, sessions: map<nat, Session>, tasks: seq<Task>) {
    forall lease :: open[lease] == Count(SessionLeases(sessions), Some(lease)) + Count(TaskLeases(tasks), Some(lease))
  }

  ghost function AttemptIn(phase: Phase): Option<AttemptState> {
    match phase
    case Choosing(a) => Some(a)
    case Dialing(a, _) => Some(a)
    case Failing(a, _) => Some(a)
    case Committing(a, _) => Some(a)
    case _ => None
  }

  ghost function TicketIn(phase: Phase): Option<nat> {
    if AttemptIn(phase).Some? && AttemptIn(phase).value.reserved then Some(AttemptIn(phase).value.ticket) else None
  }

  ghost function TicketsTaken(sessions: map<nat, Session>): map<nat, Option<(nat, nat)>> {
    map sid | sid in sessions :: TicketOf(sessions[sid])
  }

  /** The listener and ticket of the session's running attempt. */
  ghost function TicketOf(session: Session): Option<(nat, nat)> {
    if TicketIn(session.phase).Some? then Some((session.listener, TicketIn(session.phase).value)) else None
  }

  ghost predicate SelectorsReachable(listeners: map<nat, Listener>) {
    forall l :: l in listeners ==> Inv(listeners[l].selector, listeners[l].history)
  }

  /** Per listener: each outstanding ticket belongs to exactly one running attempt, and no other
      ticket to any. */
  ghost predicate TicketsHeld(listeners: map<nat, Listener>, sessions: map<nat, Session>) {
    && (forall sid :: sid in sessions ==> sessions[sid].listener in listeners)
    && (forall l, t :: l in listeners ==> OneHolder(listeners[l], sessions, l, t))
  }

  ghost predicate OneHolder(listener: Listener, sessions: map<nat, Session>, l: nat, t: nat) {
    Count(TicketsTaken(sessions), Some((l, t))) == if Outstanding(listener.selector, listener.history, t) then 1 else 0
  }

  ghost function CountedOn(session: Session): Option<nat> {
    if session.counted then Some(session.listener) else None
  }

  ghost function CountedSessions(sessions: map<nat, Session>): map<nat, Option<nat>> {
    map sid | sid in sessions :: CountedOn(sessions[sid])
  }

  ghost predicate ConnectionsCounted(listeners: map<nat, Listener>, sessions: map<nat, Session>) {
    forall l :: l in listeners ==> listeners[l].active == Count(CountedSessions(sessions), Some(l))
  }

  /** A running attempt is over distinct candidates, and what it dials it has offered. */
  ghost predicate WellFormed(phase: Phase) {
    AttemptIn(phase).Some? ==>
      var a := AttemptIn(phase).value;
      && a.offset <= |a.candidates| && !a.finished && (a.reserved <==> a.candidates != [])
      && (HeldIn(phase).Some? ==> HeldIn(phase).value.id in a.returned)
  }

  ghost predicate InSlot(task: Task) {
    task.stage.Probing? || task.stage.Marked? || task.stage.Closed?
  }

  ghost function SlotHolders(tasks: seq<Task>): map<nat, bool> {
    map i: nat | i < |tasks| :: InSlot(tasks[i])
  }

  /** At most `capacity` probes run, and each task has marked and closed once it is past that stage. */
  ghost predicate RoundOk(app: AppPhase) {
    app.Round? ==>
      && app.slots == Count(SlotHolders(app.tasks), true) && app.slots <= app.capacity && app.capacity >= 1
      && forall i :: 0 <= i < |app.tasks| ==> TaskOk(app.tasks[i])
  }

  ghost predicate TaskOk(task: Task) {
    && task.marks == (if task.stage.Queued? || task.stage.Probing? then 0 else 1)
    && task.closes == (if task.stage.Closed? || task.stage.Done? then 1 else 0)
  }

  ghost predicate GatewayInv(g: Gateway) {
    && WorldInv(g.world)
    && LeasesHeld(g.world.open, g.sessions, TasksOf(g.app))
    && SelectorsReachable(g.listeners)
    && TicketsHeld(g.listeners, g.sessions)
    && ConnectionsCounted(g.listeners, g.sessions)
    && (forall sid :: sid in g.sessions ==> WellFormed(g.sessions[sid].phase))
    && RoundOk(g.app)
  }
}
