/** The connection session as the object the proxy updates in place
    (connectionSession of internal/httpproxy/server.go). */
module SessionObjects {
  import opened Options
  import opened AttemptModel
  import opened LeaseAccounting
  import opened Dialing
  import opened EngineModel
  import opened RegistryObjects
  import opened SelectorObjects
  import Model = RegistryModel
  import RegistryRuns
  import SelectorModel

  /** One listener, with the number of its connections. */
  class Server {
    const registry: Registry
    const selector: Selector
    var active: int

    constructor (registry: Registry, selector: Selector)
      ensures this.registry == registry && this.selector == selector && active == 0
    {
      this.registry, this.selector, active := registry, selector, 0;
    }

    /** A client connects: its session is counted until it is released. */
    method Admit() returns (session: ConnectionSession)
      modifies this
      ensures active == old(active) + 1
      ensures fresh(session) && session.server == this && session.selected == null && !session.released
      ensures session.registry == registry && session.selector == selector
    {
      session := new ConnectionSession(this);
      active := active + 1;
    }
  }

  class ConnectionSession {
    const server: Server
    const registry: Registry
    const selector: Selector
    var selected: NodeLease?
    var released: bool

    constructor (server: Server)
      ensures this.server == server && registry == server.registry && selector == server.selector
      ensures selected == null && !released
    {
      this.server, registry, selector := server, server.registry, server.selector;
      selected, released := null, false;
    }

    ghost predicate Ready()
      reads this, registry, registry.engine, selected
    {
      && registry.Valid() && Ordered(registry.State())
      && (forall id :: id in registry.nodes ==> registry.nodes[id].active >= 0)
      && (selected != null ==> selected.registry == registry)
    }

    ghost function Due(clock: string -> nat): string -> nat {
      id => clock(id) + registry.probeInterval
    }

    /** One dial with nobody interfering. `connects` says which nodes can be dialed during the
        call and `clock` when each one's result is marked; `tried` lists the nodes dialed. */
    method Dial(connects: string -> bool, clock: string -> nat) returns (ok: bool, ghost tried: seq<string>)
      requires Ready()
      modifies this, registry, registry.engine, selector
      ensures registry.Valid() && registry.engine.State() == old(registry.engine.State())
      ensures old(selected) != null ==>
        && selected == old(selected) && selector.State() == old(selector.State()) && tried == [selected.id]
        && ok == connects(selected.id)
        && registry.State() == if ok then old(registry.State())
             else Model.MarkFailure(old(registry.State()), selected.id, true, clock(selected.id) + registry.probeInterval)
      ensures old(selected) == null ==>
        && (selected != null <==> ok) && (ok ==> fresh(selected) && selected.registry == registry && !selected.closed)
        && DialOutcome(old(registry.State()), old(selector.State()), connects, Due(clock))
           == Outcome(tried, if ok then Some(selected.Data()) else None, registry.State(), selector.State())
    {
      if selected != null {
        ok := connects(selected.id);
        if !ok {
          var transitioned := registry.MarkFailure(selected.id, true, clock(selected.id));
        }
        return ok, [selected.id];
      }
      ok, tried := Failover(connects, clock);
    }

    /** The loop over the snapshot's candidates. */
    method Failover(connects: string -> bool, clock: string -> nat) returns (ok: bool, ghost tried: seq<string>)
      requires Ready() && selected == null
      modifies this, registry, registry.engine, selector
      ensures registry.Valid() && registry.engine.State() == old(registry.engine.State())
      ensures (selected != null <==> ok) && (ok ==> fresh(selected) && selected.registry == registry && !selected.closed)
      ensures DialOutcome(old(registry.State()), old(selector.State()), connects, Due(clock))
              == Outcome(tried, if ok then Some(selected.Data()) else None, registry.State(), selector.State())
    {
      ghost var p, s, e := registry.State(), selector.State(), registry.engine.State();
      ghost var due := Due(clock);
      var candidates := registry.RoutingSnapshot();
      RegistryRuns.SnapshotMatchesAdmission(p);
      var halfOpen := HalfOpenFlags(candidates);
      var attempt := selector.Begin(candidates);
      tried := [];
      StartTrying(p, s, connects, due, attempt.State(), selector.State());
      var step := Failed;
      ghost var lease: Option<Model.Lease> := None;
      while step.Failed?
        invariant registry.Valid() && registry.engine.State() == e
        invariant attempt.Valid() && attempt.selector == selector && fresh(attempt) && attempt.candidates == candidates
        invariant InLoop(p, s, connects, due, step, lease, attempt.State(), registry.State(), selector.State(), tried)
        invariant if lease.Some? then Pins(lease) && fresh(selected) else selected == null
        decreases step.Failed?, |candidates| - attempt.offset
      {
        TurnKeepsTrying(p, s, connects, due, attempt.State(), registry.State(), selector.State(), tried, halfOpen);
        CloseNone(e);
        ghost var turn;
        step, turn := TryNext(attempt, halfOpen, connects, clock);
        lease, tried := turn.lease, TriedAfter(tried, turn);
      }
      ok := step.Connected?;
    }

    /** One turn of the loop: the next candidate is tried, or there is none left. */
    method TryNext(attempt: Attempt, halfOpen: map<string, bool>, connects: string -> bool, clock: string -> nat)
      returns (step: Step, ghost turn: Turn)
      requires registry.Valid() && attempt.Valid() && attempt.selector == selector
      requires forall c :: c in attempt.candidates ==> c.id in halfOpen
      modifies this, registry, registry.engine, selector, attempt
      ensures registry.Valid() && attempt.Valid()
      ensures turn == TakeTurn(old(attempt.State()), old(registry.State()), old(selector.State()), halfOpen, connects, Due(clock))
      ensures attempt.State() == turn.attempt && registry.State() == turn.pool && selector.State() == turn.selector
      ensures registry.engine.State() == CloseAll(old(registry.engine.State()), turn.closing)
      ensures step == turn.step
      ensures if step.Connected? then Pins(turn.lease) && fresh(selected) else selected == old(selected)
    {
      turn := TakeTurn(attempt.State(), registry.State(), selector.State(), halfOpen, connects, Due(clock));
      OffersAreCandidates(attempt.State());
      var id := attempt.Next();
      step := TryOffer(attempt, id, halfOpen, connects, clock, turn);
    }

    /** If Next offered a node it is acquired, if it still can be, and dialed. */
    method TryOffer(attempt: Attempt, id: Option<string>, halfOpen: map<string, bool>, connects: string -> bool,
                    clock: string -> nat, ghost turn: Turn)
      returns (step: Step)
      requires registry.Valid() && attempt.Valid() && attempt.selector == selector
      requires id.Some? ==> id.value in halfOpen
      requires turn == TurnAfter(attempt.State(), id, registry.State(), selector.State(), halfOpen, connects, Due(clock))
      modifies this, registry, registry.engine, selector, attempt
      ensures registry.Valid() && attempt.Valid()
      ensures attempt.State() == turn.attempt && registry.State() == turn.pool && selector.State() == turn.selector
      ensures registry.engine.State() == CloseAll(old(registry.engine.State()), turn.closing)
      ensures step == turn.step
      ensures if step.Connected? then Pins(turn.lease) && fresh(selected) else selected == old(selected)
    {
      if id.None? {
        CloseNone(registry.engine.State());
        attempt.Abort();
        return Exhausted;
      }
      step := TryNode(attempt, id.value, halfOpen[id.value], connects(id.value), clock(id.value), turn);
    }

    /** The offered node is acquired, if it still can be, and dialed. */
    method TryNode(attempt: Attempt, id: string, allowUnhealthy: bool, connects: bool, now: nat, ghost turn: Turn)
      returns (step: Step)
      requires registry.Valid() && attempt.Valid() && attempt.selector == selector
      requires turn == TakeOffer(attempt.State(), registry.State(), selector.State(), id, allowUnhealthy, connects,
                                 now + registry.probeInterval)
      modifies this, registry, registry.engine, selector, attempt
      ensures registry.Valid() && attempt.Valid()
      ensures attempt.State() == turn.attempt && registry.State() == turn.pool && selector.State() == turn.selector
      ensures registry.engine.State() == CloseAll(old(registry.engine.State()), turn.closing)
      ensures step == turn.step
      ensures if step.Connected? then Pins(turn.lease) && fresh(selected) else selected == old(selected)
    {
      CloseNone(registry.engine.State());
      var lease := registry.Acquire(id, allowUnhealthy);
      if lease == null {
        return Failed;
      }
      step := DialNode(attempt, lease, connects, now);
    }

    /** The leased candidate is dialed, and either pinned or given back. */
    method DialNode(attempt: Attempt, lease: NodeLease, connects: bool, now: nat) returns (step: Step)
      requires registry.Valid() && attempt.Valid() && attempt.selector == selector
      requires lease.registry == registry && !lease.closed
      modifies this, registry, registry.engine, selector, attempt, lease
      ensures registry.Valid() && attempt.Valid()
      ensures step == if connects then Step.Connected else Failed
      ensures selected == (if step.Connected? then lease else old(selected)) && (step.Connected? ==> !lease.closed)
      ensures (attempt.State(), selector.State()) ==
        if step.Connected? then CommitOf(old(attempt.State()), old(selector.State()), lease.id)
        else (old(attempt.State()), old(selector.State()))
      ensures (registry.State(), registry.engine.State()) ==
        var next := now + registry.probeInterval;
        if step.Connected? then (Model.MarkSuccess(old(registry.State()), lease.id, next), old(registry.engine.State()))
        else
          var (p, closing) := GivenBack(old(registry.State()), lease.Data(), next);
          (p, CloseAll(old(registry.engine.State()), closing))
    {
      if connects {
        MarkAndPin(attempt, lease, now);
        step := Step.Connected;
      } else {
        MarkAndClose(lease, now);
        step := Failed;
      }
    }

    /** The session is pinned to this lease, still open. */
    ghost predicate Pins(lease: Option<Model.Lease>)
      reads this, selected
    {
      selected != null && lease == Some(selected.Data()) && selected.registry == registry && !selected.closed
    }

    /** A candidate that was dialed is marked healthy, committed and pinned. */
    method MarkAndPin(attempt: Attempt, lease: NodeLease, now: nat)
      requires registry.Valid() && attempt.Valid() && attempt.selector == selector
      modifies this, registry, selector, attempt
      ensures registry.Valid() && attempt.Valid() && selected == lease
      ensures registry.State() == Model.MarkSuccess(old(registry.State()), lease.id, now + registry.probeInterval)
      ensures (attempt.State(), selector.State()) == CommitOf(old(attempt.State()), old(selector.State()), lease.id)
    {
      var transitioned := registry.MarkSuccess(lease.id, now);
      attempt.Commit(lease.id);
      selected := lease;
    }

    /** A candidate that could not be dialed is marked and its lease closed. */
    method MarkAndClose(lease: NodeLease, now: nat)
      requires registry.Valid() && lease.registry == registry && !lease.closed
      modifies registry, registry.engine, lease
      ensures registry.Valid()
      ensures var (p, closing) := GivenBack(old(registry.State()), lease.Data(), now + registry.probeInterval);
        && registry.State() == p
        && registry.engine.State() == CloseAll(old(registry.engine.State()), closing)
    {
      var transitioned := registry.MarkFailure(lease.id, true, now);
      lease.Close();
    }

    static method HalfOpenFlags(candidates: seq<SelectorModel.Candidate>) returns (halfOpen: map<string, bool>)
      ensures forall c :: c in candidates ==> c.id in halfOpen
      ensures UniqueIds(candidates) ==> forall c :: c in candidates ==> halfOpen[c.id] == c.halfOpen
    {
      halfOpen := map[];
      for i := 0 to |candidates|
        invariant forall c :: c in candidates[..i] ==> c.id in halfOpen
        invariant UniqueIds(candidates) ==> forall c :: c in candidates[..i] ==> halfOpen[c.id] == c.halfOpen
      {
        halfOpen := halfOpen[candidates[i].id := candidates[i].halfOpen];
      }
    }

    /** The first release closes the pinned lease and lowers the connection count; later ones do nothing. */
    method Release()
      requires Ready()
      modifies this, registry, registry.engine, selected, server
      ensures released && registry.Valid()
      ensures server.active == if old(released) then old(server.active) else old(server.active) - 1
      ensures old(released) || old(selected) == null || old(selected.closed) ==>
        registry.State() == old(registry.State()) && registry.engine.State() == old(registry.engine.State())
      ensures selected == if old(released) then old(selected) else null
      ensures !old(released) && old(selected) != null && !old(selected.closed) ==>
        var (q, closing) := Model.Release(old(registry.State()), old(selected).id, old(selected).gated);
        registry.State() == q
        && registry.engine.State() == CloseAll(old(registry.engine.State()), closing)
    {
      if released {
        return;
      }
      released := true;
      if selected != null {
        selected.Close();
        selected := null;
      }
      server.active := server.active - 1;
    }
  }
}
