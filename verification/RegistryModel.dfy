/** The node registry as a state machine: admission, leases, health marks, probe gates,
    removal with draining, and Apply (internal/pool/registry.go). */
module RegistryModel {
  import opened Options
  import opened Ordering
  import opened EngineModel
  import opened SelectorModel

  datatype NodeSpec = NodeSpec(id: string, tag: string, kind: string, options: string, sourceIDs: seq<string>)

  datatype Node = Node(
    spec: NodeSpec,
    dialer: nat,
    healthy: bool,
    removed: bool,
    probing: bool,
    active: int,
    failed: bool,      // lastFailure is not empty
    nextProbe: nat)

  datatype Pool = Pool(nodes: map<string, Node>, order: seq<string>)

  datatype Lease = Lease(id: string, dialer: nat, gated: bool)

  datatype Diff = Diff(added: nat, removed: nat, kept: nat)

  const NEW_POOL := Pool(map[], [])

  ghost function Live(p: Pool): set<string> {
    set id | id in p.nodes && !p.nodes[id].removed
  }

  // ----- routing and admission -----

  ghost predicate AnyHealthy(p: Pool, ids: seq<string>) {
    exists i :: 0 <= i < |ids| && ids[i] in p.nodes && !p.nodes[ids[i]].removed && p.nodes[ids[i]].healthy
  }

  function CandidateFor(id: string, n: Node, noneHealthy: bool): Candidate {
    var halfOpen := noneHealthy && !n.probing;
    Candidate(id, n.healthy || halfOpen, halfOpen)
  }

  ghost function Listing(p: Pool, ids: seq<string>, noneHealthy: bool): seq<Candidate> {
    if ids == [] then []
    else
      var n := |ids| - 1;
      var before := Listing(p, ids[..n], noneHealthy);
      if ids[n] in p.nodes && !p.nodes[ids[n]].removed
      then before + [CandidateFor(ids[n], p.nodes[ids[n]], noneHealthy)]
      else before
  }

  ghost function RoutingSnapshot(p: Pool): seq<Candidate> {
    Listing(p, p.order, !AnyHealthy(p, p.order))
  }

  ghost function Acquire(p: Pool, id: string, allowUnhealthy: bool): (Pool, Option<Lease>) {
    if id !in p.nodes || p.nodes[id].removed then (p, None)
    else
      var n := p.nodes[id];
      var halfOpen := !n.healthy;
      if halfOpen && (!allowUnhealthy || n.probing) then (p, None)
      else
        (p.(nodes := p.nodes[id := n.(probing := n.probing || halfOpen, active := n.active + 1)]),
         Some(Lease(id, n.dialer, halfOpen)))
  }

  // ----- health -----

  ghost function MarkFailure(p: Pool, id: string, hasCause: bool, nextProbe: nat): Pool {
    if id !in p.nodes then p
    else
      var n := p.nodes[id];
      p.(nodes := p.nodes[id := n.(healthy := false, nextProbe := nextProbe, failed := n.failed || hasCause)])
  }

  ghost function MarkSuccess(p: Pool, id: string, nextProbe: nat): Pool {
    if id !in p.nodes || p.nodes[id].removed then p
    else
      p.(nodes := p.nodes[id := p.nodes[id].(healthy := true, failed := false, nextProbe := nextProbe)])
  }

  // ----- probing -----

  ghost predicate IsDue(n: Node, now: nat) {
    !n.removed && !n.probing && n.nextProbe <= now
  }

  /** One more lease on the node, holding its gate. */
  ghost function TakeGate(p: Pool, id: string): Pool
    requires id in p.nodes
  {
    p.(nodes := p.nodes[id := p.nodes[id].(probing := true, active := p.nodes[id].active + 1)])
  }

  /** Visits `ids` in order and takes the gate of every node that is due when visited. */
  ghost function TakeDueAmong(p: Pool, ids: seq<string>, now: nat): (Pool, seq<Lease>) {
    if ids == [] then (p, [])
    else
      var n := |ids| - 1;
      var (q, leases) := TakeDueAmong(p, ids[..n], now);
      if ids[n] in q.nodes && IsDue(q.nodes[ids[n]], now)
      then (TakeGate(q, ids[n]), leases + [Lease(ids[n], q.nodes[ids[n]].dialer, true)])
      else (q, leases)
  }

  ghost function ProbeDue(p: Pool, now: nat): (Pool, seq<Lease>) {
    TakeDueAmong(p, p.order, now)
  }

  // ----- release -----

  /** The pool after closing a lease, and the dialers to be closed with it. */
  ghost function Release(p: Pool, id: string, gated: bool): (Pool, set<nat>) {
    if id !in p.nodes then (p, {})
    else
      var n := p.nodes[id];
      var n' := n.(active := if n.active > 0 then n.active - 1 else n.active,
                   probing := n.probing && !gated);
      if n'.removed && n'.active == 0
      then (p.(nodes := p.nodes - {id}), {n.dialer})
      else (p.(nodes := p.nodes[id := n']), {})
  }

  // ----- Apply -----

  ghost function Wanted(specs: seq<NodeSpec>): map<string, NodeSpec> {
    if specs == [] then map[]
    else
      var n := |specs| - 1;
      Wanted(specs[..n])[specs[n].id := specs[n]]
  }

  ghost predicate HasEmptyId(specs: seq<NodeSpec>) {
    exists i :: 0 <= i < |specs| && specs[i].id == ""
  }

  /** The outcome of building dialers one after the other: stops at the first refusal. */
  datatype Batch = Batch(engine: Engine, built: map<string, nat>, refusal: Option<BuildResult>)

  ghost function BuildEach(e: Engine, ids: seq<string>, library: string -> Library): (b: Batch)
    ensures b.built.Keys <= Elements(ids)
    ensures b.refusal.None? ==> b.built.Keys == Elements(ids)
  {
    if ids == [] then Batch(e, map[], None)
    else
      var n := |ids| - 1;
      assert ids == ids[..n] + [ids[n]];
      var b := BuildEach(e, ids[..n], library);
      if b.refusal.Some? then b
      else
        var (e', result) := Build(b.engine, ids[n], library(ids[n]));
        if result.Built? then Batch(e', b.built[ids[n] := result.dialer], None)
        else Batch(e', b.built, Some(result))
  }

  ghost function DialersOf(built: map<string, nat>): set<nat> {
    set id | id in built :: built[id]
  }

  /** A stored node stays if it is wanted, was already draining, or still has leases. */
  ghost predicate Stays(n: Node, wanted: bool) {
    wanted || n.removed || n.active != 0
  }

  ghost function Replaced(p: Pool, wanted: map<string, NodeSpec>, built: map<string, nat>): Pool
    requires built.Keys <= wanted.Keys
  {
    Pool(
      map id | id in p.nodes.Keys + built.Keys
               && (id in built || Stays(p.nodes[id], id in wanted)) ::
        if id in built then
          Node(wanted[id], built[id], false, false, false, 0, false, 0)
        else if id in wanted then p.nodes[id].(removed := false, spec := wanted[id])
        else p.nodes[id].(removed := true),
      Sorted(wanted.Keys))
  }

  /** Dialers of the nodes an Apply drops at once. */
  ghost function Dropped(p: Pool, wanted: map<string, NodeSpec>): set<nat> {
    set id | id in p.nodes && !Stays(p.nodes[id], id in wanted) :: p.nodes[id].dialer
  }

  ghost function DiffOf(p: Pool, wanted: map<string, NodeSpec>): Diff {
    Diff(|wanted.Keys - p.nodes.Keys|, |Live(p) - wanted.Keys|, |wanted.Keys * p.nodes.Keys|)
  }

  /** The order in which an Apply visits the nodes it has to build: Go's map order, so any order. */
  ghost predicate VisitsMissing(p: Pool, specs: seq<NodeSpec>, order: seq<string>) {
    Distinct(order) && Elements(order) == Wanted(specs).Keys - p.nodes.Keys
  }

  ghost function Apply(p: Pool, e: Engine, specs: seq<NodeSpec>, order: seq<string>, library: string -> Library)
    : (Pool, Engine, Option<Diff>)
    requires VisitsMissing(p, specs, order)
  {
    if HasEmptyId(specs) then (p, e, None)
    else
      var wanted := Wanted(specs);
      var b := BuildEach(e, order, library);
      if b.refusal.Some? then (p, CloseAll(b.engine, DialersOf(b.built)), None)
      else (Replaced(p, wanted, b.built), CloseAll(b.engine, Dropped(p, wanted)), Some(DiffOf(p, wanted)))
  }
}
