/** The registry, its engine and the open leases together: the invariant that ties leases,
    gates and dialers to the stored nodes, and that every step but Apply keeps it
    (internal/pool/registry.go, internal/proxycore/engine.go). */
module LeaseAccounting {
  import opened Ordering
  import opened EngineModel
  import opened RegistryModel

  /** `open` holds every lease handed out and not yet closed. */
  datatype World = World(pool: Pool, engine: Engine, open: multiset<Lease>)

  const NEW_WORLD := World(NEW_POOL, NEW_ENGINE, multiset{})

  // ----- the invariant -----

  /** `order` lists exactly the nodes not being removed, strictly sorted. */
  ghost predicate Ordered(p: Pool) {
    Enumerates(p.order, Live(p))
  }

  /** Each node owns one dialer of its own that has never been closed; every other dialer has
      been closed exactly once; and the engine remembers exactly the tags of stored nodes. */
  ghost predicate Owned(p: Pool, e: Engine) {
    && (forall id :: id in p.nodes ==>
          p.nodes[id].dialer < |e.dialers| && e.dialers[p.nodes[id].dialer] == Dialer(Tag(id), 0))
    && (forall d :: 0 <= d < |e.dialers| && e.dialers[d].closes == 0 ==> HasOwner(p, d))
    && (forall d :: 0 <= d < |e.dialers| ==> e.dialers[d].closes <= 1)
    && (!e.shut ==> TagsMatch(p, e.builtBy))
  }

  ghost predicate HasOwner(p: Pool, d: nat) {
    exists id :: id in p.nodes && p.nodes[id].dialer == d
  }

  ghost predicate TagsMatch(p: Pool, builtBy: map<string, string>) {
    && (forall id :: id in p.nodes ==> Tag(id) in builtBy && builtBy[Tag(id)] == id)
    && (forall tag :: tag in builtBy ==> builtBy[tag] in p.nodes && tag == Tag(builtBy[tag]))
  }

  ghost function Gated(p: Pool, id: string): Lease
    requires id in p.nodes
  {
    Lease(id, p.nodes[id].dialer, true)
  }

  ghost function Plain(p: Pool, id: string): Lease
    requires id in p.nodes
  {
    Lease(id, p.nodes[id].dialer, false)
  }

  /** `active` counts the open leases of the node, at most one is gated, and `probing` says so. */
  ghost predicate Balanced(p: Pool, open: multiset<Lease>, id: string)
    requires id in p.nodes
  {
    && p.nodes[id].active == open[Gated(p, id)] + open[Plain(p, id)]
    && open[Gated(p, id)] == (if p.nodes[id].probing then 1 else 0)
    && (p.nodes[id].removed ==> p.nodes[id].active > 0)
  }

  ghost predicate Accounted(p: Pool, open: multiset<Lease>) {
    && (forall lease :: lease in open ==> lease.id in p.nodes && lease.dialer == p.nodes[lease.id].dialer)
    && (forall id :: id in p.nodes ==> Balanced(p, open, id))
  }

  ghost predicate WorldInv(w: World) {
    Ordered(w.pool) && Owned(w.pool, w.engine) && Accounted(w.pool, w.open)
  }

  // ----- the steps -----

  datatype Action =
    | TryAcquire(id: string, allowUnhealthy: bool)
    | CloseLease(lease: Lease)
    | Fail(id: string, hasCause: bool, nextProbe: nat)
    | Succeed(id: string, nextProbe: nat)
    | TakeDue(now: nat)
    | Reload(specs: seq<NodeSpec>, order: seq<string>, library: string -> Library)
    | ShutEngine

  /** A lease is closed only while open: NodeLease.Close runs release once. */
  ghost predicate Possible(w: World, a: Action) {
    match a
    case CloseLease(lease) => lease in w.open
    case Reload(specs, order, library) => VisitsMissing(w.pool, specs, order)
    case _ => true
  }

  ghost function Act(w: World, a: Action): World
    requires Possible(w, a)
  {
    match a
    case TryAcquire(id, allowUnhealthy) =>
      var (p, lease) := Acquire(w.pool, id, allowUnhealthy);
      World(p, w.engine, if lease.Some? then w.open + multiset{lease.value} else w.open)
    case CloseLease(lease) =>
      var (p, closing) := Release(w.pool, lease.id, lease.gated);
      World(p, CloseAll(w.engine, closing), w.open - multiset{lease})
    case Fail(id, hasCause, nextProbe) => w.(pool := MarkFailure(w.pool, id, hasCause, nextProbe))
    case Succeed(id, nextProbe) => w.(pool := MarkSuccess(w.pool, id, nextProbe))
    case TakeDue(now) =>
      var (p, leases) := ProbeDue(w.pool, now);
      World(p, w.engine, w.open + multiset(leases))
    case Reload(specs, order, library) =>
      var (p, e, diff) := Apply(w.pool, w.engine, specs, order, library);
      World(p, e, w.open)
    case ShutEngine => w.(engine := Shut(w.engine))
  }

  // ----- steps that only touch one node -----

  /** Changes that leave every node's dialer and every node's place alone. */
  lemma RelabelKeeps(p: Pool, p': Pool, e: Engine)
    requires Ordered(p) && Owned(p, e) && p'.order == p.order && p'.nodes.Keys == p.nodes.Keys
    requires forall id :: id in p.nodes ==> p'.nodes[id].dialer == p.nodes[id].dialer
                                            && p'.nodes[id].removed == p.nodes[id].removed
    ensures Ordered(p') && Owned(p', e)
  {
    assert Live(p') == Live(p);
    forall d | 0 <= d < |e.dialers| && e.dialers[d].closes == 0 ensures HasOwner(p', d) {
      assert HasOwner(p, d);
      var owner :| owner in p.nodes && p.nodes[owner].dialer == d;
      assert owner in p'.nodes && p'.nodes[owner].dialer == d;
    }
  }

  lemma TouchKeeps(p: Pool, e: Engine, id: string, n: Node)
    requires Ordered(p) && Owned(p, e) && id in p.nodes
    requires n.dialer == p.nodes[id].dialer && n.removed == p.nodes[id].removed
    ensures var p' := p.(nodes := p.nodes[id := n]); Ordered(p') && Owned(p', e)
  {
    RelabelKeeps(p, p.(nodes := p.nodes[id := n]), e);
  }

  /** Changing one node and the leases open on it leaves every other account as it was. */
  lemma TouchAccounts(p: Pool, open: multiset<Lease>, id: string, n: Node, open': multiset<Lease>)
    requires Accounted(p, open) && id in p.nodes && n.dialer == p.nodes[id].dialer
    requires forall l: Lease :: l.id != id ==> open'[l] == open[l]
    requires forall l: Lease :: l.id == id && l in open' ==> l.dialer == n.dialer
    requires Balanced(p.(nodes := p.nodes[id := n]), open', id)
    ensures Accounted(p.(nodes := p.nodes[id := n]), open')
  {
    var p' := p.(nodes := p.nodes[id := n]);
    forall other | other in p'.nodes ensures Balanced(p', open', other) {
      if other != id {
        assert Balanced(p, open, other);
        assert open'[Gated(p, other)] == open[Gated(p, other)];
        assert open'[Plain(p, other)] == open[Plain(p, other)];
      }
    }
    forall l | l in open' ensures l.id in p'.nodes && l.dialer == p'.nodes[l.id].dialer {
      if l.id != id {
        assert open'[l] == open[l];
        assert l in open;
      }
    }
  }

  lemma AcquireAccounts(p: Pool, open: multiset<Lease>, id: string, allowUnhealthy: bool)
    requires Accounted(p, open) && Acquire(p, id, allowUnhealthy).1.Some?
    ensures var (p', lease) := Acquire(p, id, allowUnhealthy);
      Accounted(p', open + multiset{lease.value})
  {
    var (p', lease) := Acquire(p, id, allowUnhealthy);
    assert Balanced(p, open, id);
    TouchAccounts(p, open, id, p'.nodes[id], open + multiset{lease.value});
  }

  lemma AcquireKeepsInv(w: World, id: string, allowUnhealthy: bool)
    requires WorldInv(w)
    ensures WorldInv(Act(w, TryAcquire(id, allowUnhealthy)))
  {
    var (p, lease) := Acquire(w.pool, id, allowUnhealthy);
    if lease.Some? {
      TouchKeeps(w.pool, w.engine, id, p.nodes[id]);
      AcquireAccounts(w.pool, w.open, id, allowUnhealthy);
    }
  }

  lemma MarkFailureKeepsInv(w: World, id: string, hasCause: bool, nextProbe: nat)
    requires WorldInv(w)
    ensures WorldInv(Act(w, Fail(id, hasCause, nextProbe)))
  {
    if id in w.pool.nodes {
      var p := MarkFailure(w.pool, id, hasCause, nextProbe);
      assert Balanced(w.pool, w.open, id);
      TouchKeeps(w.pool, w.engine, id, p.nodes[id]);
      TouchAccounts(w.pool, w.open, id, p.nodes[id], w.open);
    }
  }

  lemma MarkSuccessKeepsInv(w: World, id: string, nextProbe: nat)
    requires WorldInv(w)
    ensures WorldInv(Act(w, Succeed(id, nextProbe)))
  {
    if id in w.pool.nodes && !w.pool.nodes[id].removed {
      var p := MarkSuccess(w.pool, id, nextProbe);
      assert Balanced(w.pool, w.open, id);
      TouchKeeps(w.pool, w.engine, id, p.nodes[id]);
      TouchAccounts(w.pool, w.open, id, p.nodes[id], w.open);
    }
  }

  // ----- release -----

  /** Releasing an open lease always finds its node with something to release, and a gated
      lease finds the gate it holds. */
  lemma ReleaseGuardsHold(w: World, lease: Lease)
    requires WorldInv(w) && lease in w.open
    ensures lease.id in w.pool.nodes && w.pool.nodes[lease.id].active > 0
    ensures lease.gated ==> w.pool.nodes[lease.id].probing
    ensures w.pool.nodes[lease.id].dialer == lease.dialer
    ensures lease.dialer < |w.engine.dialers| && w.engine.dialers[lease.dialer].closes == 0
  {
    assert Balanced(w.pool, w.open, lease.id);
    assert lease == (if lease.gated then Gated(w.pool, lease.id) else Plain(w.pool, lease.id));
  }

  /** Deleting a node that is being removed and closing its dialer. */
  lemma DropKeeps(p: Pool, e: Engine, id: string)
    requires Ordered(p) && Owned(p, e) && id in p.nodes && p.nodes[id].removed
    ensures var p' := p.(nodes := p.nodes - {id});
      Ordered(p') && Owned(p', CloseAll(e, {p.nodes[id].dialer}))
  {
    var p' := p.(nodes := p.nodes - {id});
    assert Live(p') == Live(p);
    DropKeepsOwners(p, e, id);
    if !e.shut { DropKeepsTags(p, e, id); }
  }

  lemma DropKeepsOwners(p: Pool, e: Engine, id: string)
    requires Owned(p, e) && id in p.nodes
    ensures var p', e' := p.(nodes := p.nodes - {id}), CloseAll(e, {p.nodes[id].dialer});
      && (forall other :: other in p'.nodes ==>
            p'.nodes[other].dialer < |e'.dialers| && e'.dialers[p'.nodes[other].dialer] == Dialer(Tag(other), 0))
      && (forall d :: 0 <= d < |e'.dialers| && e'.dialers[d].closes == 0 ==> HasOwner(p', d))
      && (forall d :: 0 <= d < |e'.dialers| ==> e'.dialers[d].closes <= 1)
  {
    var p', e' := p.(nodes := p.nodes - {id}), CloseAll(e, {p.nodes[id].dialer});
    forall other | other in p'.nodes ensures p'.nodes[other].dialer != p.nodes[id].dialer {
      if Tag(other) == Tag(id) { TagIsInjective(other, id); }
    }
    forall d | 0 <= d < |e'.dialers| && e'.dialers[d].closes == 0 ensures HasOwner(p', d) {
      assert HasOwner(p, d);
      OwnerStays(p, id, d);
    }
  }

  lemma OwnerStays(p: Pool, id: string, d: nat)
    requires HasOwner(p, d) && id in p.nodes && p.nodes[id].dialer != d
    ensures HasOwner(p.(nodes := p.nodes - {id}), d)
  {
    var owner :| owner in p.nodes && p.nodes[owner].dialer == d;
    assert owner in p.nodes - {id};
  }

  lemma DropKeepsTags(p: Pool, e: Engine, id: string)
    requires Owned(p, e) && !e.shut && id in p.nodes
    ensures TagsMatch(p.(nodes := p.nodes - {id}), CloseAll(e, {p.nodes[id].dialer}).builtBy)
  {
    assert CloseAll(e, {p.nodes[id].dialer}).builtBy == e.builtBy - {Tag(id)};
    forall other | other in p.nodes && other != id ensures Tag(other) != Tag(id) {
      if Tag(other) == Tag(id) { TagIsInjective(other, id); }
    }
  }

  lemma ReleaseKeepsInv(w: World, lease: Lease)
    requires WorldInv(w) && lease in w.open
    ensures WorldInv(Act(w, CloseLease(lease)))
  {
    ReleaseGuardsHold(w, lease);
    var (p, closing) := Release(w.pool, lease.id, lease.gated);
    var open := w.open - multiset{lease};
    if lease.id in p.nodes {
      TouchKeeps(w.pool, w.engine, lease.id, p.nodes[lease.id]);
      ReleaseAccounts(w, lease, p, open);
      CloseNone(w.engine);
    } else {
      DropKeeps(w.pool, w.engine, lease.id);
      DropAccounts(w, lease, p, open);
    }
  }

  /** When the node stays, one lease less is open on it. */
  lemma ReleaseAccounts(w: World, lease: Lease, p: Pool, open: multiset<Lease>)
    requires WorldInv(w) && lease in w.open && open == w.open - multiset{lease}
    requires p == Release(w.pool, lease.id, lease.gated).0 && lease.id in p.nodes
    ensures Accounted(p, open)
  {
    ReleaseGuardsHold(w, lease);
    assert Balanced(w.pool, w.open, lease.id);
    TouchAccounts(w.pool, w.open, lease.id, p.nodes[lease.id], open);
  }

  /** When a node goes, no open lease of it remains. */
  lemma DropAccounts(w: World, lease: Lease, p: Pool, open: multiset<Lease>)
    requires WorldInv(w) && lease in w.open && open == w.open - multiset{lease}
    requires w.pool.nodes[lease.id].active == 1
    requires p == w.pool.(nodes := w.pool.nodes - {lease.id})
    ensures Accounted(p, open)
  {
    var gated, plain := Gated(w.pool, lease.id), Plain(w.pool, lease.id);
    assert Balanced(w.pool, w.open, lease.id);
    assert lease == gated || lease == plain;
    assert open[gated] + open[plain] == 0;
    forall l | l in open ensures l.id in p.nodes && l.dialer == p.nodes[l.id].dialer {
      assert l in w.open;
      assert l != gated && l != plain;
    }
    forall other | other in p.nodes ensures Balanced(p, open, other) {
      assert Balanced(w.pool, w.open, other);
    }
  }

  // ----- probe leases -----

  lemma TakeGateKeepsInv(w: World, id: string, now: nat)
    requires WorldInv(w) && id in w.pool.nodes && IsDue(w.pool.nodes[id], now)
    ensures WorldInv(World(TakeGate(w.pool, id), w.engine, w.open + multiset{Gated(w.pool, id)}))
  {
    var n := TakeGate(w.pool, id).nodes[id];
    assert Balanced(w.pool, w.open, id);
    TouchKeeps(w.pool, w.engine, id, n);
    TouchAccounts(w.pool, w.open, id, n, w.open + multiset{Gated(w.pool, id)});
  }

  lemma {:induction false} TakeDueKeepsInv(w: World, ids: seq<string>, now: nat)
    requires WorldInv(w)
    ensures var (p, leases) := TakeDueAmong(w.pool, ids, now);
      WorldInv(World(p, w.engine, w.open + multiset(leases)))
    decreases |ids|
  {
    if ids == [] {
      assert w.open + multiset([]) == w.open;
    } else {
      var n := |ids| - 1;
      TakeDueKeepsInv(w, ids[..n], now);
      var (q, leases) := TakeDueAmong(w.pool, ids[..n], now);
      if ids[n] in q.nodes && IsDue(q.nodes[ids[n]], now) {
        var open := w.open + multiset(leases);
        TakeGateKeepsInv(World(q, w.engine, open), ids[n], now);
        var lease := Gated(q, ids[n]);
        assert w.open + multiset(leases + [lease]) == open + multiset{lease};
      }
    }
  }
}
