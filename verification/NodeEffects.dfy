/** What each operation of the registry and the engine does, field by field: the node it is about
    changes in these fields, and nothing else changes (internal/pool/registry.go,
    internal/proxycore/engine.go). */
module NodeEffects {
  import opened Options
  import opened Ordering
  import opened EngineModel
  import opened RegistryModel
  import opened LeaseAccounting
  import RegistryRuns

  // ----- the registry -----

  /** Acquire admits a stored, live node that is healthy, or that may be tried half-open while its
      gate is free; a refused node is left as it was. */
  lemma Acquiring(w: World, id: string, allowUnhealthy: bool)
    ensures var admitted := id in w.pool.nodes && !w.pool.nodes[id].removed
        && (w.pool.nodes[id].healthy || (allowUnhealthy && !w.pool.nodes[id].probing));
      && (Acquire(w.pool, id, allowUnhealthy).1.Some? <==> admitted)
      && (!admitted ==> Act(w, TryAcquire(id, allowUnhealthy)) == w)
      && (admitted ==>
            var n := w.pool.nodes[id];
            && Acquire(w.pool, id, allowUnhealthy).1 == Some(Lease(id, n.dialer, !n.healthy))
            && Act(w, TryAcquire(id, allowUnhealthy)) == World(
                 w.pool.(nodes := w.pool.nodes[id := n.(active := n.active + 1, probing := n.probing || !n.healthy)]),
                 w.engine, w.open + multiset{Lease(id, n.dialer, !n.healthy)}))
  {
  }

  /** A failure makes a stored node unhealthy and failed until its next probe time, even while it is
      being removed. */
  lemma Failing(w: World, id: string, hasCause: bool, nextProbe: nat)
    ensures id !in w.pool.nodes ==> Act(w, Fail(id, hasCause, nextProbe)) == w
    ensures id in w.pool.nodes ==>
      var n := w.pool.nodes[id];
      Act(w, Fail(id, hasCause, nextProbe)) == w.(pool := w.pool.(nodes := w.pool.nodes[id :=
        n.(healthy := false, failed := if hasCause then true else n.failed, nextProbe := nextProbe)]))
  {
  }

  /** A success makes a live node healthy and clears its failure; a node that is being removed is
      left alone, so a later revival finds it as healthy or unhealthy as it was. */
  lemma Succeeding(w: World, id: string, nextProbe: nat)
    ensures id !in w.pool.nodes ==> Act(w, Succeed(id, nextProbe)) == w
    ensures id in w.pool.nodes ==>
      var n := w.pool.nodes[id];
      Act(w, Succeed(id, nextProbe)) == w.(pool := w.pool.(nodes := w.pool.nodes[id :=
        if n.removed then n else n.(healthy := true, failed := false, nextProbe := nextProbe)]))
  {
    if id in w.pool.nodes {
      assert w.pool.nodes[id := w.pool.nodes[id]] == w.pool.nodes;
    }
  }

  /** Closing an open lease gives back one lease and, if it is gated, the gate. The last lease on a
      node that is being removed takes the node with it, and closes its dialer for the first time,
      which frees its tag unless the engine is shut. */
  lemma Releasing(w: World, lease: Lease)
    requires WorldInv(w) && lease in w.open
    ensures lease.id in w.pool.nodes && w.pool.nodes[lease.id].dialer < |w.engine.dialers|
    ensures w.engine.dialers[w.pool.nodes[lease.id].dialer].closes == 0
    ensures var n := w.pool.nodes[lease.id];
      var dialer := w.engine.dialers[n.dialer];
      Act(w, CloseLease(lease)) ==
      if n.removed && n.active == 1 then
        World(w.pool.(nodes := w.pool.nodes - {lease.id}),
              Engine(if w.engine.shut then w.engine.builtBy else w.engine.builtBy - {dialer.tag}, w.engine.shut,
                     w.engine.dialers[n.dialer := dialer.(closes := 1)]),
              w.open - multiset{lease})
      else
        World(w.pool.(nodes := w.pool.nodes[lease.id :=
                n.(active := n.active - 1, probing := if lease.gated then false else n.probing)]),
              w.engine, w.open - multiset{lease})
  {
    ReleaseGuardsHold(w, lease);
    ReleasingWorld(w, lease);
  }

  lemma ReleasingWorld(w: World, lease: Lease)
    requires lease in w.open && lease.id in w.pool.nodes && w.pool.nodes[lease.id].active > 0
    requires var d := w.pool.nodes[lease.id].dialer; d < |w.engine.dialers| && w.engine.dialers[d].closes == 0
    ensures var n := w.pool.nodes[lease.id];
      var dialer := w.engine.dialers[n.dialer];
      Act(w, CloseLease(lease)) ==
      if n.removed && n.active == 1 then
        World(w.pool.(nodes := w.pool.nodes - {lease.id}),
              Engine(if w.engine.shut then w.engine.builtBy else w.engine.builtBy - {dialer.tag}, w.engine.shut,
                     w.engine.dialers[n.dialer := dialer.(closes := 1)]),
              w.open - multiset{lease})
      else
        World(w.pool.(nodes := w.pool.nodes[lease.id :=
                n.(active := n.active - 1, probing := if lease.gated then false else n.probing)]),
              w.engine, w.open - multiset{lease})
  {
    var n := w.pool.nodes[lease.id];
    ReleasingNode(w.pool, lease.id, lease.gated);
    if n.removed && n.active == 1 {
      ClosingOne(w.engine, n.dialer);
    } else {
      CloseNone(w.engine);
    }
  }

  lemma ReleasingNode(p: Pool, id: string, gated: bool)
    requires id in p.nodes && p.nodes[id].active > 0
    ensures var n := p.nodes[id];
      Release(p, id, gated) ==
      if n.removed && n.active == 1 then (p.(nodes := p.nodes - {id}), {n.dialer})
      else (p.(nodes := p.nodes[id := n.(active := n.active - 1, probing := if gated then false else n.probing)]), {})
  {
  }

  /** ProbeDue opens the leases it hands out, and Apply leaves the open leases alone. */
  lemma Probing(w: World, now: nat)
    ensures Act(w, TakeDue(now)) == World(ProbeDue(w.pool, now).0, w.engine, w.open + multiset(ProbeDue(w.pool, now).1))
  {
  }

  lemma Reloading(w: World, specs: seq<NodeSpec>, order: seq<string>, library: string -> Library)
    requires VisitsMissing(w.pool, specs, order)
    ensures var (p, e, _) := Apply(w.pool, w.engine, specs, order, library);
      Act(w, Reload(specs, order, library)) == World(p, e, w.open)
  {
  }

  // ----- the engine -----

  /** Closing a dialer counts the close; the first one frees the tag, unless the engine is shut. */
  lemma ClosingOne(e: Engine, d: nat)
    requires d < |e.dialers|
    ensures var dialer := e.dialers[d];
      CloseAll(e, {d}) == Engine(
        if e.shut || dialer.closes > 0 then e.builtBy else e.builtBy - {dialer.tag}, e.shut,
        e.dialers[d := dialer.(closes := dialer.closes + 1)])
  {
    var e', dialer := CloseAll(e, {d}), e.dialers[d];
    assert e'.dialers == e.dialers[d := dialer.(closes := dialer.closes + 1)];
    assert !e.shut && dialer.closes == 0 ==> e'.builtBy == e.builtBy - {dialer.tag};
    assert !e.shut && dialer.closes > 0 ==> e'.builtBy == e.builtBy;
  }

  /** Build refuses when the engine is shut, the node is unusable, its tag is taken or the library
      fails, in this order and without a change; otherwise it takes the tag for the node and returns
      a dialer never returned before. */
  lemma Building(e: Engine, id: string, library: Library)
    ensures var (e', result) := Build(e, id, library);
      var tag := "node-" + id;
      if e.shut then e' == e && result == EngineClosed
      else if !library.usable then e' == e && result == Rejected
      else if tag in e.builtBy then e' == e && result == AlreadyExists
      else if !library.creates then e' == e && result == CreateFailed
      else e' == Engine(e.builtBy[tag := id], false, e.dialers + [Dialer(tag, 0)]) && result == Built(|e.dialers|)
  {
  }

  /** The first shutdown forgets all tags, and no dialer. */
  lemma Shutting(w: World)
    ensures Act(w, ShutEngine) == if w.engine.shut then w else w.(engine := Engine(map[], true, w.engine.dialers))
  {
  }

  lemma {:induction false} ShutBuildsNothing(e: Engine, ids: seq<string>, library: string -> Library)
    requires e.shut
    ensures var b := BuildEach(e, ids, library); b.engine == e && b.built == map[]
    decreases |ids|
  {
    if ids != [] {
      ShutBuildsNothing(e, ids[..|ids| - 1], library);
    }
  }

  lemma ShutStaysShut(w: World, a: Action)
    requires Possible(w, a) && w.engine.shut
    ensures var e := Act(w, a).engine; e.shut && e.builtBy == w.engine.builtBy && |e.dialers| == |w.engine.dialers|
  {
    if a.Reload? {
      ShutBuildsNothing(w.engine, a.order, a.library);
    }
  }

  /** A shutdown is for good: from then on no tag is remembered and no dialer is built. */
  lemma {:induction false} ShutIsForGood(w: World, actions: seq<Action>)
    requires w.engine.shut && w.engine.builtBy == map[] && RegistryRuns.Legal(w, actions)
    ensures var e := RegistryRuns.Run(w, actions).engine;
      e.shut && e.builtBy == map[] && |e.dialers| == |w.engine.dialers|
    decreases |actions|
  {
    if actions != [] {
      ShutStaysShut(w, actions[0]);
      ShutIsForGood(Act(w, actions[0]), actions[1..]);
    }
  }
}
