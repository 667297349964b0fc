/** Runs of the registry's methods in any order, and what every reachable state satisfies. */
module RegistryRuns {
  import opened Options
  import opened Ordering
  import opened EngineModel
  import opened AttemptModel
  import opened RegistryModel
  import opened LeaseAccounting
  import opened ApplyTransaction

  lemma ActKeepsInv(w: World, a: Action)
    requires WorldInv(w) && Possible(w, a)
    ensures WorldInv(Act(w, a))
  {
    match a
    case TryAcquire(id, allowUnhealthy) => AcquireKeepsInv(w, id, allowUnhealthy);
    case CloseLease(lease) => ReleaseKeepsInv(w, lease);
    case Fail(id, hasCause, nextProbe) => MarkFailureKeepsInv(w, id, hasCause, nextProbe);
    case Succeed(id, nextProbe) => MarkSuccessKeepsInv(w, id, nextProbe);
    case TakeDue(now) => TakeDueKeepsInv(w, w.pool.order, now);
    case Reload(specs, order, library) => ApplyKeepsInv(w, specs, order, library);
    case ShutEngine =>
  }

  ghost predicate Legal(w: World, actions: seq<Action>)
    decreases |actions|
  {
    actions == [] || (Possible(w, actions[0]) && Legal(Act(w, actions[0]), actions[1..]))
  }

  ghost function Run(w: World, actions: seq<Action>): World
    requires Legal(w, actions)
    decreases |actions|
  {
    if actions == [] then w else Run(Act(w, actions[0]), actions[1..])
  }

  lemma {:induction false} RunsKeepInv(w: World, actions: seq<Action>)
    requires WorldInv(w) && Legal(w, actions)
    ensures WorldInv(Run(w, actions))
    decreases |actions|
  {
    if actions != [] {
      ActKeepsInv(w, actions[0]);
      RunsKeepInv(Act(w, actions[0]), actions[1..]);
    }
  }

  lemma NewWorldIsGood()
    ensures WorldInv(NEW_WORLD)
  {
  }

  /** Over all runs: a node's `active` is the number of its open leases, at most one of them is
      gated and `probing` says whether one is, every open lease belongs to a stored node, and the
      order lists exactly the live nodes, strictly sorted. */
  lemma LeasesAndGatesAreAccounted(actions: seq<Action>)
    requires Legal(NEW_WORLD, actions)
    ensures var w := Run(NEW_WORLD, actions);
      && (forall lease :: lease in w.open ==>
            lease.id in w.pool.nodes && lease.dialer == w.pool.nodes[lease.id].dialer)
      && (forall id :: id in w.pool.nodes ==>
            var n := w.pool.nodes[id];
            && n.active == w.open[Lease(id, n.dialer, true)] + w.open[Lease(id, n.dialer, false)]
            && w.open[Lease(id, n.dialer, true)] == (if n.probing then 1 else 0)
            && (n.removed ==> n.active > 0))
      && StrictlySorted(w.pool.order)
      && (forall id :: id in w.pool.order <==> id in w.pool.nodes && !w.pool.nodes[id].removed)
  {
    NewWorldIsGood();
    RunsKeepInv(NEW_WORLD, actions);
    var w := Run(NEW_WORLD, actions);
    forall id | id in w.pool.nodes ensures Balanced(w.pool, w.open, id) {}
    assert forall id :: id in w.pool.order <==> id in Elements(w.pool.order);
  }

  ghost predicate SoleOwner(p: Pool, id: string, d: nat) {
    id in p.nodes && p.nodes[id].dialer == d
    && forall other :: other in p.nodes && p.nodes[other].dialer == d ==> other == id
  }

  /** Over all runs: every dialer Build ever returned either is open and owned by exactly one
      node, or has been closed exactly once and no node or open lease holds it; and until the
      engine is shut it remembers exactly the tags of the stored nodes. */
  lemma DialersLiveAndDieOnce(actions: seq<Action>)
    requires Legal(NEW_WORLD, actions)
    ensures var w := Run(NEW_WORLD, actions);
      && (forall d :: 0 <= d < |w.engine.dialers| ==>
            if w.engine.dialers[d].closes == 0 then
              exists id :: id in w.pool.nodes && w.pool.nodes[id].dialer == d
                && forall other :: other in w.pool.nodes && w.pool.nodes[other].dialer == d ==> other == id
            else
              w.engine.dialers[d].closes == 1 && forall id :: id in w.pool.nodes ==> w.pool.nodes[id].dialer != d)
      && (forall lease :: lease in w.open ==>
            lease.dialer < |w.engine.dialers| && w.engine.dialers[lease.dialer].closes == 0)
      && (!w.engine.shut ==> w.engine.builtBy.Keys == set id | id in w.pool.nodes :: "node-" + id)
  {
    NewWorldIsGood();
    RunsKeepInv(NEW_WORLD, actions);
    DialersInGoodWorld(Run(NEW_WORLD, actions));
    DialersSpelledOut(Run(NEW_WORLD, actions));
  }

  lemma DialersSpelledOut(w: World)
    requires forall d :: 0 <= d < |w.engine.dialers| ==> OwnedOrClosedOnce(w, d)
    ensures forall d :: 0 <= d < |w.engine.dialers| ==>
              if w.engine.dialers[d].closes == 0 then
                exists id :: id in w.pool.nodes && w.pool.nodes[id].dialer == d
                  && forall other :: other in w.pool.nodes && w.pool.nodes[other].dialer == d ==> other == id
              else
                w.engine.dialers[d].closes == 1 && forall id :: id in w.pool.nodes ==> w.pool.nodes[id].dialer != d
  {
    forall d | 0 <= d < |w.engine.dialers| && w.engine.dialers[d].closes == 0
      ensures exists id :: id in w.pool.nodes && w.pool.nodes[id].dialer == d
                && forall other :: other in w.pool.nodes && w.pool.nodes[other].dialer == d ==> other == id
    {
      assert OwnedOrClosedOnce(w, d);
      var id :| SoleOwner(w.pool, id, d);
    }
    forall d | 0 <= d < |w.engine.dialers| && w.engine.dialers[d].closes != 0
      ensures w.engine.dialers[d].closes == 1 && forall id :: id in w.pool.nodes ==> w.pool.nodes[id].dialer != d
    {
      assert OwnedOrClosedOnce(w, d);
    }
  }

  ghost predicate OwnedOrClosedOnce(w: World, d: nat)
    requires d < |w.engine.dialers|
  {
    if w.engine.dialers[d].closes == 0 then exists id :: SoleOwner(w.pool, id, d)
    else w.engine.dialers[d].closes == 1 && !HasOwner(w.pool, d)
  }

  lemma DialersInGoodWorld(w: World)
    requires WorldInv(w)
    ensures forall d :: 0 <= d < |w.engine.dialers| ==> OwnedOrClosedOnce(w, d)
    ensures forall lease :: lease in w.open ==>
              lease.dialer < |w.engine.dialers| && w.engine.dialers[lease.dialer].closes == 0
    ensures !w.engine.shut ==> w.engine.builtBy.Keys == set id | id in w.pool.nodes :: Tag(id)
  {
    forall d | 0 <= d < |w.engine.dialers| ensures OwnedOrClosedOnce(w, d) {
      if w.engine.dialers[d].closes == 0 {
        assert HasOwner(w.pool, d);
        var id :| id in w.pool.nodes && w.pool.nodes[id].dialer == d;
        forall other | other in w.pool.nodes && w.pool.nodes[other].dialer == d ensures other == id {
          DialersAreDistinct(w.pool, w.engine, id, other);
        }
        assert SoleOwner(w.pool, id, d);
      }
    }
    forall lease | lease in w.open
      ensures lease.dialer < |w.engine.dialers| && w.engine.dialers[lease.dialer].closes == 0
    {
      ReleaseGuardsHold(w, lease);
    }
  }

  /** Over all runs: the "already exists" refusal of Build is never met. */
  lemma TagsNeverClash(actions: seq<Action>, specs: seq<NodeSpec>, order: seq<string>, library: string -> Library)
    requires Legal(NEW_WORLD, actions) && VisitsMissing(Run(NEW_WORLD, actions).pool, specs, order)
    ensures BuildEach(Run(NEW_WORLD, actions).engine, order, library).refusal != Some(AlreadyExists)
  {
    NewWorldIsGood();
    RunsKeepInv(NEW_WORLD, actions);
    assert forall id :: id in order ==> id in Elements(order);
    BuildEachExtends(Run(NEW_WORLD, actions).pool, Run(NEW_WORLD, actions).engine, order, library);
  }

  // ----- probing -----

  /** The due nodes among `ids`, in that order. */
  ghost function DueAmong(p: Pool, ids: seq<string>, now: nat): (due: seq<string>)
    ensures forall id :: id in due ==> id in ids && id in p.nodes && IsDue(p.nodes[id], now)
  {
    if ids == [] then []
    else
      var n := |ids| - 1;
      assert ids == ids[..n] + [ids[n]];
      var before := DueAmong(p, ids[..n], now);
      if ids[n] in p.nodes && IsDue(p.nodes[ids[n]], now) then before + [ids[n]] else before
  }

  lemma {:induction false} TakesEachDueOnce(p: Pool, ids: seq<string>, now: nat)
    requires Distinct(ids)
    ensures var (q, leases) := TakeDueAmong(p, ids, now);
      var due := DueAmong(p, ids, now);
      && q.order == p.order && q.nodes.Keys == p.nodes.Keys
      && (forall id :: id in p.nodes ==> q.nodes[id] == if id in due then TakeGate(p, id).nodes[id] else p.nodes[id])
      && |leases| == |due|
      && (forall i :: 0 <= i < |due| ==> leases[i] == Lease(due[i], p.nodes[due[i]].dialer, true))
    decreases |ids|
  {
    if ids != [] {
      var n := |ids| - 1;
      TakesEachDueOnce(p, ids[..n], now);
      assert ids[n] !in ids[..n];
    }
  }

  lemma {:induction false} DueAmongIsComplete(p: Pool, ids: seq<string>, now: nat, i: nat)
    requires i < |ids| && ids[i] in p.nodes && IsDue(p.nodes[ids[i]], now)
    ensures ids[i] in DueAmong(p, ids, now)
    decreases |ids|
  {
    if i < |ids| - 1 {
      DueAmongIsComplete(p, ids[..|ids| - 1], now, i);
    }
  }

  lemma {:induction false} DueAmongIsDistinct(p: Pool, ids: seq<string>, now: nat)
    requires Distinct(ids)
    ensures Distinct(DueAmong(p, ids, now))
    decreases |ids|
  {
    if ids != [] {
      var n := |ids| - 1;
      DueAmongIsDistinct(p, ids[..n], now);
      assert ids[n] !in ids[..n];
    }
  }

  /** The leases ProbeDue hands out are the gated leases of the nodes that are live, ungated and
      past their probe time, each once. */
  lemma DueLeases(p: Pool, now: nat)
    requires Ordered(p)
    ensures var leases := ProbeDue(p, now).1;
      && (forall i, j :: 0 <= i < j < |leases| ==> leases[i].id != leases[j].id)
      && (forall i :: 0 <= i < |leases| ==>
            var id := leases[i].id;
            && id in p.nodes && !p.nodes[id].removed && !p.nodes[id].probing && p.nodes[id].nextProbe <= now
            && leases[i] == Lease(id, p.nodes[id].dialer, true))
      && (forall id :: id in p.nodes && !p.nodes[id].removed && !p.nodes[id].probing && p.nodes[id].nextProbe <= now ==>
            Lease(id, p.nodes[id].dialer, true) in leases)
  {
    SortedIsDistinct(p.order);
    TakesEachDueOnce(p, p.order, now);
    DueAmongIsDistinct(p, p.order, now);
    var due := DueAmong(p, p.order, now);
    assert forall i :: 0 <= i < |due| ==> due[i] in due;
    forall id | id in p.nodes && IsDue(p.nodes[id], now)
      ensures Lease(id, p.nodes[id].dialer, true) in ProbeDue(p, now).1
    {
      ProbeDueTakesExactlyTheDue(p, now, id);
    }
  }

  /** ProbeDue gives a stored node its gated lease exactly if it is live, ungated and past its probe
      time, and changes nothing else of it or of any other node. */
  lemma ProbeDueTakesExactlyTheDue(p: Pool, now: nat, id: string)
    requires Ordered(p) && id in p.nodes
    ensures var (q, leases) := ProbeDue(p, now);
      var n := p.nodes[id];
      var due := !n.removed && !n.probing && n.nextProbe <= now;
      && q.order == p.order && q.nodes.Keys == p.nodes.Keys
      && (due <==> Lease(id, n.dialer, true) in leases) && (!due ==> forall l :: l in leases ==> l.id != id)
      && q.nodes[id] == if due then n.(probing := true, active := n.active + 1) else n
  {
    SortedIsDistinct(p.order);
    TakesEachDueOnce(p, p.order, now);
    var due := DueAmong(p, p.order, now);
    if IsDue(p.nodes[id], now) {
      assert id in Elements(p.order);
      var i :| 0 <= i < |p.order| && p.order[i] == id;
      DueAmongIsComplete(p, p.order, now, i);
      var j :| 0 <= j < |due| && due[j] == id;
    }
  }

  // ----- the routing snapshot -----

  ghost predicate AllLive(p: Pool, ids: seq<string>) {
    forall i :: 0 <= i < |ids| ==> ids[i] in p.nodes && !p.nodes[ids[i]].removed
  }

  lemma {:induction false} ListingOfLive(p: Pool, ids: seq<string>, noneHealthy: bool)
    requires AllLive(p, ids)
    ensures var cs := Listing(p, ids, noneHealthy);
      && |cs| == |ids|
      && forall i :: 0 <= i < |ids| ==> cs[i] == CandidateFor(ids[i], p.nodes[ids[i]], noneHealthy)
    decreases |ids|
  {
    if ids != [] {
      ListingOfLive(p, ids[..|ids| - 1], noneHealthy);
    }
  }

  /** The snapshot lists every live node once, in sorted order. A node is offered half-open exactly
      if no live node is healthy and its gate is free, and is eligible exactly if it is healthy or
      offered half-open, which is when Acquire with that flag would succeed in the same state. */
  lemma SnapshotMatchesAdmission(p: Pool)
    requires Ordered(p)
    ensures var cs := RoutingSnapshot(p);
      && |cs| == |p.order| && UniqueIds(cs) && AllLive(p, p.order)
      && (forall i :: 0 <= i < |cs| ==> cs[i].id == p.order[i])
      && (forall i :: 0 <= i < |cs| ==> (cs[i].eligible <==> Acquire(p, cs[i].id, cs[i].halfOpen).1.Some?))
      && (forall i :: 0 <= i < |cs| ==>
            var n := p.nodes[p.order[i]];
            var noneHealthy := forall id :: id in p.nodes && !p.nodes[id].removed ==> !p.nodes[id].healthy;
            && (cs[i].halfOpen <==> noneHealthy && !n.probing)
            && (cs[i].eligible <==> n.healthy || (noneHealthy && !n.probing)))
  {
    assert forall i :: 0 <= i < |p.order| ==> p.order[i] in Elements(p.order);
    ListingOfLive(p, p.order, !AnyHealthy(p, p.order));
    SortedIsDistinct(p.order);
    SomeHealthyIsLive(p);
  }

  lemma SomeHealthyIsLive(p: Pool)
    requires Ordered(p)
    ensures AnyHealthy(p, p.order) <==> exists id :: id in p.nodes && !p.nodes[id].removed && p.nodes[id].healthy
  {
    forall id | id in p.nodes && !p.nodes[id].removed && p.nodes[id].healthy ensures AnyHealthy(p, p.order) {
      assert id in Elements(p.order);
      var i :| 0 <= i < |p.order| && p.order[i] == id;
    }
  }
}
