/** Whole runs of seeds, refreshes and registry traffic: which nodes and expiries the manager
    keeps, and which nodes the pool serves (manager.go and seed.go of internal/subscription,
    App.Refresh of internal/app/app.go). */
module LastKnownGood {
  import opened Ordering
  import opened EngineModel
  import opened RegistryModel
  import opened LeaseAccounting
  import opened ApplyTransaction
  import opened RegistryRuns
  import opened Merge
  import opened Manager

  lemma {:induction false} BatchesAddUp(a: seq<Result>, b: seq<Result>)
    ensures NodesIn(a + b) == NodesIn(a) + NodesIn(b)
    ensures ExpiriesIn(a + b) == ExpiriesIn(a) + ExpiriesIn(b)
    decreases |b|
  {
    if b == [] {
      assert a + b == a;
    } else {
      var n := |b| - 1;
      BatchesAddUp(a, b[..n]);
      assert (a + b)[..|a + b| - 1] == a + b[..n];
    }
  }

  // ----- runs -----

  /** `log` is every result since the start; `applied` the sources at the latest refresh whose
      Apply succeeded. */
  datatype App = App(manager: State, world: World, log: seq<Result>, applied: Sources)

  const NEW_APP := App(NEW_STATE, NEW_WORLD, [], map[])

  /** `nodes` is the merged list the event produced, one of those the map orders allow. */
  datatype Event =
    | Seeded(results: seq<Result>, nodes: seq<NodeSpec>)
    | Refreshed(results: seq<Result>, nodes: seq<NodeSpec>, order: seq<string>, library: string -> Library)
    | Traffic(action: Action)

  ghost predicate Can(s: App, e: Event) {
    match e
    case Seeded(rs, nodes) => IsMerge(s.manager.bySource + NodesIn(rs), nodes)
    case Refreshed(rs, nodes, order, _) =>
      IsMerge(s.manager.bySource + NodesIn(rs), nodes) && VisitsMissing(s.world.pool, nodes, order)
    case Traffic(a) => !a.Reload? && Possible(s.world, a)
  }

  ghost function Do(s: App, e: Event): App
    requires Can(s, e)
  {
    match e
    case Seeded(rs, nodes) => s.(manager := Absorb(s.manager, rs, map[], nodes), log := s.log + rs)
    case Refreshed(rs, nodes, order, library) =>
      var manager := Absorb(s.manager, rs, ErrorsIn(rs), nodes);
      if nodes == [] then s.(manager := manager, log := s.log + rs)
      else
        var diff := Apply(s.world.pool, s.world.engine, nodes, order, library).2;
        App(manager, Act(s.world, Reload(nodes, order, library)), s.log + rs,
            if diff.Some? then manager.bySource else s.applied)
    case Traffic(a) => s.(world := Act(s.world, a))
  }

  ghost predicate Legal(s: App, events: seq<Event>)
    decreases |events|
  {
    events == [] || (Can(s, events[0]) && Legal(Do(s, events[0]), events[1..]))
  }

  ghost function Run(s: App, events: seq<Event>): App
    requires Legal(s, events)
    decreases |events|
  {
    if events == [] then s else Run(Do(s, events[0]), events[1..])
  }

  ghost predicate AppInv(s: App) {
    && WorldInv(s.world) && Live(s.world.pool) == AllIds(s.applied)
    && s.manager.bySource == NodesIn(s.log) && s.manager.expiresAt == ExpiriesIn(s.log)
  }

  // ----- traffic leaves the live nodes alone -----

  lemma {:induction false} TakingDueKeepsLive(p: Pool, ids: seq<string>, now: nat)
    ensures Live(TakeDueAmong(p, ids, now).0) == Live(p)
    decreases |ids|
  {
    if ids != [] {
      TakingDueKeepsLive(p, ids[..|ids| - 1], now);
    }
  }

  lemma TrafficKeepsLive(w: World, a: Action)
    requires Possible(w, a) && !a.Reload?
    ensures Live(Act(w, a).pool) == Live(w.pool)
  {
    if a.TakeDue? {
      TakingDueKeepsLive(w.pool, w.pool.order, a.now);
    }
  }

  lemma {:induction false} WantedKeysAreIds(specs: seq<NodeSpec>)
    ensures Wanted(specs).Keys == Elements(Ids(specs))
    decreases |specs|
  {
    if specs != [] {
      var n := |specs| - 1;
      WantedKeysAreIds(specs[..n]);
      assert Ids(specs) == Ids(specs[..n]) + [specs[n].id];
    }
  }

  /** What applying a non-empty merge does to the pool: nothing, or the live nodes become its nodes. */
  lemma ApplyingMergeSetsLive(w: World, bySource: Sources, nodes: seq<NodeSpec>, order: seq<string>,
                              library: string -> Library)
    requires WorldInv(w) && IsMerge(bySource, nodes) && nodes != [] && VisitsMissing(w.pool, nodes, order)
    ensures var (p, _, diff) := Apply(w.pool, w.engine, nodes, order, library);
      if diff.Some? then Live(p) == AllIds(bySource) && AllIds(bySource) != {} else p == w.pool
  {
    ApplySetsLive(w, nodes, order, library);
    WantedKeysAreIds(nodes);
    IdsOfMerge(bySource, nodes);
    assert Ids(nodes)[0] in Elements(Ids(nodes));
  }

  lemma DoKeepsInv(s: App, e: Event)
    requires AppInv(s) && Can(s, e)
    ensures AppInv(Do(s, e))
    ensures Live(s.world.pool) != {} ==> Live(Do(s, e).world.pool) != {}
  {
    match e
    case Seeded(rs, nodes) => BatchesAddUp(s.log, rs);
    case Refreshed(rs, nodes, order, library) =>
      BatchesAddUp(s.log, rs);
      if nodes != [] {
        ApplyingMergeSetsLive(s.world, s.manager.bySource + NodesIn(rs), nodes, order, library);
        ActKeepsInv(s.world, Reload(nodes, order, library));
      }
    case Traffic(a) =>
      ActKeepsInv(s.world, a);
      TrafficKeepsLive(s.world, a);
  }

  lemma {:induction false} RunsKeepInv(s: App, events: seq<Event>)
    requires AppInv(s) && Legal(s, events)
    ensures AppInv(Run(s, events))
    ensures Live(s.world.pool) != {} ==> Live(Run(s, events).world.pool) != {}
    decreases |events|
  {
    if events != [] {
      DoKeepsInv(s, events[0]);
      RunsKeepInv(Do(s, events[0]), events[1..]);
    }
  }

  lemma NewAppIsGood()
    ensures AppInv(NEW_APP)
  {
    assert AllIds(map[]) == {};
  }

  /** After any run each source's nodes are those of its latest fetched, parsed and non-empty body
      or seed, its expiry is that of its latest successful fetch or seed, and the pool's live IDs
      are the IDs of the merge at the latest refresh whose Apply succeeded. */
  lemma LastKnownGoodIsKept(events: seq<Event>, source: string)
    requires Legal(NEW_APP, events)
    ensures var s := Run(NEW_APP, events);
      var m, rs := s.manager, s.log;
      && (source in m.bySource <==>
            exists i :: 0 <= i < |rs| && rs[i].source == source
              && rs[i].fetch.Fetched? && rs[i].fetch.parsed.Nodes? && rs[i].fetch.parsed.nodes != [])
      && (forall i ::
            (&& 0 <= i < |rs| && rs[i].source == source
             && rs[i].fetch.Fetched? && rs[i].fetch.parsed.Nodes? && rs[i].fetch.parsed.nodes != []
             && (forall j :: i < j < |rs| && rs[j].source == source ==>
                   !(rs[j].fetch.Fetched? && rs[j].fetch.parsed.Nodes? && rs[j].fetch.parsed.nodes != []))) ==>
            && |m.bySource[source]| == |rs[i].fetch.parsed.nodes|
            && forall k :: 0 <= k < |rs[i].fetch.parsed.nodes| ==>
                 m.bySource[source][k] == rs[i].fetch.parsed.nodes[k].(sourceIDs := [source]))
      && (source in m.expiresAt <==> exists i :: 0 <= i < |rs| && rs[i].source == source && rs[i].fetch.Fetched?)
      && (forall i ::
            (&& 0 <= i < |rs| && rs[i].source == source && rs[i].fetch.Fetched?
             && (forall j :: i < j < |rs| && rs[j].source == source ==> !rs[j].fetch.Fetched?)) ==>
            m.expiresAt[source] == rs[i].fetch.expiry)
      && (forall id :: id in s.world.pool.nodes && !s.world.pool.nodes[id].removed <==>
            exists k, i :: k in s.applied && 0 <= i < |s.applied[k]| && s.applied[k][i].id == id)
  {
    NewAppIsGood();
    RunsKeepInv(NEW_APP, events);
    NodesInBatch(Run(NEW_APP, events).log, source);
    ExpiriesInBatch(Run(NEW_APP, events).log, source);
    LiveAreListed(Run(NEW_APP, events).world.pool, Run(NEW_APP, events).applied);
  }

  lemma LiveAreListed(p: Pool, bySource: Sources)
    requires Live(p) == AllIds(bySource)
    ensures forall id :: id in p.nodes && !p.nodes[id].removed <==>
              exists k, i :: k in bySource && 0 <= i < |bySource[k]| && bySource[k][i].id == id
  {
    forall id
      ensures id in p.nodes && !p.nodes[id].removed <==>
              exists k, i :: k in bySource && 0 <= i < |bySource[k]| && bySource[k][i].id == id
    {
      assert id in Live(p) <==> id in AllIds(bySource);
    }
  }

  /** What a refresh does to the manager: it takes in the batch, whatever becomes of the pool. */
  lemma RefreshFillsTheManager(s: App, rs: seq<Result>, nodes: seq<NodeSpec>, order: seq<string>, library: string -> Library)
    requires IsMerge(s.manager.bySource + NodesIn(rs), nodes) && VisitsMissing(s.world.pool, nodes, order)
    ensures Can(s, Refreshed(rs, nodes, order, library))
    ensures var s' := Do(s, Refreshed(rs, nodes, order, library));
      var expiresAt := s.manager.expiresAt + ExpiriesIn(rs);
      && s'.manager == State(s.manager.bySource + NodesIn(rs), expiresAt, Snapshot(expiresAt, nodes, ErrorsIn(rs)))
      && s'.log == s.log + rs
  {
  }

  /** What it does to the pool: a merge with nodes is applied, an empty one is not. */
  lemma RefreshAppliesTheMerge(s: App, rs: seq<Result>, nodes: seq<NodeSpec>, order: seq<string>, library: string -> Library)
    requires IsMerge(s.manager.bySource + NodesIn(rs), nodes) && VisitsMissing(s.world.pool, nodes, order)
    ensures Can(s, Refreshed(rs, nodes, order, library))
    ensures var s', (p, e, diff) := Do(s, Refreshed(rs, nodes, order, library)), Apply(s.world.pool, s.world.engine, nodes, order, library);
      if nodes == [] then s'.world == s.world && s'.applied == s.applied
      else
        && s'.world == World(p, e, s.world.open)
        && s'.applied == if diff.Some? then s.manager.bySource + NodesIn(rs) else s.applied
  {
  }

  /** Applying a list of nodes succeeds exactly if all of them have IDs and the library accepts those
      that are new; then the live nodes are exactly those of the list, and otherwise the pool stays. */
  lemma AppliedNodesAreLive(w: World, nodes: seq<NodeSpec>, order: seq<string>, library: string -> Library)
    requires WorldInv(w) && VisitsMissing(w.pool, nodes, order)
    ensures var (p, _, diff) := Apply(w.pool, w.engine, nodes, order, library);
      && (diff.Some? <==> && (forall i :: 0 <= i < |nodes| ==> nodes[i].id != "") && (w.engine.shut ==> order == [])
                          && forall id :: id in order ==> library(id).usable && library(id).creates)
      && (diff.None? ==> p == w.pool)
      && (diff.Some? ==>
            forall id :: id in p.nodes && !p.nodes[id].removed <==> exists i :: 0 <= i < |nodes| && nodes[i].id == id)
  {
    ApplySucceedsIff(w, nodes, order, library);
    ApplySetsLive(w, nodes, order, library);
    if Apply(w.pool, w.engine, nodes, order, library).2.Some? {
      LiveAreWanted(Apply(w.pool, w.engine, nodes, order, library).0, nodes);
    }
  }

  lemma WantedAreListed(nodes: seq<NodeSpec>)
    ensures forall id :: id in Wanted(nodes) <==> exists i :: 0 <= i < |nodes| && nodes[i].id == id
  {
    WantedKeysAreIds(nodes);
    forall id ensures id in Elements(Ids(nodes)) <==> exists i :: 0 <= i < |nodes| && nodes[i].id == id {
      if exists i :: 0 <= i < |nodes| && nodes[i].id == id {
        var i :| 0 <= i < |nodes| && nodes[i].id == id;
        assert Ids(nodes)[i] == id;
      }
    }
  }

  lemma LiveAreWanted(p: Pool, nodes: seq<NodeSpec>)
    requires Live(p) == Wanted(nodes).Keys
    ensures forall id :: id in p.nodes && !p.nodes[id].removed <==> exists i :: 0 <= i < |nodes| && nodes[i].id == id
  {
    WantedAreListed(nodes);
    forall id ensures id in p.nodes && !p.nodes[id].removed <==> id in Wanted(nodes) {
      assert id in Live(p) <==> id in Wanted(nodes).Keys;
    }
  }

  /** A seed fills the manager but not the pool, and traffic leaves the manager alone. */
  lemma OtherEvents(s: App, rs: seq<Result>, nodes: seq<NodeSpec>, a: Action)
    ensures IsMerge(s.manager.bySource + NodesIn(rs), nodes) ==>
      && Can(s, Seeded(rs, nodes))
      && var s' := Do(s, Seeded(rs, nodes));
         && s'.world == s.world && s'.applied == s.applied && s'.log == s.log + rs
         && s'.manager.bySource == s.manager.bySource + NodesIn(rs)
         && s'.manager.expiresAt == s.manager.expiresAt + ExpiriesIn(rs)
         && s'.manager.last == Snapshot(s'.manager.expiresAt, nodes, map[])
    ensures !a.Reload? && Possible(s.world, a) ==>
      Can(s, Traffic(a)) && Do(s, Traffic(a)) == s.(world := Act(s.world, a))
  {
  }

  /** Once the pool has a live node it never becomes empty again. */
  lemma {:induction false} PoolNeverEmpties(before: seq<Event>, after: seq<Event>)
    requires Legal(NEW_APP, before) && Live(Run(NEW_APP, before).world.pool) != {}
    requires Legal(Run(NEW_APP, before), after)
    ensures Live(Run(Run(NEW_APP, before), after).world.pool) != {}
  {
    NewAppIsGood();
    RunsKeepInv(NEW_APP, before);
    RunsKeepInv(Run(NEW_APP, before), after);
  }
}
