/** The engine, the registry and its leases as the objects the gateway updates in place
    (internal/pool/registry.go, internal/proxycore/engine.go). */
module RegistryObjects {
  import opened Options
  import opened Ordering
  import opened EngineModel
  import opened SelectorModel
  import opened LeaseAccounting
  import opened ApplyTransaction
  import Model = RegistryModel

  class Outbounds {
    var builtBy: map<string, string>
    var closed: bool
    var dialers: seq<Dialer>

    constructor ()
      ensures State() == NEW_ENGINE
    {
      builtBy, closed, dialers := map[], false, [];
    }

    ghost function State(): Engine
      reads this
    {
      Engine(builtBy, closed, dialers)
    }

    method Build(id: string, library: Library) returns (result: BuildResult)
      modifies this
      ensures (State(), result) == EngineModel.Build(old(State()), id, library)
    {
      if closed {
        return EngineClosed;
      }
      if !library.usable {
        return Rejected;
      }
      var tag := Tag(id);
      if tag in builtBy {
        return AlreadyExists;
      }
      if !library.creates {
        return CreateFailed;
      }
      builtBy := builtBy[tag := id];
      dialers := dialers + [Dialer(tag, 0)];
      return Built(|dialers| - 1);
    }

    /** nodeDialer.Close: the first call frees the tag unless the engine is closed. */
    method CloseDialer(d: nat)
      requires d < |dialers|
      modifies this
      ensures State() == CloseAll(old(State()), {d})
    {
      var dialer := dialers[d];
      if dialer.closes == 0 && !closed {
        builtBy := builtBy - {dialer.tag};
      }
      dialers := dialers[d := dialer.(closes := dialer.closes + 1)];
      assert dialers == CloseAll(old(State()), {d}).dialers;
      assert builtBy == CloseAll(old(State()), {d}).builtBy;
    }

    method Close()
      modifies this
      ensures State() == Shut(old(State()))
    {
      if closed {
        return;
      }
      closed := true;
      builtBy := map[];
    }
  }

  class Registry {
    const engine: Outbounds
    const probeInterval: nat
    var nodes: map<string, Model.Node>
    var order: seq<string>

    constructor (engine: Outbounds, probeInterval: nat)
      requires engine.State() == NEW_ENGINE
      ensures this.engine == engine && this.probeInterval == probeInterval
      ensures Valid() && State() == Model.NEW_POOL
    {
      this.engine, this.probeInterval := engine, probeInterval;
      nodes, order := map[], [];
    }

    ghost function State(): Model.Pool
      reads this
    {
      Model.Pool(nodes, order)
    }

    /** Every node has a dialer the engine built. */
    ghost predicate Valid()
      reads this, engine
    {
      forall id :: id in nodes ==> nodes[id].dialer < |engine.dialers|
    }

    /** Builds the wanted nodes that are not stored, in the arbitrary order of a Go map; on a
        refusal it closes what it has built. `visited` is the order taken. */
    method BuildMissing(wanted: map<string, Model.NodeSpec>, library: string -> Library)
      returns (built: map<string, nat>, ok: bool, ghost visited: seq<string>)
      modifies engine
      ensures Distinct(visited) && Elements(visited) == wanted.Keys - nodes.Keys
      ensures var b := Model.BuildEach(old(engine.State()), visited, library);
        if b.refusal.Some? then !ok && engine.State() == CloseAll(b.engine, Model.DialersOf(b.built))
        else ok && engine.State() == b.engine && built == b.built
    {
      ghost var start := engine.State();
      built := map[];
      visited := [];
      var missing := wanted.Keys - nodes.Keys;
      var remaining := wanted.Keys;
      while remaining != {}
        invariant Visiting(missing, remaining, visited)
        invariant Model.BuildEach(start, visited, library) == Model.Batch(engine.State(), built, None)
      {
        var id :| id in remaining;
        remaining := remaining - {id};
        if id !in nodes {
          VisitNext(missing, remaining, visited, id);
          NextBuild(start, visited, id, library);
          var result := engine.Build(id, library(id));
          visited := visited + [id];
          if !result.Built? {
            visited := GiveUp(start, missing, remaining, visited, library);
            ClosePending(built);
            return built, false, visited;
          }
          built := built[id := result.dialer];
        }
      }
      ok := true;
    }

    static ghost predicate Visiting(missing: set<string>, remaining: set<string>, visited: seq<string>) {
      Distinct(visited) && Elements(visited) == missing - remaining
    }

    static lemma VisitNext(missing: set<string>, remaining: set<string>, visited: seq<string>, id: string)
      requires Visiting(missing, remaining + {id}, visited) && id in missing && id !in remaining
      ensures Visiting(missing, remaining, visited + [id])
    {
      assert id !in Elements(visited);
      assert Elements(visited + [id]) == Elements(visited) + {id};
    }

    static lemma NextBuild(start: Engine, visited: seq<string>, id: string, library: string -> Library)
      requires Model.BuildEach(start, visited, library).refusal.None?
      ensures var b := Model.BuildEach(start, visited, library);
        var (e, result) := EngineModel.Build(b.engine, id, library(id));
        Model.BuildEach(start, visited + [id], library)
        == if result.Built? then Model.Batch(e, b.built[id := result.dialer], None)
           else Model.Batch(e, b.built, Some(result))
      ensures DialersDiffer(Model.BuildEach(start, visited + [id], library))
    {
      assert (visited + [id])[..|visited|] == visited;
      BuiltDialersDiffer(start, visited + [id], library);
    }

    static ghost predicate DialersDiffer(b: Model.Batch) {
      && (forall id :: id in b.built ==> b.built[id] < |b.engine.dialers|)
      && (forall x, y :: x in b.built && y in b.built && b.built[x] == b.built[y] ==> x == y)
    }

    static lemma {:induction false} BuiltDialersDiffer(e: Engine, ids: seq<string>, library: string -> Library)
      ensures DialersDiffer(Model.BuildEach(e, ids, library))
      decreases |ids|
    {
      if ids != [] {
        BuiltDialersDiffer(e, ids[..|ids| - 1], library);
      }
    }

    /** Once a build is refused, the nodes not visited yet do not matter. */
    static lemma GiveUp(start: Engine, missing: set<string>, remaining: set<string>, visited: seq<string>,
                        library: string -> Library) returns (all: seq<string>)
      requires Visiting(missing, remaining, visited) && Model.BuildEach(start, visited, library).refusal.Some?
      ensures Visiting(missing, {}, all)
      ensures Model.BuildEach(start, all, library) == Model.BuildEach(start, visited, library)
    {
      var rest := Sorted(missing * remaining);
      SortedIsDistinct(rest);
      all := visited + rest;
      assert Elements(all) == Elements(visited) + Elements(rest);
      assert forall i :: 0 <= i < |rest| ==> rest[i] in Elements(rest);
      assert forall i :: 0 <= i < |visited| ==> visited[i] in Elements(visited);
      assert Elements(all) == missing;
      BuildingStops(start, visited, rest, library);
    }

    static lemma {:induction false} BuildingStops(e: Engine, ids: seq<string>, rest: seq<string>, library: string -> Library)
      requires Model.BuildEach(e, ids, library).refusal.Some?
      ensures Model.BuildEach(e, ids + rest, library) == Model.BuildEach(e, ids, library)
      decreases |rest|
    {
      if rest == [] {
        assert ids + rest == ids;
      } else {
        var n := |rest| - 1;
        BuildingStops(e, ids, rest[..n], library);
        assert (ids + rest)[..|ids + rest| - 1] == ids + rest[..n];
      }
    }

    method ClosePending(built: map<string, nat>)
      requires forall id :: id in built ==> built[id] < |engine.dialers|
      requires forall a, b :: a in built && b in built && built[a] == built[b] ==> a == b
      modifies engine
      ensures engine.State() == CloseAll(old(engine.State()), Model.DialersOf(built))
    {
      var todo := built.Keys;
      ghost var closed: set<nat> := {};
      CloseNone(engine.State());
      while todo != {}
        invariant todo <= built.Keys
        invariant forall id :: id in built ==> (built[id] in closed <==> id !in todo)
        invariant closed <= Model.DialersOf(built)
        invariant engine.State() == CloseAll(old(engine.State()), closed)
      {
        var id :| id in todo;
        CloseInTurn(old(engine.State()), closed, {built[id]});
        engine.CloseDialer(built[id]);
        todo := todo - {id};
        closed := closed + {built[id]};
      }
      assert closed == Model.DialersOf(built);
    }

    /** The stored nodes when those in `todo` still await the new snapshot. */
    static ghost function HalfSettled(nodes: map<string, Model.Node>, wanted: map<string, Model.NodeSpec>,
                                      todo: set<string>): map<string, Model.Node>
    {
      map id | id in nodes && (id in todo || Model.Stays(nodes[id], id in wanted)) ::
        if id in todo then nodes[id]
        else if id in wanted then nodes[id].(removed := false, spec := wanted[id])
        else nodes[id].(removed := true)
    }

    static ghost function DroppedSoFar(nodes: map<string, Model.Node>, wanted: map<string, Model.NodeSpec>,
                                       todo: set<string>): set<nat>
    {
      set id | id in nodes && id !in todo && !Model.Stays(nodes[id], id in wanted) :: nodes[id].dialer
    }

    static ghost function RetiredSoFar(nodes: map<string, Model.Node>, wanted: map<string, Model.NodeSpec>,
                                       todo: set<string>): set<string>
    {
      set id | id in nodes && id !in todo && id !in wanted && !nodes[id].removed
    }

    static lemma NodesGoOn(nodes: map<string, Model.Node>, wanted: map<string, Model.NodeSpec>, todo: set<string>, id: string)
      requires id in nodes && id in todo
      ensures var half := HalfSettled(nodes, wanted, todo);
        && id in half && half[id] == nodes[id]
        && HalfSettled(nodes, wanted, todo - {id}) ==
             if id in wanted then half[id := nodes[id].(removed := false, spec := wanted[id])]
             else if nodes[id].removed then half
             else if nodes[id].active == 0 then half - {id}
             else half[id := nodes[id].(removed := true)]
    {
    }

    static lemma EngineGoesOn(nodes: map<string, Model.Node>, start: Engine, wanted: map<string, Model.NodeSpec>,
                              todo: set<string>, id: string)
      requires id in nodes && id in todo && OwnDialers(nodes)
      ensures var e := CloseAll(start, DroppedSoFar(nodes, wanted, todo));
        CloseAll(start, DroppedSoFar(nodes, wanted, todo - {id})) ==
        if Model.Stays(nodes[id], id in wanted) then e else CloseAll(e, {nodes[id].dialer})
    {
      var d := nodes[id].dialer;
      assert d !in DroppedSoFar(nodes, wanted, todo);
      CloseInTurn(start, DroppedSoFar(nodes, wanted, todo), {d});
      assert DroppedSoFar(nodes, wanted, todo - {id}) ==
        DroppedSoFar(nodes, wanted, todo) + if Model.Stays(nodes[id], id in wanted) then {} else {d};
    }

    static lemma CountsGoOn(nodes: map<string, Model.Node>, wanted: map<string, Model.NodeSpec>, todo: set<string>, id: string)
      requires id in nodes && id in todo
      ensures |RetiredSoFar(nodes, wanted, todo - {id})| ==
        |RetiredSoFar(nodes, wanted, todo)| + if id in wanted || nodes[id].removed then 0 else 1
      ensures |wanted.Keys * (nodes.Keys - (todo - {id}))| ==
        |wanted.Keys * (nodes.Keys - todo)| + if id in wanted then 1 else 0
    {
      RetiredGoesOn(nodes, wanted, todo, id);
      KeptGoesOn(nodes.Keys, wanted.Keys, todo, id);
    }

    static lemma RetiredGoesOn(nodes: map<string, Model.Node>, wanted: map<string, Model.NodeSpec>, todo: set<string>, id: string)
      requires id in nodes && id in todo
      ensures |RetiredSoFar(nodes, wanted, todo - {id})| ==
        |RetiredSoFar(nodes, wanted, todo)| + if id in wanted || nodes[id].removed then 0 else 1
    {
      if id in wanted || nodes[id].removed {
        assert RetiredSoFar(nodes, wanted, todo - {id}) == RetiredSoFar(nodes, wanted, todo);
      } else {
        OneMore(RetiredSoFar(nodes, wanted, todo), RetiredSoFar(nodes, wanted, todo - {id}), id);
      }
    }

    static lemma KeptGoesOn(stored: set<string>, wanted: set<string>, todo: set<string>, id: string)
      requires id in stored && id in todo
      ensures |wanted * (stored - (todo - {id}))| == |wanted * (stored - todo)| + if id in wanted then 1 else 0
    {
      if id in wanted {
        OneMore(wanted * (stored - todo), wanted * (stored - (todo - {id})), id);
      } else {
        assert wanted * (stored - (todo - {id})) == wanted * (stored - todo);
      }
    }

    static ghost predicate OwnDialers(nodes: map<string, Model.Node>) {
      forall a, b :: a in nodes && b in nodes && nodes[a].dialer == nodes[b].dialer ==> a == b
    }

    /** What the loop over the stored nodes has done to pool, engine and counts with `todo` left. */
    static ghost predicate Settling(before: map<string, Model.Node>, start: Engine, wanted: map<string, Model.NodeSpec>,
                                    todo: set<string>, nodes: map<string, Model.Node>, e: Engine, removed: nat, kept: nat)
    {
      && todo <= before.Keys
      && nodes == HalfSettled(before, wanted, todo)
      && e == CloseAll(start, DroppedSoFar(before, wanted, todo))
      && removed == |RetiredSoFar(before, wanted, todo)|
      && kept == |wanted.Keys * (before.Keys - todo)|
    }

    static lemma SettlingEnds(p: Model.Pool, start: Engine, wanted: map<string, Model.NodeSpec>, built: map<string, nat>,
                              nodes: map<string, Model.Node>, e: Engine, removed: nat, kept: nat)
      requires Settling(p.nodes, start, wanted, {}, nodes, e, removed, kept)
      requires built.Keys == wanted.Keys - p.nodes.Keys
      ensures Model.Replaced(p, wanted, built) == Model.Pool(nodes + NewNodes(wanted, built, {}), Sorted(wanted.Keys))
      ensures e == CloseAll(start, Model.Dropped(p, wanted))
      ensures Model.DiffOf(p, wanted) == Model.Diff(|built.Keys|, removed, kept)
    {
      assert nodes == HalfSettled(p.nodes, wanted, {});
      SettledAndAdded(p, wanted, built);
      AllCounted(p, wanted);
    }

    static lemma AllCounted(p: Model.Pool, wanted: map<string, Model.NodeSpec>)
      ensures RetiredSoFar(p.nodes, wanted, {}) == Model.Live(p) - wanted.Keys
      ensures DroppedSoFar(p.nodes, wanted, {}) == Model.Dropped(p, wanted)
      ensures p.nodes.Keys - {} == p.nodes.Keys
    {
      AllRetired(p, wanted);
      AllDropped(p, wanted);
    }

    static lemma SettledAndAdded(p: Model.Pool, wanted: map<string, Model.NodeSpec>, built: map<string, nat>)
      requires built.Keys == wanted.Keys - p.nodes.Keys
      ensures HalfSettled(p.nodes, wanted, {}) + NewNodes(wanted, built, {}) == Model.Replaced(p, wanted, built).nodes
    {
    }

    static lemma AllRetired(p: Model.Pool, wanted: map<string, Model.NodeSpec>)
      ensures RetiredSoFar(p.nodes, wanted, {}) == Model.Live(p) - wanted.Keys
    {
    }

    static lemma AllDropped(p: Model.Pool, wanted: map<string, Model.NodeSpec>)
      ensures DroppedSoFar(p.nodes, wanted, {}) == Model.Dropped(p, wanted)
    {
    }

    static lemma SettlingStarts(before: map<string, Model.Node>, start: Engine, wanted: map<string, Model.NodeSpec>)
      ensures Settling(before, start, wanted, before.Keys, before, start, 0, 0)
    {
      CloseNone(start);
      assert HalfSettled(before, wanted, before.Keys) == before;
      assert DroppedSoFar(before, wanted, before.Keys) == {};
      assert RetiredSoFar(before, wanted, before.Keys) == {};
      assert wanted.Keys * (before.Keys - before.Keys) == {};
    }

    static lemma SettlingGoesOn(before: map<string, Model.Node>, start: Engine, wanted: map<string, Model.NodeSpec>,
                                todo: set<string>, nodes: map<string, Model.Node>, e: Engine, removed: nat, kept: nat,
                                id: string)
      requires Settling(before, start, wanted, todo, nodes, e, removed, kept) && id in todo && OwnDialers(before)
      ensures id in nodes && nodes[id] == before[id]
      ensures var n := before[id];
        if id in wanted then
          Settling(before, start, wanted, todo - {id}, nodes[id := n.(removed := false, spec := wanted[id])],
                   e, removed, kept + 1)
        else if n.removed then Settling(before, start, wanted, todo - {id}, nodes, e, removed, kept)
        else if n.active == 0 then
          Settling(before, start, wanted, todo - {id}, nodes - {id}, CloseAll(e, {n.dialer}), removed + 1, kept)
        else Settling(before, start, wanted, todo - {id}, nodes[id := n.(removed := true)], e, removed + 1, kept)
    {
      NodesGoOn(before, wanted, todo, id);
      EngineGoesOn(before, start, wanted, todo, id);
      CountsGoOn(before, wanted, todo, id);
    }

    /** Keeps, revives, marks or drops every stored node, in the arbitrary order of a Go map. */
    method Settle(wanted: map<string, Model.NodeSpec>) returns (removed: nat, kept: nat)
      requires Valid() && OwnDialers(nodes)
      modifies this, engine
      ensures order == old(order)
      ensures Settling(old(nodes), old(engine.State()), wanted, {}, nodes, engine.State(), removed, kept)
    {
      ghost var before, start := nodes, engine.State();
      removed, kept := 0, 0;
      var todo := nodes.Keys;
      SettlingStarts(before, start, wanted);
      while todo != {}
        invariant order == old(order)
        invariant forall id :: id in before ==> before[id].dialer < |engine.dialers|
        invariant Settling(before, start, wanted, todo, nodes, engine.State(), removed, kept)
      {
        var id :| id in todo;
        SettlingGoesOn(before, start, wanted, todo, nodes, engine.State(), removed, kept, id);
        var dropped := SettleNode(id, wanted);
        if id in wanted {
          kept := kept + 1;
        } else if dropped {
          removed := removed + 1;
        }
        todo := todo - {id};
      }
    }

    /** The body of the loop over the stored nodes; says whether the node was newly removed. */
    method SettleNode(id: string, wanted: map<string, Model.NodeSpec>) returns (newlyRemoved: bool)
      requires id in nodes && nodes[id].dialer < |engine.dialers|
      modifies this, engine
      ensures order == old(order) && newlyRemoved == (id !in wanted && !old(nodes)[id].removed)
      ensures var n := old(nodes)[id];
        if id in wanted then
          nodes == old(nodes)[id := n.(removed := false, spec := wanted[id])] && engine.State() == old(engine.State())
        else if n.removed then nodes == old(nodes) && engine.State() == old(engine.State())
        else if n.active == 0 then
          nodes == old(nodes) - {id} && engine.State() == CloseAll(old(engine.State()), {n.dialer})
        else nodes == old(nodes)[id := n.(removed := true)] && engine.State() == old(engine.State())
    {
      var state := nodes[id];
      newlyRemoved := false;
      if id in wanted {
        nodes := nodes[id := state.(removed := false, spec := wanted[id])];
      } else if !state.removed {
        newlyRemoved := true;
        nodes := nodes[id := state.(removed := true)];
        if state.active == 0 {
          Drop(id);
          assert nodes == old(nodes) - {id};
        }
      }
    }

    /** Forgets a node and closes its dialer. */
    method Drop(id: string)
      requires id in nodes && nodes[id].dialer < |engine.dialers|
      modifies this`nodes, engine
      ensures nodes == old(nodes) - {id}
      ensures engine.State() == CloseAll(old(engine.State()), {old(nodes)[id].dialer})
    {
      engine.CloseDialer(nodes[id].dialer);
      nodes := nodes - {id};
    }

    static ghost function NewNodes(wanted: map<string, Model.NodeSpec>, built: map<string, nat>, todo: set<string>)
      : map<string, Model.Node>
      requires built.Keys <= wanted.Keys
    {
      map id | id in built && id !in todo :: Model.Node(wanted[id], built[id], false, false, false, 0, false, 0)
    }

    /** What the loop over the built nodes has done with `todo` left. */
    static ghost predicate Adding(before: map<string, Model.Node>, wanted: map<string, Model.NodeSpec>,
                                  built: map<string, nat>, todo: set<string>, nodes: map<string, Model.Node>, added: nat)
    {
      && built.Keys <= wanted.Keys && todo <= built.Keys
      && nodes == before + NewNodes(wanted, built, todo) && added == |built.Keys - todo|
    }

    static lemma AddingStarts(before: map<string, Model.Node>, wanted: map<string, Model.NodeSpec>, built: map<string, nat>)
      requires built.Keys <= wanted.Keys
      ensures Adding(before, wanted, built, built.Keys, before, 0)
    {
      assert NewNodes(wanted, built, built.Keys) == map[];
    }

    static lemma AddingGoesOn(before: map<string, Model.Node>, wanted: map<string, Model.NodeSpec>, built: map<string, nat>,
                              todo: set<string>, nodes: map<string, Model.Node>, added: nat, id: string)
      requires Adding(before, wanted, built, todo, nodes, added) && id in todo
      ensures Adding(before, wanted, built, todo - {id},
                     nodes[id := Model.Node(wanted[id], built[id], false, false, false, 0, false, 0)], added + 1)
    {
      OneMore(built.Keys - todo, built.Keys - (todo - {id}), id);
    }

    method AddBuilt(wanted: map<string, Model.NodeSpec>, built: map<string, nat>) returns (added: nat)
      requires built.Keys <= wanted.Keys
      modifies this
      ensures order == old(order) && nodes == old(nodes) + NewNodes(wanted, built, {}) && added == |built.Keys|
    {
      added := 0;
      var todo := built.Keys;
      AddingStarts(nodes, wanted, built);
      while todo != {}
        invariant order == old(order) && Adding(old(nodes), wanted, built, todo, nodes, added)
      {
        var id :| id in todo;
        AddingGoesOn(old(nodes), wanted, built, todo, nodes, added, id);
        nodes := nodes[id := Model.Node(wanted[id], built[id], false, false, false, 0, false, 0)];
        added := added + 1;
        todo := todo - {id};
      }
      assert built.Keys - {} == built.Keys;
    }

    static lemma ReadyToSettle(p: Model.Pool, e: Engine, specs: seq<Model.NodeSpec>, visited: seq<string>,
                               library: string -> Library)
      requires Owned(p, e) && Model.VisitsMissing(p, specs, visited)
      ensures OwnDialers(p.nodes)
      ensures var b := Model.BuildEach(e, visited, library);
        forall id :: id in p.nodes ==> p.nodes[id].dialer < |b.engine.dialers|
    {
      assert forall id :: id in visited ==> id in Elements(visited);
      BuildEachExtends(p, e, visited, library);
      forall a, b | a in p.nodes && b in p.nodes && p.nodes[a].dialer == p.nodes[b].dialer ensures a == b {
        DialersAreDistinct(p, e, a, b);
      }
    }

    /** The keys of a map, collected in arbitrary order and sorted. */
    static method SortedKeys(keys: set<string>) returns (order: seq<string>)
      ensures order == Sorted(keys)
    {
      var ids := InSomeOrder(keys);
      order := SortStrings(ids);
      EnumerationIsUnique(order, Sorted(keys), keys);
    }

    /** Settles the stored nodes, adds the new ones and lists the wanted IDs in order. */
    method Replace(wanted: map<string, Model.NodeSpec>, built: map<string, nat>) returns (diff: Model.Diff)
      requires Valid() && OwnDialers(nodes) && built.Keys == wanted.Keys - nodes.Keys
      modifies this, engine
      ensures State() == Model.Replaced(old(State()), wanted, built)
      ensures engine.State() == CloseAll(old(engine.State()), Model.Dropped(old(State()), wanted))
      ensures diff == Model.DiffOf(old(State()), wanted)
    {
      ghost var p, e := State(), engine.State();
      var removed, kept := Settle(wanted);
      SettlingEnds(p, e, wanted, built, nodes, engine.State(), removed, kept);
      var added := AddBuilt(wanted, built);
      order := SortedKeys(wanted.Keys);
      diff := Model.Diff(added, removed, kept);
    }

    /** All or nothing: builds what is missing, then settles the stored nodes and adds the new ones.
        `visited` is the order in which the builds were tried. */
    method Apply(specs: seq<Model.NodeSpec>, library: string -> Library)
      returns (diff: Option<Model.Diff>, ghost visited: seq<string>)
      requires Ordered(State()) && Owned(State(), engine.State())
      modifies this, engine
      ensures Model.VisitsMissing(old(State()), specs, visited)
      ensures (State(), engine.State(), diff) == Model.Apply(old(State()), old(engine.State()), specs, visited, library)
      ensures Ordered(State()) && Owned(State(), engine.State())
    {
      ghost var before, e := State(), engine.State();
      var wanted: map<string, Model.NodeSpec> := map[];
      for i := 0 to |specs|
        invariant State() == before && engine.State() == e
        invariant wanted == Model.Wanted(specs[..i]) && !Model.HasEmptyId(specs[..i])
      {
        assert specs[..i + 1][..i] == specs[..i];
        if specs[i].id == "" {
          visited := Sorted(Model.Wanted(specs).Keys - before.nodes.Keys);
          SortedIsDistinct(visited);
          return None, visited;
        }
        wanted := wanted[specs[i].id := specs[i]];
      }
      assert specs[..|specs|] == specs;
      var built, ok;
      built, ok, visited := BuildMissing(wanted, library);
      ApplyKeepsOwners(before, e, specs, visited, library);
      if !ok {
        return None, visited;
      }
      ReadyToSettle(before, e, specs, visited, library);
      var counts := Replace(wanted, built);
      diff := Some(counts);
    }

    method MarkFailure(id: string, hasCause: bool, now: nat) returns (transitioned: bool)
      requires Valid()
      modifies this
      ensures Valid() && State() == Model.MarkFailure(old(State()), id, hasCause, now + probeInterval)
      ensures transitioned <==> id in old(nodes) && (old(nodes)[id].healthy || !old(nodes)[id].failed)
    {
      if id !in nodes {
        return false;
      }
      var state := nodes[id];
      transitioned := state.healthy || !state.failed;
      state := state.(healthy := false, nextProbe := now + probeInterval);
      if hasCause {
        state := state.(failed := true);
      }
      nodes := nodes[id := state];
    }

    method MarkSuccess(id: string, now: nat) returns (transitioned: bool)
      requires Valid()
      modifies this
      ensures Valid() && State() == Model.MarkSuccess(old(State()), id, now + probeInterval)
      ensures transitioned <==> id in old(nodes) && !old(nodes)[id].removed && !old(nodes)[id].healthy
    {
      if id !in nodes || nodes[id].removed {
        return false;
      }
      var state := nodes[id];
      transitioned := !state.healthy;
      state := state.(healthy := true, failed := false, nextProbe := now + probeInterval);
      nodes := nodes[id := state];
    }

    method RoutingSnapshot() returns (result: seq<Candidate>)
      ensures result == Model.RoutingSnapshot(State())
    {
      var healthyCount := 0;
      for i := 0 to |order|
        invariant healthyCount >= 0
        invariant healthyCount > 0 <==> Model.AnyHealthy(State(), order[..i])
      {
        assert order[..i + 1] == order[..i] + [order[i]];
        if order[i] in nodes && !nodes[order[i]].removed && nodes[order[i]].healthy {
          assert order[..i + 1][i] == order[i];
          healthyCount := healthyCount + 1;
        } else if Model.AnyHealthy(State(), order[..i]) {
          KeepsWitness(State(), order[..i], order[i]);
        }
      }
      assert order[..|order|] == order;
      result := [];
      for i := 0 to |order|
        invariant result == Model.Listing(State(), order[..i], healthyCount == 0)
      {
        assert order[..i + 1][..i] == order[..i];
        if order[i] in nodes && !nodes[order[i]].removed {
          var state := nodes[order[i]];
          var candidate := Candidate(order[i], state.healthy, false);
          if healthyCount == 0 && !state.probing {
            candidate := candidate.(eligible := true, halfOpen := true);
          }
          result := result + [candidate];
        }
      }
    }

    static lemma KeepsWitness(p: Model.Pool, ids: seq<string>, id: string)
      requires Model.AnyHealthy(p, ids)
      ensures Model.AnyHealthy(p, ids + [id])
    {
      var i :| 0 <= i < |ids| && ids[i] in p.nodes && !p.nodes[ids[i]].removed && p.nodes[ids[i]].healthy;
      assert (ids + [id])[i] == ids[i];
    }

    method Acquire(id: string, allowUnhealthy: bool) returns (lease: NodeLease?)
      requires Valid()
      modifies this
      ensures Valid()
      ensures var (p, taken) := Model.Acquire(old(State()), id, allowUnhealthy);
        && State() == p && (lease != null <==> taken.Some?)
        && (lease != null ==> fresh(lease) && lease.Open(this, taken.value))
    {
      if id !in nodes || nodes[id].removed {
        return null;
      }
      var state := nodes[id];
      var halfOpen := !state.healthy;
      if halfOpen && !allowUnhealthy {
        return null;
      }
      if halfOpen {
        if state.probing {
          return null;
        }
        state := state.(probing := true);
      }
      state := state.(active := state.active + 1);
      nodes := nodes[id := state];
      lease := new NodeLease(this, id, state.dialer, halfOpen);
    }

    method ProbeDue(now: nat) returns (leases: seq<NodeLease>)
      requires Valid()
      modifies this
      ensures Valid()
      ensures var (p, taken) := Model.ProbeDue(old(State()), now); State() == p && AreLeases(leases, taken)
      ensures forall lease :: lease in leases ==> fresh(lease)
    {
      leases := [];
      ghost var taken: seq<Model.Lease> := [];
      for i := 0 to |order|
        invariant order == old(order) && Valid()
        invariant (State(), taken) == Model.TakeDueAmong(old(State()), order[..i], now)
        invariant AreLeases(leases, taken)
        invariant forall lease :: lease in leases ==> fresh(lease)
      {
        var id := order[i];
        assert order[..i + 1][..i] == order[..i];
        if id in nodes && !nodes[id].removed && !nodes[id].probing && nodes[id].nextProbe <= now {
          var state := nodes[id];
          state := state.(probing := true, active := state.active + 1);
          nodes := nodes[id := state];
          var lease := new NodeLease(this, id, state.dialer, true);
          leases := leases + [lease];
          taken := taken + [lease.Data()];
        }
      }
      assert order[..|order|] == order;
    }

    ghost predicate AreLeases(leases: seq<NodeLease>, taken: seq<Model.Lease>)
      reads leases
    {
      |leases| == |taken| && forall i :: 0 <= i < |leases| ==> leases[i].Open(this, taken[i])
    }

    method Release(id: string, gated: bool)
      requires Valid()
      modifies this, engine
      ensures Valid()
      ensures var (p, closing) := Model.Release(old(State()), id, gated);
        State() == p && engine.State() == CloseAll(old(engine.State()), closing)
    {
      CloseNone(engine.State());
      if id !in nodes {
        return;
      }
      var state := nodes[id];
      if state.active > 0 {
        state := state.(active := state.active - 1);
      }
      if gated {
        state := state.(probing := false);
      }
      if state.removed && state.active == 0 {
        assert Model.Release(State(), id, gated) == (Model.Pool(nodes - {id}, order), {state.dialer});
        Drop(id);
      } else {
        assert Model.Release(State(), id, gated) == (Model.Pool(nodes[id := state], order), {});
        nodes := nodes[id := state];
      }
    }
  }

  class NodeLease {
    const registry: Registry
    const id: string
    const dialer: nat
    const gated: bool
    var closed: bool

    constructor (registry: Registry, id: string, dialer: nat, gated: bool)
      ensures this.registry == registry && Data() == Model.Lease(id, dialer, gated) && !closed
    {
      this.registry, this.id, this.dialer, this.gated, closed := registry, id, dialer, gated, false;
    }

    ghost function Data(): Model.Lease {
      Model.Lease(id, dialer, gated)
    }

    ghost predicate Open(registry: Registry, lease: Model.Lease)
      reads this
    {
      this.registry == registry && !closed && Data() == lease
    }

    /** The first Close releases the lease; later ones do nothing. */
    method Close()
      requires registry.Valid()
      modifies this, registry, registry.engine
      ensures closed && registry.Valid()
      ensures var before, engine := old(registry.State()), old(registry.engine.State());
        if old(closed) then registry.State() == before && registry.engine.State() == engine
        else
          var (p, closing) := Model.Release(before, id, gated);
          registry.State() == p && registry.engine.State() == CloseAll(engine, closing)
    {
      if closed {
        return;
      }
      closed := true;
      registry.Release(id, gated);
    }
  }
}
