/** Apply as a transaction over the registry and the engine: all of it takes effect or none,
    and either way leases, gates and dialers stay accounted for (internal/pool/registry.go). */
module ApplyTransaction {
  import opened Options
  import opened Ordering
  import opened EngineModel
  import opened RegistryModel
  import opened LeaseAccounting

  /** What a batch of builds has added to the engine it started from. */
  ghost predicate Extends(e: Engine, b: Batch) {
    && b.engine.shut == e.shut
    && ExtendsDialers(e.dialers, b.engine.dialers, b.built)
    && ExtendsTags(e.builtBy, b.engine.builtBy, b.built)
  }

  ghost predicate ExtendsDialers(before: seq<Dialer>, after: seq<Dialer>, built: map<string, nat>) {
    && before <= after
    && (forall id :: id in built ==> |before| <= built[id] < |after| && after[built[id]] == Dialer(Tag(id), 0))
    && (forall d :: |before| <= d < |after| ==> IsBuilt(built, d))
  }

  ghost predicate ExtendsTags(before: map<string, string>, after: map<string, string>, built: map<string, nat>) {
    && (forall tag :: tag in after ==>
          if tag in before then after[tag] == before[tag] else after[tag] in built && tag == Tag(after[tag]))
    && (forall tag :: tag in before ==> tag in after)
    && (forall id :: id in built ==> Tag(id) in after && after[Tag(id)] == id && Tag(id) !in before)
  }

  ghost predicate IsBuilt(built: map<string, nat>, d: nat) {
    exists id :: id in built && built[id] == d
  }

  lemma OneMoreBuilt(built: map<string, nat>, id: string, d: nat, other: nat)
    requires id !in built
    ensures IsBuilt(built, other) || other == d ==> IsBuilt(built[id := d], other)
  {
    if IsBuilt(built, other) {
      var k :| k in built && built[k] == other;
      assert k in built[id := d];
    } else {
      assert built[id := d][id] == d;
    }
  }

  /** Building nodes the registry does not store never meets an existing tag, and adds one fresh
      open dialer per node. */
  lemma {:induction false} BuildEachExtends(p: Pool, e: Engine, ids: seq<string>, library: string -> Library)
    requires Owned(p, e) && Distinct(ids) && forall id :: id in ids ==> id !in p.nodes
    ensures Extends(e, BuildEach(e, ids, library))
    ensures BuildEach(e, ids, library).refusal != Some(AlreadyExists)
    ensures e.shut && ids != [] ==> BuildEach(e, ids, library).refusal == Some(EngineClosed)
    decreases |ids|
  {
    if ids != [] {
      var n := |ids| - 1;
      BuildEachExtends(p, e, ids[..n], library);
      assert ids[n] !in Elements(ids[..n]);
      LastBuildExtends(p, e, ids, library);
    }
  }

  lemma LastBuildExtends(p: Pool, e: Engine, ids: seq<string>, library: string -> Library)
    requires ids != [] && Owned(p, e) && ids[|ids| - 1] !in p.nodes && ids[|ids| - 1] !in Elements(ids[..|ids| - 1])
    requires Extends(e, BuildEach(e, ids[..|ids| - 1], library))
    requires BuildEach(e, ids[..|ids| - 1], library).refusal != Some(AlreadyExists)
    requires e.shut && |ids| > 1 ==> BuildEach(e, ids[..|ids| - 1], library).refusal == Some(EngineClosed)
    ensures Extends(e, BuildEach(e, ids, library))
    ensures BuildEach(e, ids, library).refusal != Some(AlreadyExists)
    ensures e.shut ==> BuildEach(e, ids, library).refusal == Some(EngineClosed)
  {
    var n := |ids| - 1;
    var b := BuildEach(e, ids[..n], library);
    if b.refusal.None? && !e.shut {
      TagIsNew(p, e, b, ids[n]);
      BuildOne(e, b, ids[n], library(ids[n]));
    }
  }

  lemma TagIsNew(p: Pool, e: Engine, b: Batch, id: string)
    requires Owned(p, e) && !e.shut && Extends(e, b) && id !in p.nodes && id !in b.built
    ensures Tag(id) !in b.engine.builtBy
  {
    if Tag(id) in b.engine.builtBy {
      TagIsInjective(id, b.engine.builtBy[Tag(id)]);
    }
  }

  lemma BuildOne(e: Engine, b: Batch, id: string, library: Library)
    requires Extends(e, b) && id !in b.built && Tag(id) !in b.engine.builtBy && !e.shut
    ensures var (e', result) := Build(b.engine, id, library);
      && result != AlreadyExists && result != EngineClosed
      && Extends(e, if result.Built? then Batch(e', b.built[id := result.dialer], None)
                    else Batch(e', b.built, Some(result)))
  {
    if Build(b.engine, id, library).1.Built? {
      OneMoreDialer(e.dialers, b.engine.dialers, b.built, id);
      OneMoreTag(e.builtBy, b.engine.builtBy, b.built, id, |b.engine.dialers|);
    }
  }

  lemma OneMoreDialer(before: seq<Dialer>, after: seq<Dialer>, built: map<string, nat>, id: string)
    requires ExtendsDialers(before, after, built) && id !in built
    ensures ExtendsDialers(before, after + [Dialer(Tag(id), 0)], built[id := |after|])
  {
    var more := built[id := |after|];
    forall d | |before| <= d <= |after| ensures IsBuilt(more, d) {
      OneMoreBuilt(built, id, |after|, d);
    }
  }

  lemma OneMoreTag(before: map<string, string>, after: map<string, string>, built: map<string, nat>, id: string, d: nat)
    requires ExtendsTags(before, after, built) && id !in built && Tag(id) !in after
    ensures ExtendsTags(before, after[Tag(id) := id], built[id := d])
  {
    forall other | other in built ensures Tag(other) != Tag(id) {
      if Tag(other) == Tag(id) { TagIsInjective(other, id); }
    }
  }

  /** A refused Apply closes every dialer it built and leaves all else alone. */
  lemma RefusedApplyRollsBack(p: Pool, e: Engine, b: Batch)
    requires Owned(p, e) && Extends(e, b)
    ensures var e' := CloseAll(b.engine, DialersOf(b.built));
      && Owned(p, e') && e'.builtBy == (if e.shut then b.engine.builtBy else e.builtBy)
      && e'.dialers[..|e.dialers|] == e.dialers
      && (forall d :: |e.dialers| <= d < |e'.dialers| ==> e'.dialers[d].closes == 1)
  {
    var ds := DialersOf(b.built);
    var e' := CloseAll(b.engine, ds);
    forall d | |e.dialers| <= d < |b.engine.dialers|
      ensures d in ds && b.engine.dialers[d].closes == 0 && e'.dialers[d].closes == 1
    {
      assert IsBuilt(b.built, d);
      var id :| id in b.built && b.built[id] == d;
      assert b.engine.dialers[d] == Dialer(Tag(id), 0);
    }
    assert forall d :: d in ds ==> d >= |e.dialers|;
    assert e'.dialers[..|e.dialers|] == e.dialers;
    if !e.shut {
      RolledBackTags(e, b, e');
    }
  }

  lemma RolledBackTags(e: Engine, b: Batch, e': Engine)
    requires Extends(e, b) && !e.shut && e' == CloseAll(b.engine, DialersOf(b.built))
    ensures e'.builtBy == e.builtBy
  {
    var ds := DialersOf(b.built);
    var freed := set d | d in ds && d < |b.engine.dialers| && b.engine.dialers[d].closes == 0 :: b.engine.dialers[d].tag;
    assert e'.builtBy == b.engine.builtBy - freed;
    forall id | id in b.built ensures Tag(id) in freed {
      assert b.built[id] in ds;
    }
    forall tag | tag in freed ensures tag !in e.builtBy {
      var d :| d in ds && b.engine.dialers[d].tag == tag;
      var id :| id in b.built && b.built[id] == d;
    }
  }

  lemma DialersAreDistinct(p: Pool, e: Engine, a: string, b: string)
    requires Owned(p, e) && a in p.nodes && b in p.nodes && p.nodes[a].dialer == p.nodes[b].dialer
    ensures a == b
  {
    TagIsInjective(a, b);
  }

  /** An Apply closes a stored node's dialer exactly when it drops the node. */
  lemma DroppedIsNotStaying(p: Pool, e: Engine, wanted: map<string, NodeSpec>, id: string)
    requires Owned(p, e) && id in p.nodes
    ensures p.nodes[id].dialer in Dropped(p, wanted) <==> !Stays(p.nodes[id], id in wanted)
  {
    if p.nodes[id].dialer in Dropped(p, wanted) {
      var other :| other in p.nodes && !Stays(p.nodes[other], other in wanted)
                   && p.nodes[other].dialer == p.nodes[id].dialer;
      DialersAreDistinct(p, e, id, other);
    }
  }

  ghost predicate Completes(p: Pool, e: Engine, wanted: map<string, NodeSpec>, b: Batch) {
    Owned(p, e) && Extends(e, b) && b.built.Keys == wanted.Keys - p.nodes.Keys
  }

  lemma AppliedNodesOwn(p: Pool, e: Engine, wanted: map<string, NodeSpec>, b: Batch, id: string)
    requires Completes(p, e, wanted, b)
    requires id in Replaced(p, wanted, b.built).nodes
    ensures var e' := CloseAll(b.engine, Dropped(p, wanted));
      var d := Replaced(p, wanted, b.built).nodes[id].dialer;
      d < |e'.dialers| && e'.dialers[d] == Dialer(Tag(id), 0)
  {
    if id in b.built {
      assert b.built[id] !in Dropped(p, wanted);
    } else {
      DroppedIsNotStaying(p, e, wanted, id);
      assert b.engine.dialers[p.nodes[id].dialer] == e.dialers[p.nodes[id].dialer];
    }
  }

  lemma AppliedDialersHaveOwners(p: Pool, e: Engine, wanted: map<string, NodeSpec>, b: Batch, d: nat)
    requires Completes(p, e, wanted, b) && d < |b.engine.dialers|
    ensures var e' := CloseAll(b.engine, Dropped(p, wanted));
      && e'.dialers[d].closes <= 1
      && (e'.dialers[d].closes == 0 ==> HasOwner(Replaced(p, wanted, b.built), d))
  {
    var p' := Replaced(p, wanted, b.built);
    var e' := CloseAll(b.engine, Dropped(p, wanted));
    if d >= |e.dialers| {
      assert IsBuilt(b.built, d);
      var id :| id in b.built && b.built[id] == d;
      assert p'.nodes[id].dialer == d;
    } else if e.dialers[d].closes == 0 {
      assert b.engine.dialers[d] == e.dialers[d];
      assert HasOwner(p, d);
      var id :| id in p.nodes && p.nodes[id].dialer == d;
      DroppedIsNotStaying(p, e, wanted, id);
      if d !in Dropped(p, wanted) {
        assert id in p'.nodes && p'.nodes[id].dialer == d;
      }
    } else {
      assert b.engine.dialers[d] == e.dialers[d];
      assert forall id :: id in p.nodes ==> p.nodes[id].dialer != d;
    }
  }

  ghost function FreedTags(p: Pool, wanted: map<string, NodeSpec>): set<string> {
    set id | id in p.nodes && !Stays(p.nodes[id], id in wanted) :: Tag(id)
  }

  lemma AppliedTagsFreed(p: Pool, e: Engine, wanted: map<string, NodeSpec>, b: Batch)
    requires Completes(p, e, wanted, b) && !e.shut
    ensures CloseAll(b.engine, Dropped(p, wanted)).builtBy == b.engine.builtBy - FreedTags(p, wanted)
  {
    var ds := Dropped(p, wanted);
    var freed := set d | d in ds && d < |b.engine.dialers| && b.engine.dialers[d].closes == 0 :: b.engine.dialers[d].tag;
    forall tag | tag in FreedTags(p, wanted) ensures tag in freed {
      var id :| id in p.nodes && !Stays(p.nodes[id], id in wanted) && Tag(id) == tag;
      var d := p.nodes[id].dialer;
      assert d in ds && b.engine.dialers[d] == e.dialers[d];
    }
    forall tag | tag in freed ensures tag in FreedTags(p, wanted) {
      var d :| d in ds && d < |b.engine.dialers| && b.engine.dialers[d].tag == tag;
      var id :| id in p.nodes && !Stays(p.nodes[id], id in wanted) && p.nodes[id].dialer == d;
      assert b.engine.dialers[d] == e.dialers[d];
    }
    assert freed == FreedTags(p, wanted);
  }

  lemma AppliedTagsMatch(p: Pool, e: Engine, wanted: map<string, NodeSpec>, b: Batch)
    requires Completes(p, e, wanted, b) && !e.shut
    ensures TagsMatch(Replaced(p, wanted, b.built), CloseAll(b.engine, Dropped(p, wanted)).builtBy)
  {
    AppliedTagsFreed(p, e, wanted, b);
    var p' := Replaced(p, wanted, b.built);
    var builtBy := CloseAll(b.engine, Dropped(p, wanted)).builtBy;
    forall id | id in p'.nodes ensures Tag(id) in builtBy && builtBy[Tag(id)] == id {
      forall other | other in p.nodes && !Stays(p.nodes[other], other in wanted) ensures Tag(other) != Tag(id) {
        if Tag(other) == Tag(id) { TagIsInjective(other, id); }
      }
    }
    forall tag | tag in builtBy ensures builtBy[tag] in p'.nodes && tag == Tag(builtBy[tag]) {
      var id := b.engine.builtBy[tag];
      assert id in p.nodes && !Stays(p.nodes[id], id in wanted) ==> Tag(id) in FreedTags(p, wanted);
    }
  }

  lemma AppliedIsOrdered(p: Pool, wanted: map<string, NodeSpec>, built: map<string, nat>)
    requires built.Keys == wanted.Keys - p.nodes.Keys
    ensures Live(Replaced(p, wanted, built)) == wanted.Keys && Ordered(Replaced(p, wanted, built))
  {
    assert Live(Replaced(p, wanted, built)) == wanted.Keys;
  }

  lemma AppliedIsAccounted(w: World, wanted: map<string, NodeSpec>, built: map<string, nat>)
    requires WorldInv(w) && built.Keys == wanted.Keys - w.pool.nodes.Keys
    ensures Accounted(Replaced(w.pool, wanted, built), w.open)
  {
    var p' := Replaced(w.pool, wanted, built);
    forall l | l in w.open ensures l.id in p'.nodes && l.dialer == p'.nodes[l.id].dialer {
      ReleaseGuardsHold(w, l);
    }
    forall id | id in p'.nodes ensures Balanced(p', w.open, id) {
      if id in built {
        assert forall l :: l in w.open ==> l.id != id;
        assert Gated(p', id) !in w.open && Plain(p', id) !in w.open;
      } else {
        assert Balanced(w.pool, w.open, id);
      }
    }
  }

  lemma ApplyKeepsOwners(p: Pool, e: Engine, specs: seq<NodeSpec>, order: seq<string>, library: string -> Library)
    requires Ordered(p) && Owned(p, e) && VisitsMissing(p, specs, order)
    ensures var (p', e', _) := Apply(p, e, specs, order, library); Ordered(p') && Owned(p', e')
  {
    if !HasEmptyId(specs) {
      var wanted := Wanted(specs);
      var b := BuildEach(e, order, library);
      assert forall id :: id in order ==> id in Elements(order);
      BuildEachExtends(p, e, order, library);
      if b.refusal.Some? {
        RefusedApplyRollsBack(p, e, b);
      } else {
        var e' := CloseAll(b.engine, Dropped(p, wanted));
        var p' := Replaced(p, wanted, b.built);
        forall id | id in p'.nodes
          ensures p'.nodes[id].dialer < |e'.dialers| && e'.dialers[p'.nodes[id].dialer] == Dialer(Tag(id), 0)
        {
          AppliedNodesOwn(p, e, wanted, b, id);
        }
        forall d | 0 <= d < |e'.dialers|
          ensures e'.dialers[d].closes <= 1 && (e'.dialers[d].closes == 0 ==> HasOwner(p', d))
        {
          AppliedDialersHaveOwners(p, e, wanted, b, d);
        }
        if !e.shut {
          AppliedTagsMatch(p, e, wanted, b);
        }
        AppliedIsOrdered(p, wanted, b.built);
      }
    }
  }

  lemma ApplyKeepsInv(w: World, specs: seq<NodeSpec>, order: seq<string>, library: string -> Library)
    requires WorldInv(w) && VisitsMissing(w.pool, specs, order)
    ensures WorldInv(Act(w, Reload(specs, order, library)))
  {
    ApplyKeepsOwners(w.pool, w.engine, specs, order, library);
    var b := BuildEach(w.engine, order, library);
    if !HasEmptyId(specs) && b.refusal.None? {
      AppliedIsAccounted(w, Wanted(specs), b.built);
    }
  }

  // ----- what a caller sees -----

  ghost predicate LastListed(specs: seq<NodeSpec>, i: nat) {
    i < |specs| && forall j :: i < j < |specs| ==> specs[j].id != specs[i].id
  }

  /** The wanted map holds exactly the listed IDs, each with the last spec listed under it. */
  lemma {:induction false} WantedIsLastListed(specs: seq<NodeSpec>)
    ensures forall i :: 0 <= i < |specs| ==> specs[i].id in Wanted(specs)
    ensures forall id :: id in Wanted(specs) ==> Wanted(specs)[id] in specs && Wanted(specs)[id].id == id
    ensures forall i: nat :: LastListed(specs, i) ==> Wanted(specs)[specs[i].id] == specs[i]
  {
    if specs != [] {
      var n := |specs| - 1;
      var before := specs[..n];
      WantedIsLastListed(before);
      assert specs == before + [specs[n]];
      forall i: nat | LastListed(specs, i) ensures Wanted(specs)[specs[i].id] == specs[i] {
        if i < n {
          assert before[i] == specs[i] && LastListed(before, i);
        }
      }
    }
  }

  /** Which builds are accepted: all of them, unless the engine is shut or the library refuses one. */
  lemma {:induction false} BatchSucceedsIff(p: Pool, e: Engine, ids: seq<string>, library: string -> Library)
    requires Owned(p, e) && Distinct(ids) && forall id :: id in ids ==> id !in p.nodes
    ensures BuildEach(e, ids, library).refusal.None?
            <==> (e.shut ==> ids == []) && forall id :: id in ids ==> library(id).usable && library(id).creates
    decreases |ids|
  {
    if ids != [] && e.shut {
      BuildEachExtends(p, e, ids, library);
    } else if ids != [] {
      var n := |ids| - 1;
      BatchSucceedsIff(p, e, ids[..n], library);
      LastBuildSucceedsIff(p, e, ids, library);
      AcceptedGoesOn(ids, library);
    }
  }

  lemma AcceptedGoesOn(ids: seq<string>, library: string -> Library)
    requires ids != []
    ensures var n := |ids| - 1;
      (forall id :: id in ids ==> library(id).usable && library(id).creates)
      <==> (forall id :: id in ids[..n] ==> library(id).usable && library(id).creates)
           && library(ids[n]).usable && library(ids[n]).creates
  {
    assert ids == ids[..|ids| - 1] + [ids[|ids| - 1]];
  }

  lemma LastBuildSucceedsIff(p: Pool, e: Engine, ids: seq<string>, library: string -> Library)
    requires Owned(p, e) && Distinct(ids) && ids != [] && !e.shut && forall id :: id in ids ==> id !in p.nodes
    ensures var n := |ids| - 1;
      BuildEach(e, ids, library).refusal.None?
      <==> BuildEach(e, ids[..n], library).refusal.None? && library(ids[n]).usable && library(ids[n]).creates
  {
    var n := |ids| - 1;
    var b := BuildEach(e, ids[..n], library);
    assert ids[n] !in Elements(ids[..n]);
    BuildEachExtends(p, e, ids[..n], library);
    if b.refusal.None? {
      TagIsNew(p, e, b, ids[n]);
    }
  }

  /** Apply fails exactly for an empty ID, a shut engine with something to build, or a node the
      library refuses. Then the pool is untouched and everything built in the call is closed.
      Otherwise the live nodes are the wanted ones, kept and revived nodes change only their spec
      and lose the removal mark, new ones start quarantined, the others stay, marked as removed, as
      long as they have leases, and the counts add up. */
  lemma ApplyIsATransaction(w: World, specs: seq<NodeSpec>, order: seq<string>, library: string -> Library)
    requires WorldInv(w) && VisitsMissing(w.pool, specs, order)
    ensures forall id :: id in order <==> id in Wanted(specs) && id !in w.pool.nodes
    ensures var (p, e, diff) := Apply(w.pool, w.engine, specs, order, library);
      var wanted := Wanted(specs);
      && (diff.Some? <==> && (forall i :: 0 <= i < |specs| ==> specs[i].id != "") && (w.engine.shut ==> order == [])
                          && forall id :: id in order ==> library(id).usable && library(id).creates)
      && (diff.None? ==>
            && p == w.pool && |w.engine.dialers| <= |e.dialers| && e.dialers[..|w.engine.dialers|] == w.engine.dialers
            && (forall d :: |w.engine.dialers| <= d < |e.dialers| ==> e.dialers[d].closes == 1)
            && (!w.engine.shut ==> e.builtBy == w.engine.builtBy))
      && (diff.Some? ==>
            && (forall id :: id in p.nodes && !p.nodes[id].removed <==> id in wanted)
            && StrictlySorted(p.order) && (forall id :: id in p.order <==> id in wanted)
            && (forall id :: id in wanted && id in w.pool.nodes ==>
                  p.nodes[id] == w.pool.nodes[id].(removed := false, spec := wanted[id]))
            && (forall id :: id in wanted && id !in w.pool.nodes ==>
                  p.nodes[id] == Node(wanted[id], p.nodes[id].dialer, false, false, false, 0, false, 0))
            && (forall id :: id !in wanted ==>
                  && (id in p.nodes <==> id in w.pool.nodes && w.pool.nodes[id].active > 0)
                  && (id in p.nodes ==> p.nodes[id] == w.pool.nodes[id].(removed := true)))
            && diff.value.added == |wanted.Keys - w.pool.nodes.Keys| && diff.value.kept == |wanted.Keys * w.pool.nodes.Keys|
            && diff.value.added + diff.value.kept == |wanted.Keys|
            && diff.value.removed == |set id | id in w.pool.nodes && !w.pool.nodes[id].removed && id !in wanted|)
  {
    ApplySucceedsIff(w, specs, order, library);
    if Apply(w.pool, w.engine, specs, order, library).2.Some? {
      AppliedPool(w, Wanted(specs), BuildEach(w.engine, order, library).built);
      AppliedCounts(w.pool, Wanted(specs));
    } else {
      FailedApplyRollsBack(w, specs, order, library);
    }
  }

  lemma ApplySucceedsIff(w: World, specs: seq<NodeSpec>, order: seq<string>, library: string -> Library)
    requires WorldInv(w) && VisitsMissing(w.pool, specs, order)
    ensures forall id :: id in order <==> id in Wanted(specs) && id !in w.pool.nodes
    ensures Apply(w.pool, w.engine, specs, order, library).2.Some?
            <==> && (forall i :: 0 <= i < |specs| ==> specs[i].id != "") && (w.engine.shut ==> order == [])
                 && forall id :: id in order ==> library(id).usable && library(id).creates
  {
    assert forall id :: id in order <==> id in Elements(order);
    BatchSucceedsIff(w.pool, w.engine, order, library);
  }

  /** Either the live nodes become the wanted ones, or the pool stays as it was. */
  lemma ApplySetsLive(w: World, specs: seq<NodeSpec>, order: seq<string>, library: string -> Library)
    requires WorldInv(w) && VisitsMissing(w.pool, specs, order)
    ensures var (p, _, diff) := Apply(w.pool, w.engine, specs, order, library);
      if diff.Some? then Live(p) == Wanted(specs).Keys else p == w.pool
  {
    if Apply(w.pool, w.engine, specs, order, library).2.Some? {
      AppliedIsOrdered(w.pool, Wanted(specs), BuildEach(w.engine, order, library).built);
    }
  }

  lemma FailedApplyRollsBack(w: World, specs: seq<NodeSpec>, order: seq<string>, library: string -> Library)
    requires WorldInv(w) && VisitsMissing(w.pool, specs, order)
    requires Apply(w.pool, w.engine, specs, order, library).2.None?
    ensures var (p, e, _) := Apply(w.pool, w.engine, specs, order, library);
      && p == w.pool && |w.engine.dialers| <= |e.dialers| && e.dialers[..|w.engine.dialers|] == w.engine.dialers
      && (forall d :: |w.engine.dialers| <= d < |e.dialers| ==> e.dialers[d].closes == 1)
      && (!w.engine.shut ==> e.builtBy == w.engine.builtBy)
  {
    if !HasEmptyId(specs) {
      assert forall id :: id in order <==> id in Elements(order);
      BuildEachExtends(w.pool, w.engine, order, library);
      RefusedApplyRollsBack(w.pool, w.engine, BuildEach(w.engine, order, library));
    }
  }

  lemma AppliedPool(w: World, wanted: map<string, NodeSpec>, built: map<string, nat>)
    requires WorldInv(w) && built.Keys == wanted.Keys - w.pool.nodes.Keys
    ensures var p := Replaced(w.pool, wanted, built);
      && (forall id :: id in p.nodes && !p.nodes[id].removed <==> id in wanted)
      && StrictlySorted(p.order) && (forall id :: id in p.order <==> id in wanted)
      && (forall id :: id in wanted && id in w.pool.nodes ==>
            p.nodes[id] == w.pool.nodes[id].(removed := false, spec := wanted[id]))
      && (forall id :: id in wanted && id !in w.pool.nodes ==>
            p.nodes[id] == Node(wanted[id], p.nodes[id].dialer, false, false, false, 0, false, 0))
      && (forall id :: id !in wanted ==>
            && (id in p.nodes <==> id in w.pool.nodes && w.pool.nodes[id].active > 0)
            && (id in p.nodes ==> p.nodes[id] == w.pool.nodes[id].(removed := true)))
  {
    UnwantedStayWhileLeased(w, wanted, built);
    AppliedOrder(w.pool, wanted, built);
  }

  lemma AppliedCounts(p: Pool, wanted: map<string, NodeSpec>)
    ensures var diff := DiffOf(p, wanted);
      && diff.added == |wanted.Keys - p.nodes.Keys| && diff.kept == |wanted.Keys * p.nodes.Keys|
      && diff.added + diff.kept == |wanted.Keys|
      && diff.removed == |set id | id in p.nodes && !p.nodes[id].removed && id !in wanted|
  {
    SplitCount(wanted.Keys, p.nodes.Keys);
    assert Live(p) - wanted.Keys == set id | id in p.nodes && !p.nodes[id].removed && id !in wanted;
  }

  lemma AppliedOrder(p: Pool, wanted: map<string, NodeSpec>, built: map<string, nat>)
    requires Ordered(p) && built.Keys == wanted.Keys - p.nodes.Keys
    ensures var q := Replaced(p, wanted, built);
      && (forall id :: id in q.nodes && !q.nodes[id].removed <==> id in wanted)
      && StrictlySorted(q.order) && (forall id :: id in q.order <==> id in wanted)
  {
    AppliedIsOrdered(p, wanted, built);
    var q := Replaced(p, wanted, built);
    assert forall id :: id in q.order <==> id in Elements(q.order);
  }

  lemma UnwantedStayWhileLeased(w: World, wanted: map<string, NodeSpec>, built: map<string, nat>)
    requires WorldInv(w) && built.Keys == wanted.Keys - w.pool.nodes.Keys
    ensures var p := Replaced(w.pool, wanted, built);
      forall id :: id !in wanted ==>
        && (id in p.nodes <==> id in w.pool.nodes && w.pool.nodes[id].active > 0)
        && (id in p.nodes ==> p.nodes[id] == w.pool.nodes[id].(removed := true))
  {
    forall id | id in w.pool.nodes && id !in wanted ensures Stays(w.pool.nodes[id], false) <==> w.pool.nodes[id].active > 0 {
      assert Balanced(w.pool, w.open, id);
    }
  }

  /** After a successful Apply every stored node has an open dialer under its own tag, those of kept
      nodes are the old ones, and the dialers of the nodes that went are closed. */
  lemma ApplySettlesDialers(w: World, specs: seq<NodeSpec>, order: seq<string>, library: string -> Library)
    requires WorldInv(w) && VisitsMissing(w.pool, specs, order)
    requires Apply(w.pool, w.engine, specs, order, library).2.Some?
    ensures var (p, e, _) := Apply(w.pool, w.engine, specs, order, library);
      && e.shut == w.engine.shut && |w.engine.dialers| <= |e.dialers|
      && (forall id :: id in p.nodes ==>
            p.nodes[id].dialer < |e.dialers| && e.dialers[p.nodes[id].dialer] == Dialer("node-" + id, 0))
      && (forall id :: id in p.nodes && id in w.pool.nodes ==> p.nodes[id].dialer == w.pool.nodes[id].dialer)
      && (forall id :: id in w.pool.nodes && id !in p.nodes ==> e.dialers[w.pool.nodes[id].dialer].closes == 1)
  {
    ApplyKeepsOwners(w.pool, w.engine, specs, order, library);
    assert forall id :: id in order <==> id in Elements(order);
    BuildEachExtends(w.pool, w.engine, order, library);
    var wanted := Wanted(specs);
    var b := BuildEach(w.engine, order, library);
    forall id | id in w.pool.nodes && !Stays(w.pool.nodes[id], id in wanted)
      ensures CloseAll(b.engine, Dropped(w.pool, wanted)).dialers[w.pool.nodes[id].dialer].closes == 1
    {
      assert b.engine.dialers[w.pool.nodes[id].dialer] == w.engine.dialers[w.pool.nodes[id].dialer];
      assert w.pool.nodes[id].dialer in Dropped(w.pool, wanted);
    }
  }

  lemma SplitCount(a: set<string>, b: set<string>)
    ensures |a - b| + |a * b| == |a|
  {
    assert a == (a - b) + (a * b);
  }
}
