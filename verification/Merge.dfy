/** Merging the nodes of several sources into one list (mergeSources of
    internal/subscription/manager.go). */
module Merge {
  import opened Ordering
  import opened RegistryModel

  type Sources = map<string, seq<NodeSpec>>

  ghost predicate Lists(nodes: seq<NodeSpec>, id: string) {
    exists i :: 0 <= i < |nodes| && nodes[i].id == id
  }

  /** The sources that list a node. */
  ghost function SourcesOf(bySource: Sources, id: string): set<string> {
    set s | s in bySource && Lists(bySource[s], id)
  }

  /** The node is one that some source lists, but for its source IDs. */
  ghost predicate ComesFrom(bySource: Sources, node: NodeSpec) {
    exists s, i :: s in bySource && 0 <= i < |bySource[s]| && node == bySource[s][i].(sourceIDs := node.sourceIDs)
  }

  /** `merged` has one entry for every listed ID: some source's node with that ID, carrying the
      sorted list of exactly the sources that list it. */
  ghost predicate IsMergedMap(bySource: Sources, merged: map<string, NodeSpec>) {
    && (forall id :: id in merged <==> SourcesOf(bySource, id) != {})
    && (forall id :: id in merged ==> merged[id].id == id && Enumerates(merged[id].sourceIDs, SourcesOf(bySource, id)))
    && (forall id :: id in merged ==> ComesFrom(bySource, merged[id]))
  }

  /** The same for the merged list, which is strictly sorted by ID. */
  ghost predicate IsMerge(bySource: Sources, nodes: seq<NodeSpec>) {
    && (forall i, j :: 0 <= i < j < |nodes| ==> Less(nodes[i].id, nodes[j].id))
    && (forall id :: Lists(nodes, id) <==> SourcesOf(bySource, id) != {})
    && (forall i :: 0 <= i < |nodes| ==>
          Enumerates(nodes[i].sourceIDs, SourcesOf(bySource, nodes[i].id)) && ComesFrom(bySource, nodes[i]))
  }

  // ----- one more node -----

  lemma SourcesAfterAppend(bySource: Sources, s: string, node: NodeSpec, id: string)
    requires s in bySource
    ensures var more := bySource[s := bySource[s] + [node]];
      SourcesOf(more, id) == SourcesOf(bySource, id) + (if node.id == id then {s} else {})
  {
    var more := bySource[s := bySource[s] + [node]];
    var nodes := bySource[s];
    assert Lists(nodes + [node], id) <==> Lists(nodes, id) || node.id == id by {
      if Lists(nodes, id) {
        var i :| 0 <= i < |nodes| && nodes[i].id == id;
        assert (nodes + [node])[i].id == id;
      }
      assert (nodes + [node])[|nodes|] == node;
    }
    assert forall k :: k in SourcesOf(more, id) <==> k in SourcesOf(bySource, id) || (k == s && node.id == id);
  }

  lemma ComesFromMore(bySource: Sources, s: string, node: NodeSpec, other: NodeSpec)
    requires s in bySource
    ensures var more := bySource[s := bySource[s] + [node]];
      && (ComesFrom(bySource, other) ==> ComesFrom(more, other))
      && (other == node.(sourceIDs := other.sourceIDs) ==> ComesFrom(more, other))
  {
    var more := bySource[s := bySource[s] + [node]];
    if ComesFrom(bySource, other) {
      var k, i :| k in bySource && 0 <= i < |bySource[k]| && other == bySource[k][i].(sourceIDs := other.sourceIDs);
      assert more[k][i] == bySource[k][i];
    }
    assert more[s][|bySource[s]|] == node;
  }

  /** What the loop body stores for one node of source `s`. */
  ghost function Absorbed(merged: map<string, NodeSpec>, s: string, node: NodeSpec): map<string, NodeSpec>
    requires node.id in merged ==> Distinct(merged[node.id].sourceIDs)
  {
    if node.id !in merged then merged[node.id := node.(sourceIDs := [s])]
    else if s in merged[node.id].sourceIDs then merged
    else
      var existing := merged[node.id];
      assert Distinct(existing.sourceIDs + [s]);
      merged[node.id := existing.(sourceIDs := SortStrings(existing.sourceIDs + [s]))]
  }

  lemma AbsorbKeepsMerged(bySource: Sources, merged: map<string, NodeSpec>, s: string, node: NodeSpec)
    requires IsMergedMap(bySource, merged) && s in bySource
    requires node.id in merged ==> Distinct(merged[node.id].sourceIDs)
    ensures IsMergedMap(bySource[s := bySource[s] + [node]], Absorbed(merged, s, node))
  {
    var more := bySource[s := bySource[s] + [node]];
    var next := Absorbed(merged, s, node);
    forall id
      ensures id in next <==> SourcesOf(more, id) != {}
      ensures id in next ==> next[id].id == id && Enumerates(next[id].sourceIDs, SourcesOf(more, id))
    {
      AbsorbedEntry(bySource, merged, s, node, id);
    }
    forall id | id in next ensures ComesFrom(more, next[id]) {
      AbsorbedOrigin(bySource, merged, s, node, id);
    }
  }

  lemma AbsorbedEntry(bySource: Sources, merged: map<string, NodeSpec>, s: string, node: NodeSpec, id: string)
    requires IsMergedMap(bySource, merged) && s in bySource
    requires node.id in merged ==> Distinct(merged[node.id].sourceIDs)
    ensures var more, next := bySource[s := bySource[s] + [node]], Absorbed(merged, s, node);
      && (id in next <==> SourcesOf(more, id) != {})
      && (id in next ==> next[id].id == id && Enumerates(next[id].sourceIDs, SourcesOf(more, id)))
  {
    SourcesAfterAppend(bySource, s, node, id);
    if id == node.id {
      AbsorbedSources(bySource, merged, s, node);
    }
  }

  lemma AbsorbedOrigin(bySource: Sources, merged: map<string, NodeSpec>, s: string, node: NodeSpec, id: string)
    requires s in bySource && (node.id in merged ==> Distinct(merged[node.id].sourceIDs))
    requires id in merged ==> ComesFrom(bySource, merged[id])
    requires id in Absorbed(merged, s, node)
    ensures ComesFrom(bySource[s := bySource[s] + [node]], Absorbed(merged, s, node)[id])
  {
    var more := bySource[s := bySource[s] + [node]];
    var next := Absorbed(merged, s, node);
    if id in merged {
      ComesFromMore(bySource, s, node, merged[id]);
      SameOrigin(more, merged[id], next[id].sourceIDs);
    } else {
      ComesFromMore(bySource, s, node, next[id]);
    }
  }

  lemma SameOrigin(bySource: Sources, node: NodeSpec, sourceIDs: seq<string>)
    requires ComesFrom(bySource, node)
    ensures ComesFrom(bySource, node.(sourceIDs := sourceIDs))
  {
    var k, i :| k in bySource && 0 <= i < |bySource[k]| && node == bySource[k][i].(sourceIDs := node.sourceIDs);
    assert node.(sourceIDs := sourceIDs) == bySource[k][i].(sourceIDs := sourceIDs);
  }

  lemma AbsorbedSources(bySource: Sources, merged: map<string, NodeSpec>, s: string, node: NodeSpec)
    requires IsMergedMap(bySource, merged) && s in bySource
    requires node.id in merged ==> Distinct(merged[node.id].sourceIDs)
    ensures var next := Absorbed(merged, s, node);
      && node.id in next && next[node.id].id == node.id
      && Enumerates(next[node.id].sourceIDs, SourcesOf(bySource, node.id) + {s})
  {
    if node.id in merged {
      var ids := merged[node.id].sourceIDs;
      assert Elements(ids + [s]) == Elements(ids) + {s};
      if s in ids {
        assert s in Elements(ids);
        assert SourcesOf(bySource, node.id) + {s} == SourcesOf(bySource, node.id);
      }
    } else {
      assert Elements([s]) == {s};
    }
  }

  // ----- the whole merge -----

  /** The part of the sources visited so far. */
  ghost function Visited(bySource: Sources, todo: set<string>): Sources {
    map s | s in bySource && s !in todo :: bySource[s]
  }

  lemma EmptyListAddsNothing(bySource: Sources, s: string, id: string)
    requires s !in bySource
    ensures SourcesOf(bySource[s := []], id) == SourcesOf(bySource, id)
  {
    assert forall k :: k in SourcesOf(bySource[s := []], id) <==> k in SourcesOf(bySource, id);
  }

  lemma EmptyListKeepsMerged(bySource: Sources, merged: map<string, NodeSpec>, s: string)
    requires IsMergedMap(bySource, merged) && s !in bySource
    ensures IsMergedMap(bySource[s := []], merged)
  {
    forall id ensures SourcesOf(bySource[s := []], id) == SourcesOf(bySource, id) {
      EmptyListAddsNothing(bySource, s, id);
    }
    forall id | id in merged ensures ComesFrom(bySource[s := []], merged[id]) {
      var k, i :| k in bySource && 0 <= i < |bySource[k]| && merged[id] == bySource[k][i].(sourceIDs := merged[id].sourceIDs);
      assert bySource[s := []][k] == bySource[k];
    }
  }

  lemma ListOfMerged(bySource: Sources, merged: map<string, NodeSpec>, ids: seq<string>, nodes: seq<NodeSpec>)
    requires IsMergedMap(bySource, merged) && Enumerates(ids, merged.Keys) && |nodes| == |ids|
    requires forall i :: 0 <= i < |ids| ==> ids[i] in merged && nodes[i] == merged[ids[i]]
    ensures IsMerge(bySource, nodes)
  {
    forall id ensures Lists(nodes, id) <==> id in merged {
      if id in merged {
        assert id in Elements(ids);
        var i :| 0 <= i < |ids| && ids[i] == id;
        assert nodes[i].id == id;
      }
    }
  }

  /** mergeSources: both map iterations in arbitrary order. */
  method MergeSources(bySource: Sources) returns (nodes: seq<NodeSpec>)
    ensures IsMerge(bySource, nodes)
  {
    var merged: map<string, NodeSpec> := map[];
    var todo := bySource.Keys;
    while todo != {}
      invariant todo <= bySource.Keys && IsMergedMap(Visited(bySource, todo), merged)
    {
      var s :| s in todo;
      merged := MergeOne(Visited(bySource, todo), merged, s, bySource[s]);
      assert Visited(bySource, todo)[s := bySource[s]] == Visited(bySource, todo - {s});
      todo := todo - {s};
    }
    assert Visited(bySource, {}) == bySource;
    nodes := SortedValues(bySource, merged);
  }

  /** The values of the map in arbitrary order, then sorted by ID. */
  method SortedValues(ghost bySource: Sources, merged: map<string, NodeSpec>) returns (nodes: seq<NodeSpec>)
    requires IsMergedMap(bySource, merged)
    ensures IsMerge(bySource, nodes)
  {
    var ids := InSomeOrder(merged.Keys);
    var sorted := SortStrings(ids);
    assert forall i :: 0 <= i < |sorted| ==> sorted[i] in Elements(sorted);
    nodes := seq(|sorted|, i requires 0 <= i < |sorted| => merged[sorted[i]]);
    ListOfMerged(bySource, merged, sorted, nodes);
  }

  /** The inner loop: the nodes of one source. */
  method MergeOne(ghost before: Sources, start: map<string, NodeSpec>, s: string, list: seq<NodeSpec>)
    returns (merged: map<string, NodeSpec>)
    requires IsMergedMap(before, start) && s !in before
    ensures IsMergedMap(before[s := list], merged)
  {
    merged := start;
    EmptyListKeepsMerged(before, merged, s);
    for i := 0 to |list|
      invariant IsMergedMap(before[s := list[..i]], merged)
    {
      MergeGoesOn(before, merged, s, list, i);
      merged := AbsorbNode(merged, s, list[i]);
    }
    assert list[..|list|] == list;
  }

  lemma MergeGoesOn(before: Sources, merged: map<string, NodeSpec>, s: string, list: seq<NodeSpec>, i: nat)
    requires i < |list| && IsMergedMap(before[s := list[..i]], merged)
    ensures list[i].id in merged ==> Distinct(merged[list[i].id].sourceIDs)
    ensures IsMergedMap(before[s := list[..i + 1]], Absorbed(merged, s, list[i]))
  {
    var sofar := before[s := list[..i]];
    MergedListsAreDistinct(sofar, merged, list[i].id);
    AbsorbKeepsMerged(sofar, merged, s, list[i]);
    OneLonger(before, s, list, i);
  }

  lemma MergedListsAreDistinct(bySource: Sources, merged: map<string, NodeSpec>, id: string)
    requires IsMergedMap(bySource, merged)
    ensures id in merged ==> Distinct(merged[id].sourceIDs)
  {
    if id in merged { SortedIsDistinct(merged[id].sourceIDs); }
  }

  lemma OneLonger(before: Sources, s: string, list: seq<NodeSpec>, i: nat)
    requires i < |list|
    ensures var sofar := before[s := list[..i]];
      sofar[s := sofar[s] + [list[i]]] == before[s := list[..i + 1]]
  {
    assert list[..i + 1] == list[..i] + [list[i]];
  }

  /** The body of the inner loop. */
  method AbsorbNode(merged: map<string, NodeSpec>, s: string, node: NodeSpec) returns (next: map<string, NodeSpec>)
    requires node.id in merged ==> Distinct(merged[node.id].sourceIDs)
    ensures next == Absorbed(merged, s, node)
  {
    if node.id !in merged {
      return merged[node.id := node.(sourceIDs := [s])];
    }
    var existing := merged[node.id];
    if s in existing.sourceIDs {
      return merged;
    }
    assert Distinct(existing.sourceIDs + [s]);
    next := merged[node.id := existing.(sourceIDs := SortStrings(existing.sourceIDs + [s]))];
  }

  // ----- order independence -----

  ghost function Ids(nodes: seq<NodeSpec>): seq<string> {
    seq(|nodes|, i requires 0 <= i < |nodes| => nodes[i].id)
  }

  ghost function AllIds(bySource: Sources): set<string> {
    set s, i | s in bySource && 0 <= i < |bySource[s]| :: bySource[s][i].id
  }

  lemma IdsOfMerge(bySource: Sources, nodes: seq<NodeSpec>)
    requires IsMerge(bySource, nodes)
    ensures Enumerates(Ids(nodes), AllIds(bySource))
  {
    forall id ensures id in Elements(Ids(nodes)) <==> id in AllIds(bySource) {
      if id in Elements(Ids(nodes)) {
        var i :| 0 <= i < |nodes| && Ids(nodes)[i] == id;
        assert Lists(nodes, id);
        var s :| s in SourcesOf(bySource, id);
      }
      if id in AllIds(bySource) {
        var s, i :| s in bySource && 0 <= i < |bySource[s]| && bySource[s][i].id == id;
        assert s in SourcesOf(bySource, id);
        var j :| 0 <= j < |nodes| && nodes[j].id == id;
        assert Ids(nodes)[j] == id;
      }
    }
  }

  /** Whatever order the maps are visited in, the merge has the same IDs in the same places with
      the same source lists. */
  lemma MergeIsOrderIndependent(bySource: Sources, a: seq<NodeSpec>, b: seq<NodeSpec>)
    requires IsMerge(bySource, a) && IsMerge(bySource, b)
    ensures |a| == |b|
    ensures forall i :: 0 <= i < |a| ==> a[i].id == b[i].id && a[i].sourceIDs == b[i].sourceIDs
  {
    IdsOfMerge(bySource, a);
    IdsOfMerge(bySource, b);
    EnumerationIsUnique(Ids(a), Ids(b), AllIds(bySource));
    assert |Ids(a)| == |a| && |Ids(b)| == |b|;
    forall i | 0 <= i < |a| ensures a[i].id == b[i].id && a[i].sourceIDs == b[i].sourceIDs {
      assert Ids(a)[i] == Ids(b)[i];
      EnumerationIsUnique(a[i].sourceIDs, b[i].sourceIDs, SourcesOf(bySource, a[i].id));
    }
  }

  /** A merge is strictly sorted by ID, and lists an ID exactly if some source does. */
  lemma MergeListsTheUnion(bySource: Sources, nodes: seq<NodeSpec>, id: string)
    requires IsMerge(bySource, nodes)
    ensures forall i, j :: 0 <= i < j < |nodes| ==> Less(nodes[i].id, nodes[j].id)
    ensures (exists i :: 0 <= i < |nodes| && nodes[i].id == id) <==>
            exists s, k :: s in bySource && 0 <= k < |bySource[s]| && bySource[s][k].id == id
  {
    ListedBySomeone(bySource, id);
    assert Lists(nodes, id) <==> SourcesOf(bySource, id) != {};
  }

  /** Each node of a merge is some source's node but for its source IDs, which are the strictly sorted
      list of exactly the sources that list its ID. */
  lemma MergedNode(bySource: Sources, nodes: seq<NodeSpec>, i: nat)
    requires IsMerge(bySource, nodes) && i < |nodes|
    ensures exists s, k :: s in bySource && 0 <= k < |bySource[s]|
              && nodes[i] == bySource[s][k].(sourceIDs := nodes[i].sourceIDs)
    ensures StrictlySorted(nodes[i].sourceIDs)
    ensures forall s :: s in nodes[i].sourceIDs ==>
              s in bySource && exists k :: 0 <= k < |bySource[s]| && bySource[s][k].id == nodes[i].id
    ensures forall s, k :: s in bySource && 0 <= k < |bySource[s]| && bySource[s][k].id == nodes[i].id ==>
              s in nodes[i].sourceIDs
  {
    var node := nodes[i];
    assert Enumerates(node.sourceIDs, SourcesOf(bySource, node.id)) && ComesFrom(bySource, node);
    forall s ensures s in node.sourceIDs <==> s in bySource && Lists(bySource[s], node.id) {
      assert s in Elements(node.sourceIDs) <==> s in SourcesOf(bySource, node.id);
    }
  }

  lemma ListedBySomeone(bySource: Sources, id: string)
    ensures SourcesOf(bySource, id) != {} <==>
            exists s, k :: s in bySource && 0 <= k < |bySource[s]| && bySource[s][k].id == id
  {
    if s, k :| s in bySource && 0 <= k < |bySource[s]| && bySource[s][k].id == id {
      assert s in SourcesOf(bySource, id);
    }
    if SourcesOf(bySource, id) != {} {
      var s :| s in SourcesOf(bySource, id);
      var k :| 0 <= k < |bySource[s]| && bySource[s][k].id == id;
    }
  }
}
