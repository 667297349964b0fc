/** The last-known-good subscription manager: Refresh and LoadSeed as the object's methods, and
    what its state is after any sequence of them (internal/subscription/manager.go, seed.go). */
module Manager {
  import opened Options
  import opened Ordering
  import opened RegistryModel
  import opened Merge

  /** What parsing a body gave: an error, or nodes (possibly none). */
  datatype Parsed = BadBody(error: string) | Nodes(nodes: seq<NodeSpec>)

  /** What fetching a source gave. The expiry is 0 when the response did not state one. */
  datatype Fetch = FetchFailed(error: string) | Fetched(expiry: nat, parsed: Parsed)

  datatype Source = Source(id: string, url: string)

  /** One source's result in a refresh, or one entry of a seed. */
  datatype Result = Result(source: string, fetch: Fetch)

  datatype Snapshot = Snapshot(expiresAt: map<string, nat>, nodes: seq<NodeSpec>, sourceErrors: map<string, string>)

  datatype State = State(bySource: Sources, expiresAt: map<string, nat>, last: Snapshot)

  const NEW_STATE := State(map[], map[], Snapshot(map[], [], map[]))

  const NO_NODES := "subscription contains no proxy nodes"

  /** The result replaces the source's nodes: fetched, parsed and not empty. */
  predicate Replaces(r: Result) {
    r.fetch.Fetched? && r.fetch.parsed.Nodes? && r.fetch.parsed.nodes != []
  }

  /** The nodes of a result, each marked as coming from its source. */
  function Tagged(source: string, nodes: seq<NodeSpec>): seq<NodeSpec> {
    seq(|nodes|, i requires 0 <= i < |nodes| => nodes[i].(sourceIDs := [source]))
  }

  function ErrorOf(fetch: Fetch): string
    requires !(fetch.Fetched? && fetch.parsed.Nodes? && fetch.parsed.nodes != [])
  {
    match fetch
    case FetchFailed(error) => error
    case Fetched(_, BadBody(error)) => error
    case Fetched(_, Nodes(_)) => NO_NODES
  }

  // ----- what a batch of results says, read off from its last relevant entry -----

  /** `i` is the last result for the source that has the property. */
  ghost predicate LastFor(rs: seq<Result>, source: string, i: nat, relevant: Result -> bool) {
    && i < |rs| && rs[i].source == source && relevant(rs[i])
    && forall j :: i < j < |rs| && rs[j].source == source ==> !relevant(rs[j])
  }

  ghost function NodesIn(rs: seq<Result>): Sources {
    if rs == [] then map[]
    else
      var n := |rs| - 1;
      var before := NodesIn(rs[..n]);
      if Replaces(rs[n]) then before[rs[n].source := Tagged(rs[n].source, rs[n].fetch.parsed.nodes)] else before
  }

  ghost function ExpiriesIn(rs: seq<Result>): map<string, nat> {
    if rs == [] then map[]
    else
      var n := |rs| - 1;
      var before := ExpiriesIn(rs[..n]);
      if rs[n].fetch.Fetched? then before[rs[n].source := rs[n].fetch.expiry] else before
  }

  ghost function ErrorsIn(rs: seq<Result>): map<string, string> {
    if rs == [] then map[]
    else
      var n := |rs| - 1;
      var before := ErrorsIn(rs[..n]);
      if Replaces(rs[n]) then before else before[rs[n].source := ErrorOf(rs[n].fetch)]
  }

  predicate TellsExpiry(r: Result) {
    r.fetch.Fetched?
  }

  predicate Fails(r: Result) {
    !Replaces(r)
  }

  ghost predicate HasLast(rs: seq<Result>, source: string, relevant: Result -> bool) {
    exists i :: LastFor(rs, source, i, relevant)
  }

  lemma {:induction false} NodesAreTheLatest(rs: seq<Result>, source: string)
    ensures source in NodesIn(rs) <==> HasLast(rs, source, Replaces)
    ensures forall i: nat :: LastFor(rs, source, i, Replaces) ==>
              NodesIn(rs)[source] == Tagged(source, rs[i].fetch.parsed.nodes)
    decreases |rs|
  {
    if rs != [] {
      var n := |rs| - 1;
      NodesAreTheLatest(rs[..n], source);
      LastGoesOn(rs, source, Replaces);
    }
  }

  lemma {:induction false} ExpiriesAreTheLatest(rs: seq<Result>, source: string)
    ensures source in ExpiriesIn(rs) <==> HasLast(rs, source, TellsExpiry)
    ensures forall i: nat :: LastFor(rs, source, i, TellsExpiry) ==> ExpiriesIn(rs)[source] == rs[i].fetch.expiry
    decreases |rs|
  {
    if rs != [] {
      var n := |rs| - 1;
      ExpiriesAreTheLatest(rs[..n], source);
      LastGoesOn(rs, source, TellsExpiry);
    }
  }

  lemma {:induction false} ErrorsAreTheLatest(rs: seq<Result>, source: string)
    ensures source in ErrorsIn(rs) <==> HasLast(rs, source, Fails)
    ensures forall i: nat :: LastFor(rs, source, i, Fails) ==> ErrorsIn(rs)[source] == ErrorOf(rs[i].fetch)
    decreases |rs|
  {
    if rs != [] {
      var n := |rs| - 1;
      ErrorsAreTheLatest(rs[..n], source);
      LastGoesOn(rs, source, Fails);
    }
  }

  /** A batch with a relevant result for the source has a last one. */
  lemma {:induction false} LastExists(rs: seq<Result>, source: string, relevant: Result -> bool, i: nat)
    requires i < |rs| && rs[i].source == source && relevant(rs[i])
    ensures HasLast(rs, source, relevant)
    decreases |rs|
  {
    var n := |rs| - 1;
    LastGoesOn(rs, source, relevant);
    if i < n {
      assert rs[..n][i] == rs[i];
      LastExists(rs[..n], source, relevant, i);
    }
  }

  lemma LastGoesOn(rs: seq<Result>, source: string, relevant: Result -> bool)
    requires rs != []
    ensures var n := |rs| - 1;
      if rs[n].source == source && relevant(rs[n])
      then forall i: nat :: LastFor(rs, source, i, relevant) <==> i == n
      else forall i: nat :: LastFor(rs, source, i, relevant) <==> LastFor(rs[..n], source, i, relevant)
    ensures var n := |rs| - 1;
      HasLast(rs, source, relevant)
      <==> (rs[n].source == source && relevant(rs[n])) || HasLast(rs[..n], source, relevant)
  {
    var n := |rs| - 1;
    if rs[n].source == source && relevant(rs[n]) {
      assert LastFor(rs, source, n, relevant);
    }
    if !(rs[n].source == source && relevant(rs[n])) {
      forall i: nat ensures LastFor(rs, source, i, relevant) <==> LastFor(rs[..n], source, i, relevant) {
        if i < n { assert rs[..n][i] == rs[i]; }
        if LastFor(rs[..n], source, i, relevant) {
          forall j | i < j < |rs| && rs[j].source == source ensures !relevant(rs[j]) {
            if j < n { assert rs[..n][j] == rs[j]; }
          }
        }
      }
    }
  }

  /** The manager's state after a batch, given the merged list the snapshot got. */
  ghost function Absorb(m: State, rs: seq<Result>, errors: map<string, string>, nodes: seq<NodeSpec>): State {
    var expiresAt := m.expiresAt + ExpiriesIn(rs);
    State(m.bySource + NodesIn(rs), expiresAt, Snapshot(expiresAt, nodes, errors))
  }

  ghost function ResultsOf(sources: seq<Source>, fetches: seq<Fetch>): (rs: seq<Result>)
    requires |fetches| == |sources|
  {
    seq(|fetches|, i requires 0 <= i < |fetches| => Result(sources[i].id, fetches[i]))
  }

  // ----- what a batch keeps and what it replaces, source by source -----

  /** A source has nodes from the batch exactly if some result for it was fetched, parsed and not
      empty, and they are those of the last such result, tagged with the source. */
  lemma NodesInBatch(rs: seq<Result>, source: string)
    ensures source in NodesIn(rs) <==>
            exists i :: 0 <= i < |rs| && rs[i].source == source
              && rs[i].fetch.Fetched? && rs[i].fetch.parsed.Nodes? && rs[i].fetch.parsed.nodes != []
    ensures forall i ::
              (&& 0 <= i < |rs| && rs[i].source == source
               && rs[i].fetch.Fetched? && rs[i].fetch.parsed.Nodes? && rs[i].fetch.parsed.nodes != []
               && (forall j :: i < j < |rs| && rs[j].source == source ==>
                     !(rs[j].fetch.Fetched? && rs[j].fetch.parsed.Nodes? && rs[j].fetch.parsed.nodes != []))) ==>
              && |NodesIn(rs)[source]| == |rs[i].fetch.parsed.nodes|
              && forall k :: 0 <= k < |rs[i].fetch.parsed.nodes| ==>
                   NodesIn(rs)[source][k] == rs[i].fetch.parsed.nodes[k].(sourceIDs := [source])
  {
    NodesAreTheLatest(rs, source);
    forall i | 0 <= i < |rs| && rs[i].source == source && Replaces(rs[i]) ensures source in NodesIn(rs) {
      LastExists(rs, source, Replaces, i);
    }
    forall i | 0 <= i < |rs| && rs[i].source == source && Replaces(rs[i])
                && (forall j :: i < j < |rs| && rs[j].source == source ==> !Replaces(rs[j]))
      ensures LastFor(rs, source, i, Replaces)
    {
    }
  }

  /** A source has an expiry from the batch exactly if some fetch of it succeeded, whatever the body
      parsed to, and it is the one of the last such fetch. */
  lemma ExpiriesInBatch(rs: seq<Result>, source: string)
    ensures source in ExpiriesIn(rs) <==> exists i :: 0 <= i < |rs| && rs[i].source == source && rs[i].fetch.Fetched?
    ensures forall i ::
              (&& 0 <= i < |rs| && rs[i].source == source && rs[i].fetch.Fetched?
               && (forall j :: i < j < |rs| && rs[j].source == source ==> !rs[j].fetch.Fetched?)) ==>
              ExpiriesIn(rs)[source] == rs[i].fetch.expiry
  {
    ExpiriesAreTheLatest(rs, source);
    forall i | 0 <= i < |rs| && rs[i].source == source && TellsExpiry(rs[i]) ensures source in ExpiriesIn(rs) {
      LastExists(rs, source, TellsExpiry, i);
    }
    forall i | 0 <= i < |rs| && rs[i].source == source && TellsExpiry(rs[i])
                && (forall j :: i < j < |rs| && rs[j].source == source ==> !TellsExpiry(rs[j]))
      ensures LastFor(rs, source, i, TellsExpiry)
    {
    }
  }

  /** A source has an error from the batch exactly if some result for it was not fetched, not parsed
      or empty; it is the fetch error, the parse error or the complaint about an empty body. */
  lemma ErrorsInBatch(rs: seq<Result>, source: string)
    ensures source in ErrorsIn(rs) <==>
            exists i :: 0 <= i < |rs| && rs[i].source == source
              && !(rs[i].fetch.Fetched? && rs[i].fetch.parsed.Nodes? && rs[i].fetch.parsed.nodes != [])
    ensures forall i ::
              (&& 0 <= i < |rs| && rs[i].source == source
               && !(rs[i].fetch.Fetched? && rs[i].fetch.parsed.Nodes? && rs[i].fetch.parsed.nodes != [])
               && (forall j :: i < j < |rs| && rs[j].source == source ==>
                     rs[j].fetch.Fetched? && rs[j].fetch.parsed.Nodes? && rs[j].fetch.parsed.nodes != [])) ==>
              ErrorsIn(rs)[source] ==
                if rs[i].fetch.FetchFailed? then rs[i].fetch.error
                else if rs[i].fetch.parsed.BadBody? then rs[i].fetch.parsed.error
                else "subscription contains no proxy nodes"
  {
    ErrorsAreTheLatest(rs, source);
    forall i | 0 <= i < |rs| && rs[i].source == source && Fails(rs[i]) ensures source in ErrorsIn(rs) {
      LastExists(rs, source, Fails, i);
    }
    forall i | 0 <= i < |rs| && rs[i].source == source && Fails(rs[i])
                && (forall j :: i < j < |rs| && rs[j].source == source ==> !Fails(rs[j]))
      ensures LastFor(rs, source, i, Fails)
    {
    }
  }

  /** What a refresh does to a source whose ID no other source has: a body that was fetched, parsed
      and not empty replaces its nodes and clears its error; anything else leaves its nodes and
      reports why. A successful fetch replaces its expiry either way. */
  lemma RefreshedSource(sources: seq<Source>, fetches: seq<Fetch>, m: State, m': State, i: nat)
    requires |fetches| == |sources| && i < |sources|
    requires forall j :: 0 <= j < |sources| && j != i ==> sources[j].id != sources[i].id
    requires m' == Absorb(m, ResultsOf(sources, fetches), ErrorsIn(ResultsOf(sources, fetches)), m'.last.nodes)
    ensures var id, fetch := sources[i].id, fetches[i];
      && (if fetch.Fetched? && fetch.parsed.Nodes? && fetch.parsed.nodes != [] then
            && id in m'.bySource && |m'.bySource[id]| == |fetch.parsed.nodes| && id !in m'.last.sourceErrors
            && (forall k :: 0 <= k < |fetch.parsed.nodes| ==>
                  m'.bySource[id][k] == fetch.parsed.nodes[k].(sourceIDs := [id]))
          else
            && (id in m'.bySource <==> id in m.bySource) && (id in m.bySource ==> m'.bySource[id] == m.bySource[id])
            && id in m'.last.sourceErrors
            && m'.last.sourceErrors[id] == if fetch.FetchFailed? then fetch.error
                 else if fetch.parsed.BadBody? then fetch.parsed.error else "subscription contains no proxy nodes")
      && (if fetch.Fetched? then id in m'.expiresAt && m'.expiresAt[id] == fetch.expiry
          else (id in m'.expiresAt <==> id in m.expiresAt) && (id in m.expiresAt ==> m'.expiresAt[id] == m.expiresAt[id]))
  {
    var rs, id := ResultsOf(sources, fetches), sources[i].id;
    assert rs[i] == Result(id, fetches[i]);
    NodesInBatch(rs, id);
    ExpiriesInBatch(rs, id);
    ErrorsInBatch(rs, id);
  }

  /** And it leaves everything else alone. */
  lemma RefreshedOthers(sources: seq<Source>, fetches: seq<Fetch>, m: State, m': State, id: string)
    requires |fetches| == |sources| && forall j :: 0 <= j < |sources| ==> sources[j].id != id
    requires m' == Absorb(m, ResultsOf(sources, fetches), ErrorsIn(ResultsOf(sources, fetches)), m'.last.nodes)
    ensures (id in m'.bySource <==> id in m.bySource) && (id in m.bySource ==> m'.bySource[id] == m.bySource[id])
    ensures (id in m'.expiresAt <==> id in m.expiresAt) && (id in m.expiresAt ==> m'.expiresAt[id] == m.expiresAt[id])
    ensures id !in m'.last.sourceErrors && m'.last.expiresAt == m'.expiresAt
  {
    var rs := ResultsOf(sources, fetches);
    NodesInBatch(rs, id);
    ExpiriesInBatch(rs, id);
    ErrorsInBatch(rs, id);
  }

  // ----- the object -----

  /** A seed entry after the file is decoded and its body parsed. */
  datatype SeedEntry = SeedEntry(sourceDigest: string, parsed: Parsed, expiresAt: nat)

  class SubscriptionManager {
    const sources: seq<Source>
    var bySource: Sources
    var expiresAt: map<string, nat>
    var last: Snapshot

    constructor (sources: seq<Source>)
      ensures this.sources == sources && Value() == NEW_STATE
    {
      this.sources, bySource, expiresAt, last := sources, map[], map[], Snapshot(map[], [], map[]);
    }

    ghost function Value(): State
      reads this
    {
      State(bySource, expiresAt, last)
    }

    /** Refresh with the fetch results of the sources in order. It returns the new snapshot and the
        sorted IDs of the sources that failed. */
    method Refresh(fetches: seq<Fetch>) returns (snapshot: Snapshot, failed: seq<string>)
      requires |fetches| == |sources|
      modifies this
      ensures snapshot == last && IsMerge(bySource, last.nodes)
      ensures Value() == Absorb(old(Value()), ResultsOf(sources, fetches), ErrorsIn(ResultsOf(sources, fetches)), last.nodes)
      ensures Enumerates(failed, last.sourceErrors.Keys)
    {
      ghost var rs := ResultsOf(sources, fetches);
      var sourceErrors: map<string, string> := map[];
      var updates: Sources := map[];
      var expiries: map<string, nat> := map[];
      for i := 0 to |sources|
        invariant (updates, expiries, sourceErrors) == (NodesIn(rs[..i]), ExpiriesIn(rs[..i]), ErrorsIn(rs[..i]))
      {
        assert rs[..i + 1][..i] == rs[..i] && rs[..i + 1][i] == Result(sources[i].id, fetches[i]);
        var id := sources[i].id;
        match fetches[i]
        case FetchFailed(error) =>
          sourceErrors := sourceErrors[id := error];
        case Fetched(expiry, parsed) =>
          expiries := expiries[id := expiry];
          match parsed {
            case BadBody(error) =>
              sourceErrors := sourceErrors[id := error];
            case Nodes(nodes) =>
              if nodes == [] {
                sourceErrors := sourceErrors[id := NO_NODES];
              } else {
                updates := updates[id := Tagged(id, nodes)];
              }
          }
      }
      assert rs[..|sources|] == rs;
      expiresAt := expiresAt + expiries;
      bySource := bySource + updates;
      var nodes := MergeSources(bySource);
      last := Snapshot(expiresAt, nodes, sourceErrors);
      snapshot := last;
      var ids := InSomeOrder(sourceErrors.Keys);
      failed := SortStrings(ids);
    }

    /** The table from URL digest to source ID; a later source with the same digest wins. */
    method DigestTable(digest: string -> string) returns (table: map<string, string>)
      ensures table == TableOf(sources, digest)
    {
      table := map[];
      for i := 0 to |sources|
        invariant table == TableOf(sources[..i], digest)
      {
        assert sources[..i + 1][..i] == sources[..i];
        table := table[digest(sources[i].url) := sources[i].id];
      }
      assert sources[..|sources|] == sources;
    }

    /** The loop over the entries: what to commit, or None for the first bad entry. */
    static method ReadEntries(entries: seq<SeedEntry>, table: map<string, string>)
      returns (seed: Option<(Sources, map<string, nat>)>)
      ensures seed.Some? <==> EntriesGood(entries, table)
      ensures seed.Some? ==>
        && seed.value.0 == NodesIn(SeedResults(entries, table))
        && seed.value.1 == ExpiriesIn(SeedResults(entries, table))
    {
      var nodes: Sources := map[];
      var expiries: map<string, nat> := map[];
      for i := 0 to |entries|
        invariant Seeding(entries, table, i, nodes, expiries)
      {
        SeedGoesOn(entries, table, i, nodes, expiries);
        var entry := entries[i];
        if entry.sourceDigest !in table {
          return None;
        }
        var id := table[entry.sourceDigest];
        if id in nodes {
          return None;
        }
        if entry.parsed.BadBody? || entry.parsed.nodes == [] {
          return None;
        }
        nodes := nodes[id := Tagged(id, entry.parsed.nodes)];
        expiries := expiries[id := entry.expiresAt];
      }
      assert entries[..|entries|] == entries;
      seed := Some((nodes, expiries));
    }

    /** LoadSeed after the file is read: all entries are taken, or none. */
    method LoadSeed(entries: seq<SeedEntry>, digest: string -> string) returns (ok: bool)
      modifies this
      ensures ok <==> SeedIsGood(entries, sources, digest)
      ensures !ok ==> Value() == old(Value())
      ensures ok ==> IsMerge(bySource, last.nodes)
      ensures ok ==>
        Value() == Absorb(old(Value()), SeedResults(entries, TableOf(sources, digest)), map[], last.nodes)
    {
      if |entries| == 0 || |entries| > |sources| {
        return false;
      }
      var table := DigestTable(digest);
      var seed := ReadEntries(entries, table);
      if seed.None? {
        return false;
      }
      bySource := bySource + seed.value.0;
      expiresAt := expiresAt + seed.value.1;
      var merged := MergeSources(bySource);
      last := Snapshot(expiresAt, merged, map[]);
      ok := true;
    }
  }

  // ----- seeds -----

  ghost function TableOf(sources: seq<Source>, digest: string -> string): map<string, string> {
    if sources == [] then map[]
    else
      var n := |sources| - 1;
      TableOf(sources[..n], digest)[digest(sources[n].url) := sources[n].id]
  }

  /** Every entry names a configured source, no two the same one, and has nodes. */
  ghost predicate EntriesGood(entries: seq<SeedEntry>, table: map<string, string>) {
    && (forall i :: 0 <= i < |entries| ==>
          entries[i].sourceDigest in table && entries[i].parsed.Nodes? && entries[i].parsed.nodes != [])
    && (forall i, j :: 0 <= i < j < |entries| ==> table[entries[i].sourceDigest] != table[entries[j].sourceDigest])
  }

  ghost predicate SeedIsGood(entries: seq<SeedEntry>, sources: seq<Source>, digest: string -> string) {
    0 < |entries| <= |sources| && EntriesGood(entries, TableOf(sources, digest))
  }

  ghost function SeedResults(entries: seq<SeedEntry>, table: map<string, string>): seq<Result>
    requires EntriesGood(entries, table)
  {
    seq(|entries|, i requires 0 <= i < |entries| =>
      Result(table[entries[i].sourceDigest], Fetched(entries[i].expiresAt, entries[i].parsed)))
  }

  /** The loop's locals after `i` good entries. */
  ghost predicate Seeding(entries: seq<SeedEntry>, table: map<string, string>, i: nat,
                          nodes: Sources, expiries: map<string, nat>)
  {
    && i <= |entries| && EntriesGood(entries[..i], table)
    && nodes == NodesIn(SeedResults(entries[..i], table))
    && expiries == ExpiriesIn(SeedResults(entries[..i], table))
    && (forall id :: id in nodes <==> Names(entries, table, i, id))
  }

  /** One of the first `i` entries is for source `id`. */
  ghost predicate Names(entries: seq<SeedEntry>, table: map<string, string>, i: nat, id: string)
    requires i <= |entries| && EntriesGood(entries[..i], table)
  {
    exists j :: 0 <= j < i && table[entries[..i][j].sourceDigest] == id
  }

  lemma SeedGoesOn(entries: seq<SeedEntry>, table: map<string, string>, i: nat, nodes: Sources, expiries: map<string, nat>)
    requires i < |entries| && Seeding(entries, table, i, nodes, expiries)
    ensures var e := entries[i];
      if e.sourceDigest !in table || table[e.sourceDigest] in nodes || !e.parsed.Nodes? || e.parsed.nodes == []
      then !EntriesGood(entries, table)
      else var id := table[e.sourceDigest];
        Seeding(entries, table, i + 1, nodes[id := Tagged(id, e.parsed.nodes)], expiries[id := e.expiresAt])
  {
    var e := entries[i];
    var before := entries[..i];
    if e.sourceDigest in table && e.parsed.Nodes? && e.parsed.nodes != [] {
      var id := table[e.sourceDigest];
      if id in nodes {
        var j :| 0 <= j < i && table[before[j].sourceDigest] == id;
        assert entries[j] == before[j];
      } else {
        OneMoreEntry(entries, table, i, nodes);
      }
    }
  }

  lemma OneMoreEntry(entries: seq<SeedEntry>, table: map<string, string>, i: nat, nodes: Sources)
    requires i < |entries| && EntriesGood(entries[..i], table)
    requires forall id :: id in nodes <==> Names(entries, table, i, id)
    requires var e := entries[i];
      e.sourceDigest in table && e.parsed.Nodes? && e.parsed.nodes != [] && table[e.sourceDigest] !in nodes
    ensures var e, more := entries[i], entries[..i + 1];
      && EntriesGood(more, table)
      && SeedResults(more, table) == SeedResults(entries[..i], table)
           + [Result(table[e.sourceDigest], Fetched(e.expiresAt, e.parsed))]
      && (forall id :: Names(entries, table, i + 1, id) <==> id in nodes || id == table[e.sourceDigest])
  {
    var e, before, more := entries[i], entries[..i], entries[..i + 1];
    assert more == before + [e];
    forall j | 0 <= j < i ensures table[before[j].sourceDigest] != table[e.sourceDigest] {
      assert Names(entries, table, i, table[before[j].sourceDigest]);
    }
    forall id ensures Names(entries, table, i + 1, id) <==> id in nodes || id == table[e.sourceDigest] {
      if id in nodes {
        var j :| 0 <= j < i && table[before[j].sourceDigest] == id;
        assert more[j] == before[j];
      }
      assert more[i] == e;
    }
  }

  // ----- a seed in terms of the sources and its entries -----

  /** The table maps a digest to the ID of the last source whose URL has it. */
  lemma {:induction false} TableHolds(sources: seq<Source>, digest: string -> string, s: nat)
    requires s < |sources| && forall r :: s < r < |sources| ==> digest(sources[r].url) != digest(sources[s].url)
    ensures digest(sources[s].url) in TableOf(sources, digest)
    ensures TableOf(sources, digest)[digest(sources[s].url)] == sources[s].id
    decreases |sources|
  {
    var n := |sources| - 1;
    if s < n {
      assert digest(sources[n].url) != digest(sources[s].url);
      TableHolds(sources[..n], digest, s);
    }
  }

  lemma {:induction false} TableNames(sources: seq<Source>, digest: string -> string, d: string) returns (s: nat)
    requires d in TableOf(sources, digest)
    ensures s < |sources| && digest(sources[s].url) == d
    ensures forall r :: s < r < |sources| ==> digest(sources[r].url) != d
    decreases |sources|
  {
    var n := |sources| - 1;
    if digest(sources[n].url) == d {
      s := n;
    } else {
      s := TableNames(sources[..n], digest, d);
      forall r | s < r < |sources| ensures digest(sources[r].url) != d {
        if r < n { assert sources[..n][r] == sources[r]; }
      }
    }
  }

  /** The source that an entry names: the last one whose URL has the entry's digest. */
  ghost predicate IsFor(sources: seq<Source>, digest: string -> string, entry: SeedEntry, s: nat) {
    s < |sources| && digest(sources[s].url) == entry.sourceDigest
    && forall r :: s < r < |sources| ==> digest(sources[r].url) != entry.sourceDigest
  }

  /** A seed is taken if and only if it has an entry, and no more than there are sources, every entry
      has nodes and the digest of a source's URL, and no two are for the same source ID. */
  lemma SeedIsTakenIff(entries: seq<SeedEntry>, sources: seq<Source>, digest: string -> string)
    ensures SeedIsGood(entries, sources, digest) <==>
      && 0 < |entries| <= |sources|
      && (forall i :: 0 <= i < |entries| ==>
            && entries[i].parsed.Nodes? && entries[i].parsed.nodes != []
            && exists s :: 0 <= s < |sources| && digest(sources[s].url) == entries[i].sourceDigest)
      && (forall i, j, s: nat, t: nat ::
            (0 <= i < j < |entries| && IsFor(sources, digest, entries[i], s) && IsFor(sources, digest, entries[j], t)) ==>
            sources[s].id != sources[t].id)
  {
    var table := TableOf(sources, digest);
    forall i | 0 <= i < |entries|
      ensures entries[i].sourceDigest in table <==> exists s :: 0 <= s < |sources| && digest(sources[s].url) == entries[i].sourceDigest
    {
      DigestIsListed(sources, digest, entries[i].sourceDigest);
    }
    forall i, s: nat | 0 <= i < |entries| && IsFor(sources, digest, entries[i], s)
      ensures entries[i].sourceDigest in table && table[entries[i].sourceDigest] == sources[s].id
    {
      TableHolds(sources, digest, s);
    }
    forall i | 0 <= i < |entries| && entries[i].sourceDigest in table ensures exists s: nat :: IsFor(sources, digest, entries[i], s) {
      var s := TableNames(sources, digest, entries[i].sourceDigest);
      assert IsFor(sources, digest, entries[i], s);
    }
  }

  lemma {:induction false} DigestIsListed(sources: seq<Source>, digest: string -> string, d: string)
    ensures d in TableOf(sources, digest) <==> exists s :: 0 <= s < |sources| && digest(sources[s].url) == d
    decreases |sources|
  {
    if sources != [] {
      var n := |sources| - 1;
      DigestIsListed(sources[..n], digest, d);
      if exists s :: 0 <= s < |sources| && digest(sources[s].url) == d {
        var s :| 0 <= s < |sources| && digest(sources[s].url) == d;
        if s < n { assert sources[..n][s] == sources[s]; }
      } else {
        forall s | 0 <= s < n ensures digest(sources[..n][s].url) != d {
          assert sources[..n][s] == sources[s];
        }
      }
    }
  }

  /** A seed that is taken gives each named source the entry's nodes, tagged with the source, and the
      entry's expiry. */
  lemma SeedIsStored(entries: seq<SeedEntry>, sources: seq<Source>, digest: string -> string, m: State, m': State,
                     i: nat, s: nat)
    requires SeedIsGood(entries, sources, digest) && i < |entries| && s < |sources|
    requires m' == Absorb(m, SeedResults(entries, TableOf(sources, digest)), map[], m'.last.nodes)
    requires digest(sources[s].url) == entries[i].sourceDigest
    requires forall r :: s < r < |sources| ==> digest(sources[r].url) != entries[i].sourceDigest
    ensures entries[i].parsed.Nodes?
    ensures var id, nodes := sources[s].id, entries[i].parsed.nodes;
      && id in m'.bySource && |m'.bySource[id]| == |nodes|
      && (forall k :: 0 <= k < |nodes| ==> m'.bySource[id][k] == nodes[k].(sourceIDs := [id]))
      && id in m'.expiresAt && m'.expiresAt[id] == entries[i].expiresAt
  {
    var table := TableOf(sources, digest);
    var rs, id := SeedResults(entries, table), sources[s].id;
    TableHolds(sources, digest, s);
    assert rs[i] == Result(id, Fetched(entries[i].expiresAt, entries[i].parsed));
    forall j | i < j < |rs| ensures rs[j].source != id {
      assert table[entries[i].sourceDigest] != table[entries[j].sourceDigest];
    }
    NodesInBatch(rs, id);
    ExpiriesInBatch(rs, id);
  }

  /** And it leaves every other source alone, with no error left over. */
  lemma SeedLeavesOthers(entries: seq<SeedEntry>, sources: seq<Source>, digest: string -> string, m: State, m': State,
                         id: string)
    requires SeedIsGood(entries, sources, digest)
    requires m' == Absorb(m, SeedResults(entries, TableOf(sources, digest)), map[], m'.last.nodes)
    requires forall i, s: nat :: 0 <= i < |entries| && IsFor(sources, digest, entries[i], s) ==> sources[s].id != id
    ensures (id in m'.bySource <==> id in m.bySource) && (id in m.bySource ==> m'.bySource[id] == m.bySource[id])
    ensures (id in m'.expiresAt <==> id in m.expiresAt) && (id in m.expiresAt ==> m'.expiresAt[id] == m.expiresAt[id])
    ensures m'.last.sourceErrors == map[] && m'.last.expiresAt == m'.expiresAt
  {
    var table := TableOf(sources, digest);
    var rs := SeedResults(entries, table);
    forall i | 0 <= i < |rs| ensures rs[i].source != id {
      var s := TableNames(sources, digest, entries[i].sourceDigest);
      TableHolds(sources, digest, s);
      assert IsFor(sources, digest, entries[i], s);
    }
    NodesInBatch(rs, id);
    ExpiriesInBatch(rs, id);
  }
}
