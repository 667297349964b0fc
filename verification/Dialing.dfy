/** What one connection's dial does to the registry and the selector when nobody interferes
    (connectionSession.dial of internal/httpproxy/server.go). */
module Dialing {
  import opened Options
  import opened Ordering
  import opened SelectorModel
  import opened AttemptModel
  import opened RegistryModel
  import opened LeaseAccounting
  import opened RegistryRuns
  import Fairness
  import Selectors = SelectorRuns

  /** The offsets the attempt will offer, and the nodes they name. */
  ghost function Offsets(p: Pool, s: Selector): seq<nat> {
    Offers(RoutingSnapshot(p), s.reservationNext, 0)
  }

  ghost function Tries(p: Pool, s: Selector): (ids: seq<string>)
    ensures |ids| == |Offsets(p, s)|
  {
    var cs, ks := RoutingSnapshot(p), Offsets(p, s);
    seq(|ks|, i requires 0 <= i < |ks| => At(cs, s.reservationNext, ks[i]).id)
  }

  /** Without interference a dial tries exactly the live nodes that are healthy or, if no live node
      is, whose gate is free, each once, in the cyclic order of their offsets from the start. */
  lemma TriesAreTheAdmissible(p: Pool, s: Selector)
    requires Ordered(p)
    ensures var ids, ks, n := Tries(p, s), Offsets(p, s), |p.order|;
      && Distinct(ids) && |ks| == |ids| && (forall i, j :: 0 <= i < j < |ks| ==> ks[i] < ks[j])
      && (forall i :: 0 <= i < |ids| ==> ks[i] < n && ids[i] == p.order[(s.reservationNext + ks[i]) % n])
      && (forall id :: id in ids <==>
            && id in p.nodes && !p.nodes[id].removed
            && (p.nodes[id].healthy
                || ((forall other :: other in p.nodes && !p.nodes[other].removed ==> !p.nodes[other].healthy)
                    && !p.nodes[id].probing)))
  {
    TriesAreTheAdmitted(p, s);
    TriesArePlaced(p, s);
    SomeHealthyIsLive(p);
    var ids, ks := Tries(p, s), Offsets(p, s);
    forall i | 0 <= i < |ids| ensures ks[i] < |p.order| && ids[i] == p.order[(s.reservationNext + ks[i]) % |p.order|] {
      IndexIsAbsolute(|p.order|, s.reservationNext, ks[i]);
    }
  }

  lemma TriesAreTheAdmitted(p: Pool, s: Selector)
    requires Ordered(p)
    ensures forall id :: id in Tries(p, s) <==> id in Live(p) && Admissible(p, id)
  {
    TriesArePlaced(p, s);
    forall id | id in Tries(p, s) ensures id in Live(p) && Admissible(p, id) {
      var i :| 0 <= i < |Tries(p, s)| && Tries(p, s)[i] == id;
    }
    forall id | id in Live(p) && Admissible(p, id) ensures id in Tries(p, s) {
      AdmissibleIsTried(p, s, id);
    }
  }

  lemma TriesArePlaced(p: Pool, s: Selector)
    requires Ordered(p)
    ensures var ids, ks := Tries(p, s), Offsets(p, s);
      && Distinct(ids) && (forall i, j :: 0 <= i < j < |ks| ==> ks[i] < ks[j])
      && |RoutingSnapshot(p)| == |p.order|
      && (forall i :: 0 <= i < |ids| ==>
            && ks[i] < |p.order|
            && ids[i] == p.order[Index(|p.order|, s.reservationNext, ks[i])]
            && ids[i] in Live(p) && Admissible(p, ids[i]))
  {
    SnapshotMatchesAdmission(p);
    var ids, ks, cs := Tries(p, s), Offsets(p, s), RoutingSnapshot(p);
    OffersAreTheEligible(cs, s.reservationNext, 0);
    forall i | 0 <= i < |ids|
      ensures ids[i] == p.order[Index(|p.order|, s.reservationNext, ks[i])]
      ensures ids[i] in Live(p) && Admissible(p, ids[i])
    {
      assert ks[i] in ks;
      EligibleMeansAdmissible(p, Index(|p.order|, s.reservationNext, ks[i]));
    }
    SortedIsDistinct(p.order);
    forall i, j | 0 <= i < j < |ids| ensures ids[i] != ids[j] {
      OffsetsNameDistinctPositions(|cs|, s.reservationNext, ks[i], ks[j]);
    }
  }

  lemma EligibleMeansAdmissible(p: Pool, i: nat)
    requires Ordered(p) && i < |p.order|
    ensures |RoutingSnapshot(p)| == |p.order| && RoutingSnapshot(p)[i].id == p.order[i]
    ensures p.order[i] in Live(p) && (RoutingSnapshot(p)[i].eligible <==> Admissible(p, p.order[i]))
    ensures Acquire(p, p.order[i], RoutingSnapshot(p)[i].halfOpen).1.Some? <==> Admissible(p, p.order[i])
  {
    SnapshotMatchesAdmission(p);
    ListingOfLive(p, p.order, !AnyHealthy(p, p.order));
  }

  lemma AdmissibleIsTried(p: Pool, s: Selector, id: string)
    requires Ordered(p) && id in Live(p) && Admissible(p, id)
    ensures id in Tries(p, s)
  {
    var ids, ks, cs := Tries(p, s), Offsets(p, s), RoutingSnapshot(p);
    assert id in Elements(p.order);
    var i :| 0 <= i < |p.order| && p.order[i] == id;
    EligibleMeansAdmissible(p, i);
    var k := OffsetOf(|cs|, s.reservationNext, i);
    OffersAreTheEligible(cs, s.reservationNext, 0);
    assert At(cs, s.reservationNext, k) == cs[i];
    var j :| 0 <= j < |ks| && ks[j] == k;
    assert ids[j] == id;
  }

  /** Acquire would admit the node: it is healthy, or no live node is and its gate is free. */
  ghost predicate Admissible(p: Pool, id: string)
    requires id in p.nodes
  {
    p.nodes[id].healthy || (!AnyHealthy(p, p.order) && !p.nodes[id].probing)
  }

  // ----- the effect on the registry -----

  /** Every node in `ids` marked failed, at its own time. */
  ghost function FailedAll(p: Pool, ids: set<string>, due: string -> nat): Pool {
    p.(nodes := map id | id in p.nodes ::
      if id in ids then p.nodes[id].(healthy := false, failed := true, nextProbe := due(id)) else p.nodes[id])
  }

  /** The node connected: one more lease, marked healthy, gated if it was unhealthy before. */
  ghost function Connected(p: Pool, id: string, due: string -> nat): Pool
    requires id in p.nodes
  {
    var n := p.nodes[id];
    p.(nodes := p.nodes[id := n.(active := n.active + 1, probing := n.probing || !n.healthy,
                                 healthy := true, failed := false, nextProbe := due(id))])
  }

  /** An untried node is admitted as if nothing had been tried, and marking it healthy connects it. */
  lemma OneSuccess(p: Pool, tried: set<string>, id: string, allowUnhealthy: bool, due: string -> nat)
    requires id in p.nodes && id !in tried && Acquire(p, id, allowUnhealthy).1.Some?
    ensures var (q, lease) := Acquire(FailedAll(p, tried, due), id, allowUnhealthy);
      && lease == LeaseOn(p, id)
      && MarkSuccess(q, id, due(id)) == Connected(FailedAll(p, tried, due), id, due)
  {
    var (q, lease) := Acquire(FailedAll(p, tried, due), id, allowUnhealthy);
    assert MarkSuccess(q, id, due(id)).nodes == Connected(FailedAll(p, tried, due), id, due).nodes;
  }

  /** If it fails, marking it and closing its lease leaves only the mark. */
  lemma OneFailure(p: Pool, tried: set<string>, id: string, allowUnhealthy: bool, due: string -> nat)
    requires id in p.nodes && id !in tried && p.nodes[id].active >= 0
    requires Acquire(p, id, allowUnhealthy).1.Some?
    ensures var (q, lease) := Acquire(FailedAll(p, tried, due), id, allowUnhealthy);
      && lease == LeaseOn(p, id)
      && GivenBack(q, lease.value, due(id)) == (FailedAll(p, tried + {id}, due), {})
  {
    var (q, lease) := Acquire(FailedAll(p, tried, due), id, allowUnhealthy);
    assert GivenBack(q, lease.value, due(id)).0.nodes == FailedAll(p, tried + {id}, due).nodes;
  }

  /** How many of `ids` fail before the first one that connects. */
  ghost function Failures(ids: seq<string>, connects: string -> bool): (k: nat)
    ensures k <= |ids|
    ensures forall i :: 0 <= i < k ==> !connects(ids[i])
    ensures k < |ids| ==> connects(ids[k])
  {
    if ids == [] || connects(ids[0]) then 0
    else
      assert forall i :: 1 <= i < |ids| ==> ids[i] == ids[1..][i - 1];
      1 + Failures(ids[1..], connects)
  }

  lemma FailuresIs(ids: seq<string>, connects: string -> bool, k: nat)
    requires k <= |ids| && (forall i :: 0 <= i < k ==> !connects(ids[i])) && (k < |ids| ==> connects(ids[k]))
    ensures Failures(ids, connects) == k
  {
  }

  /** The pool after a dial. */
  ghost function PoolAfter(p: Pool, s: Selector, connects: string -> bool, due: string -> nat): Pool
    requires Ordered(p)
  {
    var ids := Tries(p, s);
    var k := Failures(ids, connects);
    TriesAreTheAdmitted(p, s);
    if k < |ids| then
      assert ids[k] in ids;
      Connected(FailedAll(p, Elements(ids[..k]), due), ids[k], due)
    else FailedAll(p, Elements(ids), due)
  }

  /** The selector after a dial: its ticket is always finished. */
  ghost function SelectorAfter(p: Pool, s: Selector, connects: string -> bool): Selector {
    var ids := Tries(p, s);
    var k := Failures(ids, connects);
    if RoutingSnapshot(p) == [] then s
    else Finish(Reserve(s), s.nextTicket,
           if k < |ids| then Committed(s.reservationNext + Offsets(p, s)[k] + 1) else Aborted)
  }

  /** The outcome of a dial that found no lease pinned: which nodes were tried, the lease it pins
      (none if every node failed), and what registry and selector have become. */
  datatype Outcome = Outcome(tried: seq<string>, lease: Option<Lease>, pool: Pool, selector: Selector)

  ghost function DialOutcome(p: Pool, s: Selector, connects: string -> bool, due: string -> nat): Outcome
    requires Ordered(p)
  {
    var ids := Tries(p, s);
    var k := Failures(ids, connects);
    TriesAreTheAdmitted(p, s);
    var chosen := if k < |ids| then assert ids[k] in ids; LeaseOn(p, ids[k]) else None;
    Outcome(ids[..if k < |ids| then k + 1 else k], chosen, PoolAfter(p, s, connects, due), SelectorAfter(p, s, connects))
  }

  /** The lease Acquire hands out on an admitted node. */
  ghost function LeaseOn(p: Pool, id: string): Option<Lease>
    requires id in p.nodes
  {
    Some(Lease(id, p.nodes[id].dialer, !p.nodes[id].healthy))
  }

  /** The dial tries the nodes up to the first that connects. It adds one lease, on that node, which
      is marked healthy and gated if it was not; the nodes that failed are marked so and keep neither
      lease nor gate of it; all others are as they were. */
  lemma NetLeases(p: Pool, s: Selector, connects: string -> bool, due: string -> nat, k: nat)
    requires Ordered(p) && k <= |Tries(p, s)| && (forall i :: 0 <= i < k ==> !connects(Tries(p, s)[i]))
    requires k < |Tries(p, s)| ==> connects(Tries(p, s)[k])
    ensures forall id :: id in Tries(p, s) ==> id in p.nodes
    ensures var o, ids := DialOutcome(p, s, connects, due), Tries(p, s);
      && o.tried == (if k < |ids| then ids[..k + 1] else ids)
      && o.lease == (if k < |ids| then Some(Lease(ids[k], p.nodes[ids[k]].dialer, !p.nodes[ids[k]].healthy)) else None)
      && o.pool.order == p.order && o.pool.nodes.Keys == p.nodes.Keys
      && (forall id :: id in p.nodes ==>
            var n := p.nodes[id];
            o.pool.nodes[id] ==
            if id in ids[..k] then n.(healthy := false, failed := true, nextProbe := due(id))
            else if k < |ids| && id == ids[k] then
              n.(active := n.active + 1, probing := n.probing || !n.healthy, healthy := true, failed := false,
                 nextProbe := due(id))
            else n)
  {
    var ids := Tries(p, s);
    FailuresIs(ids, connects, k);
    PartsOfOutcome(p, s, connects, due);
    if k < |ids| {
      TriesAreDistinct(p, s);
      NotAmongFirst(ids, k);
      FieldsWhenConnected(p, ids[..k], ids[k], due);
    } else {
      FieldsWhenFailed(p, ids, due);
      assert ids[..|ids|] == ids;
    }
  }

  lemma TriesAreDistinct(p: Pool, s: Selector)
    requires Ordered(p)
    ensures Distinct(Tries(p, s))
  {
    TriesArePlaced(p, s);
  }

  lemma FieldsWhenFailed(p: Pool, failed: seq<string>, due: string -> nat)
    ensures var q := FailedAll(p, Elements(failed), due);
      && q.order == p.order && q.nodes.Keys == p.nodes.Keys
      && (forall id :: id in p.nodes ==>
            q.nodes[id] == if id in failed then p.nodes[id].(healthy := false, failed := true, nextProbe := due(id))
                           else p.nodes[id])
  {
  }

  lemma PartsOfOutcome(p: Pool, s: Selector, connects: string -> bool, due: string -> nat)
    requires Ordered(p)
    ensures forall id :: id in Tries(p, s) ==> id in p.nodes
    ensures var o, ids := DialOutcome(p, s, connects, due), Tries(p, s);
      var k := Failures(ids, connects);
      && o.tried == (if k < |ids| then ids[..k + 1] else ids)
      && o.lease == (if k < |ids| then LeaseOn(p, ids[k]) else None)
      && o.pool == (if k < |ids| then Connected(FailedAll(p, Elements(ids[..k]), due), ids[k], due)
                    else FailedAll(p, Elements(ids), due))
  {
    TriesAreTheAdmitted(p, s);
    assert Tries(p, s)[..|Tries(p, s)|] == Tries(p, s);
  }

  lemma NotAmongFirst(ids: seq<string>, k: nat)
    requires Distinct(ids) && k < |ids|
    ensures ids[k] !in ids[..k]
  {
  }

  lemma FieldsWhenConnected(p: Pool, failed: seq<string>, chosen: string, due: string -> nat)
    requires chosen in p.nodes && chosen !in failed
    ensures var q := Connected(FailedAll(p, Elements(failed), due), chosen, due);
      && q.order == p.order && q.nodes.Keys == p.nodes.Keys
      && (forall id :: id in p.nodes ==>
            var n := p.nodes[id];
            q.nodes[id] ==
            if id in failed then n.(healthy := false, failed := true, nextProbe := due(id))
            else if id == chosen then
              n.(active := n.active + 1, probing := n.probing || !n.healthy, healthy := true, failed := false,
                 nextProbe := due(id))
            else n)
  {
  }

  /** With no other attempt outstanding, the cursor ends just past the chosen node's position, or
      where it was if every node failed; and no ticket is left open. */
  lemma CursorAfterDial(p: Pool, s: Selector, h: History, connects: string -> bool, due: string -> nat, k: nat)
    requires Ordered(p) && Inv(s, h) && Idle(s)
    requires k <= |Tries(p, s)| && (forall i :: 0 <= i < k ==> !connects(Tries(p, s)[i]))
    requires k < |Tries(p, s)| ==> connects(Tries(p, s)[k])
    ensures var s' := DialOutcome(p, s, connects, due).selector;
      && s'.retireTicket == s'.nextTicket && s'.reservationNext == s'.cursor
      && s'.cursor == if k < |Tries(p, s)| then s.cursor + Offsets(p, s)[k] + 1 else s.cursor
  {
    FailuresIs(Tries(p, s), connects, k);
    CursorOfSelector(p, s, h, connects);
  }

  lemma CursorOfSelector(p: Pool, s: Selector, h: History, connects: string -> bool)
    requires Inv(s, h) && Idle(s)
    ensures var k, s' := Failures(Tries(p, s), connects), SelectorAfter(p, s, connects);
      && Idle(s') && s'.reservationNext == s'.cursor
      && s'.cursor == if k < |Tries(p, s)| then s.cursor + Offsets(p, s)[k] + 1 else s.cursor
  {
    var k := Failures(Tries(p, s), connects);
    var s1, h1 := Reserve(s), Reserved(s, h);
    ReserveKeepsInv(s, h);
    if RoutingSnapshot(p) != [] {
      if k < |Tries(p, s)| {
        Fairness.CommitMovesCursor(s1, h1, s.nextTicket, s.cursor + Offsets(p, s)[k] + 1);
      } else {
        FinishKeepsInv(s1, h1, s.nextTicket, Aborted);
        Selectors.AbortedPeriodRestores(s1, h1, s.nextTicket);
      }
    }
  }

  // ----- the failover loop, one candidate at a time -----

  /** The state between two candidates: `tried` have all failed, the rest is still on offer. */
  ghost predicate Trying(p: Pool, s: Selector, connects: string -> bool, due: string -> nat,
                         a: AttemptState, q: Pool, t: Selector, tried: seq<string>)
  {
    var cs, ids := RoutingSnapshot(p), Tries(p, s);
    && a.candidates == cs && a.offset <= |cs| && !a.finished && a.reserved == (cs != [])
    && (cs != [] ==> a.startAbsolute == s.reservationNext && a.ticket == s.nextTicket)
    && t == (if cs == [] then s else Reserve(s))
    && |tried| <= |ids| && tried == ids[..|tried|] && (forall i :: 0 <= i < |tried| ==> !connects(ids[i]))
    && q == FailedAll(p, Elements(tried), due)
    && Offers(cs, s.reservationNext, a.offset) == Offsets(p, s)[|tried|..]
  }

  lemma StartTrying(p: Pool, s: Selector, connects: string -> bool, due: string -> nat, a: AttemptState, t: Selector)
    requires var cs := RoutingSnapshot(p);
      if cs == [] then t == s && a == AttemptState([], 0, 0, false, 0, map[], false)
      else t == Reserve(s) && a == AttemptState(cs, s.reservationNext, s.nextTicket, true, 0, map[], false)
    ensures Trying(p, s, connects, due, a, p, t, [])
  {
    assert FailedAll(p, {}, due).nodes == p.nodes;
  }

  /** No candidate is left: every admissible node failed. */
  lemma NothingLeft(p: Pool, s: Selector, connects: string -> bool, due: string -> nat,
                    a: AttemptState, q: Pool, t: Selector, tried: seq<string>)
    requires Ordered(p) && Trying(p, s, connects, due, a, q, t, tried) && NextOf(a).1.None?
    ensures DialOutcome(p, s, connects, due)
            == Outcome(tried, None, q, if a.reserved then Finish(t, a.ticket, Aborted) else t)
  {
    FailuresIs(Tries(p, s), connects, |tried|);
  }

  /** The candidate Next offers is the next node of Tries, untried, and Acquire would admit it. */
  ghost predicate IsNext(p: Pool, s: Selector, a: AttemptState, tried: seq<string>, allowUnhealthy: bool)
    requires a.offset <= |a.candidates|
  {
    var (a', id) := NextOf(a);
    && id.Some? && |tried| < |Tries(p, s)| && id.value == Tries(p, s)[|tried|] && id.value !in Elements(tried)
    && id.value in a'.returned && a'.returned[id.value] == Offsets(p, s)[|tried|]
    && a'.offset <= |a.candidates|
    && Offers(a.candidates, s.reservationNext, a'.offset) == Offsets(p, s)[|tried| + 1..]
    && id.value in Live(p) && Acquire(p, id.value, allowUnhealthy).1.Some?
  }

  lemma NextIsAdmitted(p: Pool, s: Selector, connects: string -> bool, due: string -> nat,
                       a: AttemptState, q: Pool, t: Selector, tried: seq<string>, allowUnhealthy: bool)
    requires Ordered(p) && Trying(p, s, connects, due, a, q, t, tried) && NextOf(a).1.Some?
    requires forall i :: 0 <= i < |a.candidates| && a.candidates[i].id == NextOf(a).1.value ==>
               allowUnhealthy == a.candidates[i].halfOpen
    ensures IsNext(p, s, a, tried, allowUnhealthy)
    ensures Acquire(q, NextOf(a).1.value, allowUnhealthy).1.Some?
  {
    var ids, ks := Tries(p, s), Offsets(p, s);
    var k := NextOffset(a.candidates, s.reservationNext, a.offset);
    assert ks[|tried|..][0] == k && ks[|tried|..][1..] == ks[|tried| + 1..];
    var i := Index(|a.candidates|, s.reservationNext, k);
    TriesArePlaced(p, s);
    EligibleMeansAdmissible(p, i);
    assert ids[|tried|] == p.order[i];
    assert forall j :: 0 <= j < |tried| ==> tried[j] == ids[j];
    assert a.candidates[i].id == NextOf(a).1.value;
    UntriedIsUnchanged(p, Elements(tried), ids[|tried|], allowUnhealthy, due);
  }

  lemma UntriedIsUnchanged(p: Pool, tried: set<string>, id: string, allowUnhealthy: bool, due: string -> nat)
    requires id !in tried
    ensures Acquire(FailedAll(p, tried, due), id, allowUnhealthy).1 == Acquire(p, id, allowUnhealthy).1
  {
  }

  /** What marking a candidate failed and closing its lease does. */
  ghost function GivenBack(q: Pool, lease: Lease, nextProbe: nat): (Pool, set<nat>) {
    Release(MarkFailure(q, lease.id, true, nextProbe), lease.id, lease.gated)
  }

  /** The candidate fails: it is marked, its lease is given back, and the loop goes on. */
  lemma TryFailed(p: Pool, s: Selector, connects: string -> bool, due: string -> nat,
                  a: AttemptState, q: Pool, t: Selector, tried: seq<string>, allowUnhealthy: bool)
    requires Ordered(p) && Trying(p, s, connects, due, a, q, t, tried) && NextOf(a).1.Some?
    requires !connects(NextOf(a).1.value)
    requires IsNext(p, s, a, tried, allowUnhealthy) && p.nodes[NextOf(a).1.value].active >= 0
    ensures var (a', id) := NextOf(a);
      var (q', lease) := Acquire(q, id.value, allowUnhealthy);
      && lease.Some? && var (r, closing) := GivenBack(q', lease.value, due(id.value));
         closing == {} && Trying(p, s, connects, due, a', r, t, tried + [id.value])
  {
    var id := NextOf(a).1.value;
    FailedOneMore(p, tried, id, allowUnhealthy, due);
    TriedOneMore(Tries(p, s), connects, tried, id);
  }

  lemma TriedOneMore(ids: seq<string>, connects: string -> bool, tried: seq<string>, id: string)
    requires |tried| < |ids| && tried == ids[..|tried|] && id == ids[|tried|] && !connects(id)
    requires forall i :: 0 <= i < |tried| ==> !connects(ids[i])
    ensures tried + [id] == ids[..|tried + [id]|] && forall i :: 0 <= i < |tried + [id]| ==> !connects(ids[i])
  {
  }

  lemma FailedOneMore(p: Pool, tried: seq<string>, id: string, allowUnhealthy: bool, due: string -> nat)
    requires id in p.nodes && id !in Elements(tried) && p.nodes[id].active >= 0
    requires Acquire(p, id, allowUnhealthy).1.Some?
    ensures var (q, lease) := Acquire(FailedAll(p, Elements(tried), due), id, allowUnhealthy);
      lease.Some? && GivenBack(q, lease.value, due(id)) == (FailedAll(p, Elements(tried + [id]), due), {})
  {
    OneFailure(p, Elements(tried), id, allowUnhealthy, due);
    assert Elements(tried + [id]) == Elements(tried) + {id};
  }

  /** The candidate connects: the dial is over. */
  lemma TryConnected(p: Pool, s: Selector, connects: string -> bool, due: string -> nat,
                     a: AttemptState, q: Pool, t: Selector, tried: seq<string>, allowUnhealthy: bool)
    requires Ordered(p) && Trying(p, s, connects, due, a, q, t, tried) && NextOf(a).1.Some?
    requires connects(NextOf(a).1.value)
    requires IsNext(p, s, a, tried, allowUnhealthy)
    ensures var (a', id) := NextOf(a);
      var (q', lease) := Acquire(q, id.value, allowUnhealthy);
      && lease == LeaseOn(p, id.value)
      && a.reserved
      && DialOutcome(p, s, connects, due)
         == Outcome(tried + [id.value], lease, MarkSuccess(q', id.value, due(id.value)),
                    Finish(t, a.ticket, Committed(a.startAbsolute + a'.returned[id.value] + 1)))
  {
    DialEnds(p, s, connects, due, tried, NextOf(a).1.value, allowUnhealthy);
  }

  lemma DialEnds(p: Pool, s: Selector, connects: string -> bool, due: string -> nat,
                 tried: seq<string>, id: string, allowUnhealthy: bool)
    requires Ordered(p) && |tried| < |Tries(p, s)| && tried == Tries(p, s)[..|tried|] && id == Tries(p, s)[|tried|]
    requires connects(id) && forall i :: 0 <= i < |tried| ==> !connects(Tries(p, s)[i])
    requires id in p.nodes && id !in Elements(tried) && Acquire(p, id, allowUnhealthy).1.Some?
    ensures var (q, lease) := Acquire(FailedAll(p, Elements(tried), due), id, allowUnhealthy);
      && lease == LeaseOn(p, id) && RoutingSnapshot(p) != []
      && DialOutcome(p, s, connects, due)
         == Outcome(tried + [id], lease, MarkSuccess(q, id, due(id)),
                    Finish(Reserve(s), s.nextTicket, Committed(s.reservationNext + Offsets(p, s)[|tried|] + 1)))
  {
    OneSuccess(p, Elements(tried), id, allowUnhealthy, due);
    FailuresIs(Tries(p, s), connects, |tried|);
    OutcomeWhenConnected(p, s, connects, due, |tried|);
  }

  lemma OutcomeWhenConnected(p: Pool, s: Selector, connects: string -> bool, due: string -> nat, k: nat)
    requires Ordered(p) && k < |Tries(p, s)| && Failures(Tries(p, s), connects) == k
    ensures var id := Tries(p, s)[k];
      && RoutingSnapshot(p) != [] && id in p.nodes
      && DialOutcome(p, s, connects, due) == Outcome(Tries(p, s)[..k] + [id], LeaseOn(p, id),
           Connected(FailedAll(p, Elements(Tries(p, s)[..k]), due), id, due),
           Finish(Reserve(s), s.nextTicket, Committed(s.reservationNext + Offsets(p, s)[k] + 1)))
  {
    TriesArePlaced(p, s);
    PoolWhenConnected(p, s, connects, due, k);
    SelectorWhenConnected(p, s, connects, k);
    PrefixGrows(Tries(p, s), k);
  }

  lemma PrefixGrows<T>(ts: seq<T>, k: nat)
    requires k < |ts|
    ensures ts[..k + 1] == ts[..k] + [ts[k]]
  {
  }

  lemma PoolWhenConnected(p: Pool, s: Selector, connects: string -> bool, due: string -> nat, k: nat)
    requires Ordered(p) && k < |Tries(p, s)| && Failures(Tries(p, s), connects) == k
    ensures var id := Tries(p, s)[k];
      id in p.nodes && PoolAfter(p, s, connects, due) == Connected(FailedAll(p, Elements(Tries(p, s)[..k]), due), id, due)
  {
    TriesArePlaced(p, s);
  }

  lemma SelectorWhenConnected(p: Pool, s: Selector, connects: string -> bool, k: nat)
    requires k < |Tries(p, s)| && Failures(Tries(p, s), connects) == k
    ensures RoutingSnapshot(p) != []
    ensures SelectorAfter(p, s, connects)
            == Finish(Reserve(s), s.nextTicket, Committed(s.reservationNext + Offsets(p, s)[k] + 1))
  {
  }

  // ----- one turn of the failover loop -----

  /** How a turn ends. */
  datatype Step = Exhausted | Failed | Connected

  /** What a turn does: the node it dialed, if any, the lease it pins, if any, and the dialers that
      closing a lease closed. */
  datatype Turn = Turn(step: Step, dialed: Option<string>, lease: Option<Lease>, closing: set<nat>,
                       attempt: AttemptState, pool: Pool, selector: Selector)

  /** The turn over an offered node. */
  ghost function TakeOffer(a: AttemptState, q: Pool, t: Selector, id: string, allowUnhealthy: bool,
                           connects: bool, nextProbe: nat): Turn
  {
    var (q', lease) := Acquire(q, id, allowUnhealthy);
    if lease.None? then Turn(Failed, None, None, {}, a, q', t)
    else if connects then
      var (ended, t') := CommitOf(a, t, id);
      Turn(Step.Connected, Some(id), lease, {}, ended, MarkSuccess(q', id, nextProbe), t')
    else
      var (r, closing) := GivenBack(q', lease.value, nextProbe);
      Turn(Failed, Some(id), None, closing, a, r, t)
  }

  /** The turn after Next has answered: `a` is the attempt by then. */
  ghost function TurnAfter(a: AttemptState, id: Option<string>, q: Pool, t: Selector, halfOpen: map<string, bool>,
                           connects: string -> bool, due: string -> nat): Turn
    requires id.Some? ==> id.value in halfOpen
  {
    if id.None? then
      var (ended, t') := AbortOf(a, t);
      Turn(Exhausted, None, None, {}, ended, q, t')
    else TakeOffer(a, q, t, id.value, halfOpen[id.value], connects(id.value), due(id.value))
  }

  ghost function TakeTurn(a: AttemptState, q: Pool, t: Selector, halfOpen: map<string, bool>,
                          connects: string -> bool, due: string -> nat): Turn
    requires a.offset <= |a.candidates| && forall c :: c in a.candidates ==> c.id in halfOpen
  {
    OffersAreCandidates(a);
    TurnAfter(NextOf(a).0, NextOf(a).1, q, t, halfOpen, connects, due)
  }

  lemma OffersAreCandidates(a: AttemptState)
    requires a.offset <= |a.candidates|
    ensures NextOf(a).1.Some? ==> exists c :: c in a.candidates && c.id == NextOf(a).1.value
  {
    if NextOf(a).1.Some? {
      assert At(a.candidates, a.startAbsolute, NextOffset(a.candidates, a.startAbsolute, a.offset)) in a.candidates;
    }
  }

  /** Where the loop is after a turn: still trying, or done with the dial's outcome. */
  ghost predicate InLoop(p: Pool, s: Selector, connects: string -> bool, due: string -> nat, step: Step,
                         lease: Option<Lease>, a: AttemptState, q: Pool, t: Selector, tried: seq<string>)
    requires Ordered(p)
  {
    if step.Failed? then lease.None? && Trying(p, s, connects, due, a, q, t, tried)
    else (step.Connected? <==> lease.Some?) && DialOutcome(p, s, connects, due) == Outcome(tried, lease, q, t)
  }

  ghost function TriedAfter(tried: seq<string>, turn: Turn): seq<string> {
    if turn.dialed.Some? then tried + [turn.dialed.value] else tried
  }

  /** The turn dials the next node, and leaves the loop going or ends it with the dial's outcome. */
  ghost predicate KeepsTrying(p: Pool, s: Selector, connects: string -> bool, due: string -> nat,
                              a: AttemptState, tried: seq<string>, turn: Turn)
    requires Ordered(p)
  {
    && turn.closing == {} && (turn.step.Exhausted? <==> turn.dialed.None?)
    && (turn.step.Failed? ==> turn.attempt.offset > a.offset)
    && InLoop(p, s, connects, due, turn.step, turn.lease, turn.attempt, turn.pool, turn.selector, TriedAfter(tried, turn))
  }

  lemma TurnExhausts(p: Pool, s: Selector, connects: string -> bool, due: string -> nat,
                     a: AttemptState, q: Pool, t: Selector, tried: seq<string>, halfOpen: map<string, bool>)
    requires Ordered(p) && (forall c :: c in a.candidates ==> c.id in halfOpen)
    requires Trying(p, s, connects, due, a, q, t, tried) && NextOf(a).1.None?
    ensures KeepsTrying(p, s, connects, due, a, tried, TakeTurn(a, q, t, halfOpen, connects, due))
  {
    NothingLeft(p, s, connects, due, a, q, t, tried);
  }

  lemma TurnFails(p: Pool, s: Selector, connects: string -> bool, due: string -> nat,
                  a: AttemptState, q: Pool, t: Selector, tried: seq<string>, halfOpen: map<string, bool>)
    requires Ordered(p) && (forall id :: id in p.nodes ==> p.nodes[id].active >= 0)
    requires forall c :: c in a.candidates ==> c.id in halfOpen
    requires Trying(p, s, connects, due, a, q, t, tried) && NextOf(a).1.Some? && NextOf(a).1.value in halfOpen
    requires !connects(NextOf(a).1.value) && IsNext(p, s, a, tried, halfOpen[NextOf(a).1.value])
    ensures KeepsTrying(p, s, connects, due, a, tried, TakeTurn(a, q, t, halfOpen, connects, due))
  {
    TryFailed(p, s, connects, due, a, q, t, tried, halfOpen[NextOf(a).1.value]);
  }

  lemma TurnConnects(p: Pool, s: Selector, connects: string -> bool, due: string -> nat,
                     a: AttemptState, q: Pool, t: Selector, tried: seq<string>, halfOpen: map<string, bool>)
    requires Ordered(p) && (forall c :: c in a.candidates ==> c.id in halfOpen)
    requires Trying(p, s, connects, due, a, q, t, tried) && NextOf(a).1.Some? && NextOf(a).1.value in halfOpen
    requires connects(NextOf(a).1.value) && IsNext(p, s, a, tried, halfOpen[NextOf(a).1.value])
    ensures KeepsTrying(p, s, connects, due, a, tried, TakeTurn(a, q, t, halfOpen, connects, due))
  {
    TryConnected(p, s, connects, due, a, q, t, tried, halfOpen[NextOf(a).1.value]);
    ConnectedTurn(a, q, t, halfOpen, connects, due);
  }

  lemma ConnectedTurn(a: AttemptState, q: Pool, t: Selector, halfOpen: map<string, bool>,
                      connects: string -> bool, due: string -> nat)
    requires a.offset <= |a.candidates| && (forall c :: c in a.candidates ==> c.id in halfOpen)
    requires a.reserved && !a.finished && NextOf(a).1.Some? && NextOf(a).1.value in halfOpen
    requires connects(NextOf(a).1.value) && Acquire(q, NextOf(a).1.value, halfOpen[NextOf(a).1.value]).1.Some?
    ensures var (a', id) := NextOf(a);
      var (q', lease) := Acquire(q, id.value, halfOpen[id.value]);
      && id.value in a'.returned
      && TakeTurn(a, q, t, halfOpen, connects, due)
         == Turn(Step.Connected, id, lease, {}, a'.(finished := true), MarkSuccess(q', id.value, due(id.value)),
                 Finish(t, a.ticket, Committed(a.startAbsolute + a'.returned[id.value] + 1)))
  {
    OffersAreCandidates(a);
  }

  /** Every turn of a dial that nobody interferes with is of this kind. */
  lemma TurnKeepsTrying(p: Pool, s: Selector, connects: string -> bool, due: string -> nat,
                        a: AttemptState, q: Pool, t: Selector, tried: seq<string>, halfOpen: map<string, bool>)
    requires Ordered(p) && forall id :: id in p.nodes ==> p.nodes[id].active >= 0
    requires forall c :: c in a.candidates ==> c.id in halfOpen && halfOpen[c.id] == c.halfOpen
    requires Trying(p, s, connects, due, a, q, t, tried)
    ensures KeepsTrying(p, s, connects, due, a, tried, TakeTurn(a, q, t, halfOpen, connects, due))
  {
    var id := NextOf(a).1;
    if id.None? {
      TurnExhausts(p, s, connects, due, a, q, t, tried, halfOpen);
    } else {
      OffersAreCandidates(a);
      NextIsAdmitted(p, s, connects, due, a, q, t, tried, halfOpen[id.value]);
      if connects(id.value) {
        TurnConnects(p, s, connects, due, a, q, t, tried, halfOpen);
      } else {
        TurnFails(p, s, connects, due, a, q, t, tried, halfOpen);
      }
    }
  }

  // ----- what a turn does in any state -----

  /** A turn gives up exactly when no eligible candidate is left, aborting its ticket. */
  lemma TurnGivesUpIff(a: AttemptState, q: Pool, t: Selector, halfOpen: map<string, bool>,
                       connects: string -> bool, due: string -> nat)
    requires a.offset <= |a.candidates| && (forall c :: c in a.candidates ==> c.id in halfOpen) && !a.finished
    ensures var turn := TakeTurn(a, q, t, halfOpen, connects, due);
      && (turn.step.Exhausted? <==>
            forall k :: a.offset <= k < |a.candidates| ==> !At(a.candidates, a.startAbsolute, k).eligible)
      && (turn.step.Exhausted? ==>
            turn == Turn(Exhausted, None, None, {}, a.(offset := |a.candidates|, finished := a.reserved), q,
                         if a.reserved then Finish(t, a.ticket, Aborted) else t))
  {
    NextEndsIff(a);
  }

  /** Otherwise the first eligible candidate from the offset on is passed. If its node is gone, being
      removed, or unhealthy and either gated or not offered half-open, it is skipped: nothing is
      dialed, pool and selector stay, and the attempt goes on past it. If it connects it is marked
      healthy, leased and pinned, and its position is committed. If it fails it is marked so and keeps
      neither lease nor gate. */
  lemma TurnTriesFirstLeft(a: AttemptState, q: Pool, t: Selector, halfOpen: map<string, bool>,
                           connects: string -> bool, due: string -> nat, k: nat)
    requires (forall c :: c in a.candidates ==> c.id in halfOpen) && !a.finished && a.reserved
    requires a.offset <= k < |a.candidates| && At(a.candidates, a.startAbsolute, k).eligible
    requires forall j :: a.offset <= j < k ==> !At(a.candidates, a.startAbsolute, j).eligible
    requires forall id :: id in q.nodes ==> q.nodes[id].active >= 0
    ensures var id := At(a.candidates, a.startAbsolute, k).id;
      var a' := a.(offset := k + 1, returned := a.returned[id := k]);
      && id in halfOpen
      && TakeTurn(a, q, t, halfOpen, connects, due) ==
      if id !in q.nodes || q.nodes[id].removed
         || (!q.nodes[id].healthy && (q.nodes[id].probing || !halfOpen[id])) then
        Turn(Failed, None, None, {}, a', q, t)
      else if connects(id) then
        var n := q.nodes[id];
        Turn(Step.Connected, Some(id), Some(Lease(id, n.dialer, !n.healthy)), {}, a'.(finished := true),
             q.(nodes := q.nodes[id := n.(active := n.active + 1, probing := n.probing || !n.healthy,
                                          healthy := true, failed := false, nextProbe := due(id))]),
             Finish(t, a.ticket, Committed(a.startAbsolute + k + 1)))
      else
        Turn(Failed, Some(id), None, {}, a',
             q.(nodes := q.nodes[id := q.nodes[id].(healthy := false, failed := true, nextProbe := due(id))]), t)
  {
    var id := At(a.candidates, a.startAbsolute, k).id;
    assert At(a.candidates, a.startAbsolute, k) in a.candidates;
    NextOffersFirstLeft(a, k);
    OfferSettled(a.(offset := k + 1, returned := a.returned[id := k]), q, t, id, halfOpen[id], connects(id), due(id));
  }

  lemma OfferSettled(a: AttemptState, q: Pool, t: Selector, id: string, allowUnhealthy: bool, connects: bool, nextProbe: nat)
    requires !a.finished && a.reserved && id in a.returned && (id in q.nodes ==> q.nodes[id].active >= 0)
    ensures TakeOffer(a, q, t, id, allowUnhealthy, connects, nextProbe) ==
      if id !in q.nodes || q.nodes[id].removed || (!q.nodes[id].healthy && (q.nodes[id].probing || !allowUnhealthy)) then
        Turn(Failed, None, None, {}, a, q, t)
      else if connects then
        var n := q.nodes[id];
        Turn(Step.Connected, Some(id), Some(Lease(id, n.dialer, !n.healthy)), {}, a.(finished := true),
             q.(nodes := q.nodes[id := n.(active := n.active + 1, probing := n.probing || !n.healthy,
                                          healthy := true, failed := false, nextProbe := nextProbe)]),
             Finish(t, a.ticket, Committed(a.startAbsolute + a.returned[id] + 1)))
      else
        Turn(Failed, Some(id), None, {}, a,
             q.(nodes := q.nodes[id := q.nodes[id].(healthy := false, failed := true, nextProbe := nextProbe)]), t)
  {
    if id in q.nodes && !q.nodes[id].removed && (q.nodes[id].healthy || (!q.nodes[id].probing && allowUnhealthy)) {
      var (q', lease) := Acquire(q, id, allowUnhealthy);
      if connects {
        assert MarkSuccess(q', id, nextProbe).nodes == q.nodes[id := q.nodes[id].(active := q.nodes[id].active + 1,
          probing := q.nodes[id].probing || !q.nodes[id].healthy, healthy := true, failed := false, nextProbe := nextProbe)];
      } else {
        assert GivenBack(q', lease.value, nextProbe).0.nodes
               == q.nodes[id := q.nodes[id].(healthy := false, failed := true, nextProbe := nextProbe)];
      }
    }
  }
}
