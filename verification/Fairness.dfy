/** How evenly the selector serves the nodes: concurrent attempts that each keep their first
    node, and one attempt at a time over a fixed eligibility mask. */
module Fairness {
  import opened Ordering
  import opened Options
  import opened SelectorModel
  import opened AttemptModel
  import opened SelectorRuns

  // ----- concurrent attempts that each keep their first node -----

  /** Every report so far commits the attempt's first offer, one past its start. */
  ghost predicate KeepsFirst(h: History) {
    forall t :: t in h.outcomes && t < |h.starts| ==> h.outcomes[t] == Committed(h.starts[t] + 1)
  }

  ghost predicate InStep(s: Selector, h: History) {
    && s.cursor == s.retireTicket && h.epoch == h.base
    && (forall t :: 0 <= t < |h.starts| ==> h.starts[t] == t)
  }

  lemma StepKeepsInStep(s: Selector, h: History, event: Event)
    requires Inv(s, h) && InStep(s, h)
    requires event.Reported? ==> Outstanding(s, h, event.ticket)
    requires KeepsFirst(Step(s, h, event).1)
    ensures InStep(Step(s, h, event).0, Step(s, h, event).1)
  {
    var (s', h') := Step(s, h, event);
    if event.Reported? {
      FinishKeepsInv(s, h, event.ticket, event.outcome);
      assert s'.cursor <= s'.retireTicket;
      if s'.retireTicket > 0 {
        assert h'.outcomes[s'.retireTicket - 1] == Committed(s'.retireTicket);
      }
    }
  }

  /** In every interleaving the start an attempt gets is its ticket number. */
  lemma {:induction false} StartsAreTickets(events: seq<Event>)
    requires Legal(events) && KeepsFirst(Play(events).1)
    ensures InStep(Play(events).0, Play(events).1)
  {
    if events != [] {
      var n := |events| - 1;
      var (s, h) := Play(events[..n]);
      RunsKeepInv(events[..n]);
      assert KeepsFirst(h) by {
        var h' := Play(events).1;
        forall t | t in h.outcomes && t < |h.starts| ensures h.outcomes[t] == Committed(h.starts[t] + 1) {
          assert t in h'.outcomes && h'.starts[t] == h.starts[t];
        }
      }
      StartsAreTickets(events[..n]);
      StepKeepsInStep(s, h, events[n]);
    }
  }

  /** The tickets below k whose first offer over n all-eligible candidates is position i. */
  ghost function Served(starts: seq<nat>, n: nat, k: nat, i: nat): set<nat>
    requires n > 0 && k <= |starts|
  {
    set t | 0 <= t < k && Index(n, starts[t], 0) == i
  }

  lemma ServedByResidue(starts: seq<nat>, n: nat, k: nat, i: nat)
    requires n > 0 && k <= |starts|
    ensures Served(starts, n, k, i) == set t | 0 <= t < k && starts[t] % n == i
  {
    forall t | 0 <= t < k ensures Index(n, starts[t], 0) == starts[t] % n {
      IndexIsAbsolute(n, starts[t], 0);
    }
  }

  lemma {:induction false} ResidueCount(starts: seq<nat>, n: nat, k: nat, i: nat)
    requires i < n && k <= |starts| && forall t :: 0 <= t < |starts| ==> starts[t] == t
    ensures |Served(starts, n, k, i)| == Share(n, k, i)
    decreases k
  {
    if k == 0 {
      assert Served(starts, n, 0, i) == {};
    } else {
      ResidueCount(starts, n, k - 1, i);
      OneMoreTicket(starts, n, k - 1, i);
      NextShare(n, k - 1, i);
    }
  }

  /** What position i is due out of k tickets. */
  ghost function Share(n: nat, k: nat, i: nat): nat
    requires n > 0
  {
    k / n + (if i < k % n then 1 else 0)
  }

  lemma NextShare(n: nat, t: nat, i: nat)
    requires i < n
    ensures Share(n, t + 1, i) == Share(n, t, i) + (if t % n == i then 1 else 0)
  {
    NextQuotient(n, t);
  }

  lemma OneMoreTicket(starts: seq<nat>, n: nat, t: nat, i: nat)
    requires i < n && t < |starts| && starts[t] == t
    ensures |Served(starts, n, t + 1, i)| == |Served(starts, n, t, i)| + (if t % n == i then 1 else 0)
  {
    IndexIsAbsolute(n, starts[t], 0);
    if t % n == i {
      assert Served(starts, n, t + 1, i) == Served(starts, n, t, i) + {t};
    } else {
      assert Served(starts, n, t + 1, i) == Served(starts, n, t, i);
    }
  }

  lemma NextQuotient(n: nat, t: nat)
    requires n > 0
    ensures if t % n == n - 1 then (t + 1) % n == 0 && (t + 1) / n == t / n + 1
            else (t + 1) % n == t % n + 1 && (t + 1) / n == t / n
  {
    assert t == n * (t / n) + t % n;
    if t % n == n - 1 {
      RemainderIsUnique(n, t + 1, t / n + 1, 0);
    } else {
      RemainderIsUnique(n, t + 1, t / n, t % n + 1);
    }
  }

  /** Over n candidates that are all eligible for every attempt, and attempts that each keep
      their first node, the first k tickets serve each node floor(k/n) or ceil(k/n) times,
      whatever the interleaving. */
  lemma ConcurrentAttemptsAreFair(events: seq<Event>, n: nat, k: nat, i: nat)
    requires Legal(events) && KeepsFirst(Play(events).1)
    requires i < n && k <= |Play(events).1.starts|
    ensures var starts := Play(events).1.starts;
      var picks := |set t | 0 <= t < k && starts[t] % n == i|;
      picks == k / n || (k % n > 0 && picks == k / n + 1)
  {
    StartsAreTickets(events);
    ServedByResidue(Play(events).1.starts, n, k, i);
    ResidueCount(Play(events).1.starts, n, k, i);
  }

  /** With every candidate eligible the first offer is the one at the start itself. */
  lemma FirstOfferIsTheStart(candidates: seq<Candidate>, startAbsolute: nat, ticket: nat)
    requires candidates != [] && forall i :: 0 <= i < |candidates| ==> candidates[i].eligible
    ensures var (a, id) := NextOf(AttemptState(candidates, startAbsolute, ticket, true, 0, map[], false));
      && id == Some(candidates[startAbsolute % |candidates|].id)
      && a.returned == map[id.value := 0]
  {
    IndexIsAbsolute(|candidates|, startAbsolute, 0);
  }

  // ----- one attempt at a time -----

  ghost predicate SomeEligible(candidates: seq<Candidate>) {
    exists i :: 0 <= i < |candidates| && candidates[i].eligible
  }

  ghost predicate EligibleAt(candidates: seq<Candidate>, position: nat)
    requires candidates != []
  {
    candidates[position % |candidates|].eligible
  }

  /** An idle selector serves one connection: Begin, Next, and Commit of the node Next offered. */
  ghost function ServeOne(s: Selector, candidates: seq<Candidate>): (Selector, Option<string>) {
    if candidates == [] then (s, None)
    else
      var a := AttemptState(candidates, s.reservationNext, s.nextTicket, true, 0, map[], false);
      var (a', id) := NextOf(a);
      match id
      case None => (Finish(Reserve(s), a.ticket, Aborted), None)
      case Some(node) => (Finish(Reserve(s), a.ticket, Committed(a.startAbsolute + a'.returned[node] + 1)), id)
  }

  /** The first eligible absolute position from `from` on. */
  ghost function NextPosition(candidates: seq<Candidate>, from: nat): nat {
    from + NextOffset(candidates, from, 0)
  }

  lemma NextPositionIsFirstEligible(candidates: seq<Candidate>, from: nat)
    requires SomeEligible(candidates)
    ensures var p := NextPosition(candidates, from);
      && from <= p < from + |candidates| && EligibleAt(candidates, p)
      && candidates[p % |candidates|] == At(candidates, from, p - from)
      && (forall q :: from <= q < p ==> !EligibleAt(candidates, q))
  {
    var n := |candidates|;
    var i :| 0 <= i < n && candidates[i].eligible;
    var k := OffsetOf(n, from, i);
    assert At(candidates, from, k).eligible;
    var p := NextPosition(candidates, from);
    IndexIsAbsolute(n, from, p - from);
    forall q | from <= q < p ensures !EligibleAt(candidates, q) {
      IndexIsAbsolute(n, from, q - from);
      assert !At(candidates, from, q - from).eligible;
    }
  }

  lemma ServedIsCommitted(s: Selector, candidates: seq<Candidate>)
    requires SomeEligible(candidates) && s.reservationNext == s.cursor
    ensures var p := NextPosition(candidates, s.cursor);
      ServeOne(s, candidates)
      == (Finish(Reserve(s), s.nextTicket, Committed(p + 1)), Some(candidates[p % |candidates|].id))
  {
    NextPositionIsFirstEligible(candidates, s.cursor);
  }

  /** A selector with nothing outstanding: only its cursor and its ticket count are left. */
  ghost function AtRest(cursor: nat, tickets: nat): Selector {
    Selector(cursor, cursor, tickets, tickets, map[])
  }

  lemma IdleIsAtRest(s: Selector, h: History)
    requires Inv(s, h) && Idle(s)
    ensures s == AtRest(s.cursor, s.nextTicket)
  {
    assert s.results == map[];
  }

  /** One service moves the cursor just past the first eligible position from where it stood,
      and leaves the selector at rest again. */
  lemma ServeOneAdvances(cursor: nat, tickets: nat, candidates: seq<Candidate>)
    requires SomeEligible(candidates)
    ensures var p := NextPosition(candidates, cursor);
      ServeOne(AtRest(cursor, tickets), candidates)
      == (AtRest(p + 1, tickets + 1), Some(candidates[p % |candidates|].id))
  {
    ServedIsCommitted(AtRest(cursor, tickets), candidates);
    OnlyCommit(cursor, tickets, NextPosition(candidates, cursor) + 1);
  }

  lemma OnlyCommit(cursor: nat, tickets: nat, target: nat)
    requires cursor < target
    ensures Finish(Reserve(AtRest(cursor, tickets)), tickets, Committed(target)) == AtRest(target, tickets + 1)
  {
    var parked := Reserve(AtRest(cursor, tickets)).(results := map[tickets := Committed(target)]);
    var retired := RetireOne(parked);
    assert retired.results == map[];
    assert Retire(parked) == Retire(retired) == retired;
  }

  /** The only outstanding attempt commits: the cursor becomes its target if that is ahead. */
  lemma CommitMovesCursor(s: Selector, h: History, ticket: nat, target: nat)
    requires Inv(s, h) && Outstanding(s, h, ticket) && s.cursor <= target
    requires forall t: nat :: t < s.nextTicket && t != ticket ==> t in h.outcomes
    ensures Idle(Finish(s, ticket, Committed(target)))
    ensures s.retireTicket == ticket && s.nextTicket == ticket + 1 ==>
      Finish(s, ticket, Committed(target)).cursor == target
  {
    FinishKeepsInv(s, h, ticket, Committed(target));
    var s' := Finish(s, ticket, Committed(target));
    var h' := Finished(s, h, ticket, Committed(target));
    assert s'.retireTicket in h'.outcomes || s'.retireTicket == s'.nextTicket;
    if s.retireTicket == ticket && s.nextTicket == ticket + 1 {
      assert h'.outcomes[ticket] == Committed(target);
    }
  }

  /** The absolute positions m services in a row commit, from cursor value `from`. */
  ghost function Positions(candidates: seq<Candidate>, from: nat, m: nat): (ps: seq<nat>)
    ensures |ps| == m
    decreases m
  {
    if m == 0 then []
    else
      var p := NextPosition(candidates, from);
      [p] + Positions(candidates, p + 1, m - 1)
  }

  /** The nodes m services in a row hand out, and the selector afterwards. */
  ghost function ServeMany(s: Selector, candidates: seq<Candidate>, m: nat): (Selector, seq<Option<string>>)
    decreases m
  {
    if m == 0 then (s, [])
    else
      var (s1, id) := ServeOne(s, candidates);
      var (s', ids) := ServeMany(s1, candidates, m - 1);
      (s', [id] + ids)
  }

  /** The nodes of the next m eligible positions. */
  ghost function Cycle(candidates: seq<Candidate>, from: nat, m: nat): seq<Option<string>>
    requires candidates != []
    decreases m
  {
    if m == 0 then []
    else
      var p := NextPosition(candidates, from);
      [Some(candidates[p % |candidates|].id)] + Cycle(candidates, p + 1, m - 1)
  }

  lemma {:induction false} CycleIsPositions(candidates: seq<Candidate>, from: nat, m: nat)
    requires candidates != []
    ensures var ids, ps := Cycle(candidates, from, m), Positions(candidates, from, m);
      && |ids| == m
      && (forall i :: 0 <= i < m ==> ids[i] == Some(candidates[ps[i] % |candidates|].id))
    decreases m
  {
    if m > 0 {
      CycleIsPositions(candidates, NextPosition(candidates, from) + 1, m - 1);
    }
  }

  lemma {:induction false} ServicesFromRest(cursor: nat, tickets: nat, candidates: seq<Candidate>, m: nat)
    requires SomeEligible(candidates)
    ensures ServeMany(AtRest(cursor, tickets), candidates, m).1 == Cycle(candidates, cursor, m)
    decreases m
  {
    if m > 0 {
      ServeOneAdvances(cursor, tickets, candidates);
      ServicesFromRest(NextPosition(candidates, cursor) + 1, tickets + 1, candidates, m - 1);
    }
  }

  /** Consecutive services commit the cyclic traversal of the eligible nodes. */
  lemma ServiceFollowsTheCycle(s: Selector, h: History, candidates: seq<Candidate>, m: nat)
    requires Inv(s, h) && Idle(s) && SomeEligible(candidates)
    ensures var ids, ps := ServeMany(s, candidates, m).1, Positions(candidates, s.cursor, m);
      && |ids| == m
      && (forall i :: 0 <= i < m ==> ids[i] == Some(candidates[ps[i] % |candidates|].id))
  {
    IdleIsAtRest(s, h);
    ServicesFromRest(s.cursor, s.nextTicket, candidates, m);
    CycleIsPositions(candidates, s.cursor, m);
  }

  ghost function EligibleIn(candidates: seq<Candidate>, from: nat, upto: nat): set<nat>
    requires candidates != []
  {
    set p | from <= p < upto && EligibleAt(candidates, p)
  }

  lemma WindowWithoutFirst(candidates: seq<Candidate>, from: nat, upto: nat)
    requires SomeEligible(candidates) && EligibleIn(candidates, from, upto) != {}
    ensures var p := NextPosition(candidates, from);
      && p in EligibleIn(candidates, from, upto)
      && EligibleIn(candidates, p + 1, upto) == EligibleIn(candidates, from, upto) - {p}
      && |EligibleIn(candidates, p + 1, upto)| == |EligibleIn(candidates, from, upto)| - 1
  {
    NextPositionIsFirstEligible(candidates, from);
    var p := NextPosition(candidates, from);
    var window := EligibleIn(candidates, from, upto);
    var q :| q in window;
    assert p <= q;
    assert EligibleIn(candidates, p + 1, upto) == window - {p};
  }

  /** As many services as a window has eligible positions commit exactly those positions. */
  lemma {:induction false} PositionsFillWindow(candidates: seq<Candidate>, from: nat, upto: nat, m: nat)
    requires SomeEligible(candidates) && m == |EligibleIn(candidates, from, upto)|
    ensures var ps := Positions(candidates, from, m);
      && (forall i, j :: 0 <= i < j < m ==> ps[i] < ps[j])
      && Elements(ps) == EligibleIn(candidates, from, upto)
    decreases m
  {
    if m > 0 {
      WindowWithoutFirst(candidates, from, upto);
      var p := NextPosition(candidates, from);
      PositionsFillWindow(candidates, p + 1, upto, m - 1);
      PrependSmallest(Positions(candidates, from, m), p, Positions(candidates, p + 1, m - 1),
                      EligibleIn(candidates, from, upto), EligibleIn(candidates, p + 1, upto));
    }
  }

  lemma PrependSmallest(ps: seq<nat>, p: nat, tail: seq<nat>, window: set<nat>, rest: set<nat>)
    requires ps == [p] + tail && Elements(tail) == rest && p in window && rest == window - {p}
    requires forall x :: x in rest ==> p < x
    requires forall i, j :: 0 <= i < j < |tail| ==> tail[i] < tail[j]
    ensures Elements(ps) == window && forall i, j :: 0 <= i < j < |ps| ==> ps[i] < ps[j]
  {
    Prepend(p, tail);
  }

  lemma Prepend(p: nat, tail: seq<nat>)
    requires forall x :: x in Elements(tail) ==> p < x
    requires forall i, j :: 0 <= i < j < |tail| ==> tail[i] < tail[j]
    ensures var ps := [p] + tail;
      Elements(ps) == {p} + Elements(tail) && forall i, j :: 0 <= i < j < |ps| ==> ps[i] < ps[j]
  {
    assert forall i :: 0 <= i < |tail| ==> tail[i] in Elements(tail);
  }

  ghost function EligibleNodes(candidates: seq<Candidate>): set<nat> {
    set i | 0 <= i < |candidates| && candidates[i].eligible
  }

  /** Every window as long as the list holds as many eligible positions as there are eligible nodes. */
  lemma {:induction false} WindowsAreEqual(candidates: seq<Candidate>, from: nat)
    requires candidates != []
    ensures |EligibleIn(candidates, from, from + |candidates|)| == |EligibleNodes(candidates)|
    decreases from
  {
    var n := |candidates|;
    if from == 0 {
      assert forall p: nat :: p < n ==> p % n == p;
      assert EligibleIn(candidates, 0, n) == EligibleNodes(candidates);
    } else {
      WindowsAreEqual(candidates, from - 1);
      SlideWindow(candidates, from - 1);
    }
  }

  lemma SlideWindow(candidates: seq<Candidate>, from: nat)
    requires candidates != []
    ensures |EligibleIn(candidates, from + 1, from + 1 + |candidates|)|
            == |EligibleIn(candidates, from, from + |candidates|)|
  {
    var n := |candidates|;
    AddOnce(n, from);
    var before := EligibleIn(candidates, from, from + n);
    var after := EligibleIn(candidates, from + 1, from + 1 + n);
    if EligibleAt(candidates, from) {
      SwapKeepsSize(before, after, from, from + n);
    } else {
      assert after == before;
    }
  }

  lemma SwapKeepsSize(before: set<nat>, after: set<nat>, gone: nat, come: nat)
    requires gone in before && come !in before
    requires forall x :: x in after <==> x == come || (x in before && x != gone)
    ensures |after| == |before|
  {
    assert after == (before - {gone}) + {come};
  }

  /** Any e consecutive commits hit each of the e eligible nodes exactly once. */
  lemma EachEligibleNodeOncePerRound(candidates: seq<Candidate>, from: nat)
    requires SomeEligible(candidates)
    ensures var n := |candidates|;
      var e := |EligibleNodes(candidates)|;
      var ps := Positions(candidates, from, e);
      && (forall i, j :: 0 <= i < j < e ==> ps[i] % n != ps[j] % n)
      && (forall node :: node in EligibleNodes(candidates) <==> exists i :: 0 <= i < e && ps[i] % n == node)
  {
    var n := |candidates|;
    var e := |EligibleNodes(candidates)|;
    WindowsAreEqual(candidates, from);
    PositionsFillWindow(candidates, from, from + n, e);
    WindowCoversNodes(candidates, from, Positions(candidates, from, e));
  }

  lemma WindowCoversNodes(candidates: seq<Candidate>, from: nat, ps: seq<nat>)
    requires candidates != [] && Elements(ps) == EligibleIn(candidates, from, from + |candidates|)
    requires forall i, j :: 0 <= i < j < |ps| ==> ps[i] < ps[j]
    ensures forall i, j :: 0 <= i < j < |ps| ==> ps[i] % |candidates| != ps[j] % |candidates|
    ensures forall node :: node in EligibleNodes(candidates)
                           <==> exists i :: 0 <= i < |ps| && ps[i] % |candidates| == node
  {
    var n := |candidates|;
    forall i | 0 <= i < |ps| ensures from <= ps[i] < from + n && ps[i] % n in EligibleNodes(candidates) {
      assert ps[i] in Elements(ps);
    }
    forall i, j | 0 <= i < j < |ps| ensures ps[i] % n != ps[j] % n {
      SelectorRuns.NearbyResiduesDiffer(ps[i], ps[j], n);
    }
    forall node | node in EligibleNodes(candidates) ensures exists i :: 0 <= i < |ps| && ps[i] % n == node {
      var k := PositionOfNode(candidates, from, node);
      assert k in Elements(ps);
    }
  }

  lemma PositionOfNode(candidates: seq<Candidate>, from: nat, node: nat) returns (p: nat)
    requires node in EligibleNodes(candidates)
    ensures p in EligibleIn(candidates, from, from + |candidates|) && p % |candidates| == node
  {
    var k := OffsetOf(|candidates|, from, node);
    IndexIsAbsolute(|candidates|, from, k);
    p := from + k;
  }

  /** Dropping the first i of m services leaves the services from where the cursor then stands,
      so the previous lemma speaks of every e consecutive services of a longer run. */
  lemma {:induction false} LaterServices(candidates: seq<Candidate>, from: nat, m: nat, i: nat)
    requires 0 < i <= m
    ensures Positions(candidates, from, m)[i..]
            == Positions(candidates, Positions(candidates, from, m)[i - 1] + 1, m - i)
    decreases m
  {
    var p := NextPosition(candidates, from);
    if i > 1 {
      LaterServices(candidates, p + 1, m - 1, i - 1);
      var tail := Positions(candidates, p + 1, m - 1);
      assert ([p] + tail)[i..] == tail[i - 1..];
    }
  }
}
