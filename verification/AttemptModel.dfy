/** One connection attempt over a fixed candidate list (the Attempt of internal/pool/selector.go). */
module AttemptModel {
  import opened Options
  import opened SelectorModel

  datatype AttemptState = AttemptState(
    candidates: seq<Candidate>,
    startAbsolute: nat,
    ticket: nat,
    reserved: bool,
    offset: nat,
    returned: map<string, nat>,
    finished: bool)

  /** Position in the list of the candidate `offset` steps after the start. */
  function Index(n: nat, startAbsolute: nat, offset: nat): (i: nat)
    requires n > 0
    ensures i < n
  {
    (startAbsolute % n + offset) % n
  }

  ghost function At(candidates: seq<Candidate>, startAbsolute: nat, offset: nat): Candidate
    requires candidates != []
  {
    candidates[Index(|candidates|, startAbsolute, offset)]
  }

  /** The first eligible offset from `from` on, or the number of candidates if there is none. */
  ghost function NextOffset(candidates: seq<Candidate>, startAbsolute: nat, from: nat): (k: nat)
    requires from <= |candidates|
    ensures from <= k <= |candidates|
    ensures forall j :: from <= j < k ==> !At(candidates, startAbsolute, j).eligible
    ensures k < |candidates| ==> At(candidates, startAbsolute, k).eligible
    decreases |candidates| - from
  {
    if from == |candidates| || At(candidates, startAbsolute, from).eligible then from
    else NextOffset(candidates, startAbsolute, from + 1)
  }

  /** Next: the attempt afterwards and the node it offers. */
  ghost function NextOf(a: AttemptState): (AttemptState, Option<string>)
    requires a.offset <= |a.candidates|
  {
    if a.candidates == [] || a.finished then (a, None)
    else
      var k := NextOffset(a.candidates, a.startAbsolute, a.offset);
      if k == |a.candidates| then (a.(offset := k), None)
      else
        var id := At(a.candidates, a.startAbsolute, k).id;
        (a.(offset := k + 1, returned := a.returned[id := k]), Some(id))
  }

  /** Commit and Abort: the attempt and the selector afterwards. */
  ghost function CommitOf(a: AttemptState, s: Selector, id: string): (AttemptState, Selector) {
    if a.finished || !a.reserved || id !in a.returned then (a, s)
    else (a.(finished := true), Finish(s, a.ticket, Committed(a.startAbsolute + a.returned[id] + 1)))
  }

  ghost function AbortOf(a: AttemptState, s: Selector): (AttemptState, Selector) {
    if a.finished || !a.reserved then (a, s) else (a.(finished := true), Finish(s, a.ticket, Aborted))
  }

  /** All offsets Next still has to offer, in the order it offers them. */
  ghost function Offers(candidates: seq<Candidate>, startAbsolute: nat, from: nat): (ks: seq<nat>)
    requires from <= |candidates|
    ensures forall i :: 0 <= i < |ks| ==> from <= ks[i] < |candidates|
    decreases |candidates| - from
  {
    var k := NextOffset(candidates, startAbsolute, from);
    if k == |candidates| then [] else [k] + Offers(candidates, startAbsolute, k + 1)
  }

  ghost predicate UniqueIds(candidates: seq<Candidate>) {
    forall i, j :: 0 <= i < j < |candidates| ==> candidates[i].id != candidates[j].id
  }

  /** The offers are the eligible offsets, each once, in cyclic order from the start. */
  lemma {:induction false} OffersAreTheEligible(candidates: seq<Candidate>, startAbsolute: nat, from: nat)
    requires from <= |candidates|
    ensures var ks := Offers(candidates, startAbsolute, from);
      && (forall i, j :: 0 <= i < j < |ks| ==> ks[i] < ks[j])
      && (forall k :: k in ks <==> from <= k < |candidates| && At(candidates, startAbsolute, k).eligible)
    decreases |candidates| - from
  {
    var k := NextOffset(candidates, startAbsolute, from);
    if k < |candidates| {
      OffersAreTheEligible(candidates, startAbsolute, k + 1);
    }
  }

  /** Different offsets name different list positions. */
  lemma OffsetsNameDistinctPositions(n: nat, startAbsolute: nat, j: nat, k: nat)
    requires j < n && k < n && j != k
    ensures Index(n, startAbsolute, j) != Index(n, startAbsolute, k)
  {
    var s := startAbsolute % n;
    assert (s + j) % n == if s + j < n then s + j else s + j - n by { WrapOnce(n, s + j); }
    assert (s + k) % n == if s + k < n then s + k else s + k - n by { WrapOnce(n, s + k); }
  }

  /** Every list position is named by some offset. */
  lemma OffsetOf(n: nat, startAbsolute: nat, i: nat) returns (k: nat)
    requires i < n
    ensures k < n && Index(n, startAbsolute, k) == i
  {
    var r := startAbsolute % n;
    k := if i >= r then i - r else i + n - r;
    WrapOnce(n, r + k);
  }

  lemma WrapOnce(n: nat, x: nat)
    requires 0 < n && x < 2 * n
    ensures x % n == if x < n then x else x - n
  {
    if x >= n {
      assert x / n == 1;
    }
  }

  /** The position is the absolute start plus the offset, modulo the number of candidates. */
  lemma IndexIsAbsolute(n: nat, startAbsolute: nat, offset: nat)
    requires n > 0
    ensures Index(n, startAbsolute, offset) == (startAbsolute + offset) % n
  {
    var s, q := startAbsolute % n, startAbsolute / n;
    AddMultiple(n, s + offset, q);
    assert startAbsolute + offset == s + offset + q * n;
  }

  /** The candidate offered at an offset stands at the start plus the offset, modulo the list. */
  lemma AtIsAbsolute(candidates: seq<Candidate>, startAbsolute: nat, offset: nat)
    requires candidates != []
    ensures At(candidates, startAbsolute, offset) == candidates[(startAbsolute + offset) % |candidates|]
  {
    IndexIsAbsolute(|candidates|, startAbsolute, offset);
  }

  /** Next answers None exactly if no eligible candidate is left from the offset on. */
  lemma NextEndsIff(a: AttemptState)
    requires a.offset <= |a.candidates| && !a.finished
    ensures NextOf(a).1.None? <==>
            forall k :: a.offset <= k < |a.candidates| ==> !At(a.candidates, a.startAbsolute, k).eligible
    ensures NextOf(a).1.None? ==> NextOf(a).0 == a.(offset := |a.candidates|)
  {
  }

  /** Otherwise it passes and offers the first one that is left, and remembers its offset. */
  lemma NextOffersFirstLeft(a: AttemptState, k: nat)
    requires a.offset <= k < |a.candidates| && !a.finished && At(a.candidates, a.startAbsolute, k).eligible
    requires forall j :: a.offset <= j < k ==> !At(a.candidates, a.startAbsolute, j).eligible
    ensures var id := At(a.candidates, a.startAbsolute, k).id;
      NextOf(a) == (a.(offset := k + 1, returned := a.returned[id := k]), Some(id))
  {
  }

  lemma {:induction false} AddMultiple(n: nat, x: nat, q: nat)
    requires n > 0
    ensures (x + q * n) % n == x % n
    decreases q
  {
    if q > 0 {
      AddMultiple(n, x, q - 1);
      var y := x + (q - 1) * n;
      assert x + q * n == y + n;
      AddOnce(n, y);
    }
  }

  lemma AddOnce(n: nat, y: nat)
    requires n > 0
    ensures (y + n) % n == y % n
  {
    assert y == n * (y / n) + y % n;
    RemainderIsUnique(n, y + n, y / n + 1, y % n);
  }

  lemma RemainderIsUnique(n: nat, x: nat, q: nat, r: nat)
    requires r < n && x == n * q + r
    ensures x % n == r && x / n == q
  {
    var d := q - x / n;
    assert n * d == x % n - r by {
      assert x == n * (x / n) + x % n;
    }
    Multiples(n, d);
    Multiples(n, -d);
  }

  lemma Multiples(n: nat, q: int)
    ensures q <= 0 ==> n * q <= 0
    ensures q >= 1 ==> n * q >= n
  {
  }
}
