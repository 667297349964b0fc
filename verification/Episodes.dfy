/** Edge-triggered alerting in the abstract: a latch that is set by a successful delivery while a
    condition lasts and cleared when it ends; and reminders that fire when a value changes. */
module Episodes {
  import opened Ordering

  /** One evaluation: whether the condition holds, and whether a delivery would succeed. */
  datatype Sample = Sample(on: bool, ok: bool)

  /** The latch after the evaluations. */
  ghost predicate Latched(xs: seq<Sample>) {
    xs != [] &&
    var x := xs[|xs| - 1];
    x.on && (Latched(xs[..|xs| - 1]) || x.ok)
  }

  /** Evaluation `i` tries to deliver. */
  ghost predicate Attempts(xs: seq<Sample>, i: nat)
    requires i < |xs|
  {
    xs[i].on && !Latched(xs[..i])
  }

  ghost predicate Delivers(xs: seq<Sample>, i: nat)
    requires i < |xs|
  {
    Attempts(xs, i) && xs[i].ok
  }

  /** The condition holds without a break from evaluation `a` up to, not including, `b`. */
  ghost predicate Unbroken(xs: seq<Sample>, a: nat, b: nat) {
    a <= b <= |xs| && forall k :: a <= k < b ==> xs[k].on
  }

  /** Some evaluation `j` before `n` would have delivered, and the condition has held since. */
  ghost predicate Deliverable(xs: seq<Sample>, j: nat, n: nat) {
    j < n && Unbroken(xs, j, n) && xs[j].ok
  }

  ghost predicate EpisodeDeliverable(xs: seq<Sample>, n: nat) {
    exists j :: Deliverable(xs, j, n)
  }

  /** The latch is set exactly when an evaluation of the current episode would have delivered. */
  lemma {:induction false} LatchRemembersEpisode(xs: seq<Sample>, n: nat)
    requires n <= |xs|
    ensures Latched(xs[..n]) <==> EpisodeDeliverable(xs, n)
    decreases n
  {
    if n > 0 {
      LatchRemembersEpisode(xs, n - 1);
      assert xs[..n][..n - 1] == xs[..n - 1];
      if xs[n - 1].on && xs[n - 1].ok {
        assert Deliverable(xs, n - 1, n);
      } else if xs[n - 1].on && EpisodeDeliverable(xs, n - 1) {
        var j: nat :| Deliverable(xs, j, n - 1);
        assert Deliverable(xs, j, n);
      }
      if EpisodeDeliverable(xs, n) {
        var j: nat :| Deliverable(xs, j, n);
        assert xs[n - 1].on && (j < n - 1 ==> Deliverable(xs, j, n - 1));
      }
    }
  }

  /** An evaluation tries to deliver exactly when the condition holds and no earlier evaluation of
      the same episode would have delivered: one retry per evaluation until then, none after. */
  lemma AttemptsUntilDelivered(xs: seq<Sample>, i: nat)
    requires i < |xs|
    ensures Attempts(xs, i) <==> xs[i].on && forall j: nat :: j < i && Unbroken(xs, j, i) ==> !xs[j].ok
  {
    LatchRemembersEpisode(xs, i);
    forall j: nat | j < i && Unbroken(xs, j, i) && xs[j].ok ensures EpisodeDeliverable(xs, i) {
      assert Deliverable(xs, j, i);
    }
  }

  /** An episode gets at most one successful delivery. */
  lemma AtMostOneDelivery(xs: seq<Sample>, i: nat, j: nat)
    requires i < j < |xs| && Delivers(xs, i) && Delivers(xs, j)
    ensures !Unbroken(xs, i, j)
  {
    AttemptsUntilDelivered(xs, j);
  }

  /** If any delivery of an episode would succeed, one of its evaluations delivers. */
  lemma {:induction false} SomeDeliveryIfAnyWouldSucceed(xs: seq<Sample>, start: nat, j: nat)
    requires start <= j < |xs| && Unbroken(xs, start, j + 1) && (start == 0 || !xs[start - 1].on) && xs[j].ok
    ensures exists i :: start <= i <= j && Delivers(xs, i)
    decreases j
  {
    AttemptsUntilDelivered(xs, j);
    if Attempts(xs, j) {
      assert Delivers(xs, j);
    } else {
      var k: nat :| k < j && Unbroken(xs, k, j) && xs[k].ok;
      assert forall x :: k <= x < j ==> xs[x].on;
      SomeDeliveryIfAnyWouldSucceed(xs, start, k);
    }
  }

  /** An episode from `start` to `last` gets exactly one successful delivery, by evaluation `j` at
      the latest, if the delivery of `j` would succeed. */
  lemma ExactlyOneDelivery(xs: seq<Sample>, start: nat, last: nat, j: nat)
    requires start <= j <= last < |xs| && Unbroken(xs, start, last + 1)
    requires (start == 0 || !xs[start - 1].on) && xs[j].ok
    ensures exists i :: start <= i <= j && Delivers(xs, i)
    ensures forall a, b :: start <= a < b <= last && Delivers(xs, a) ==> !Delivers(xs, b)
  {
    SomeDeliveryIfAnyWouldSucceed(xs, start, j);
    forall a, b | start <= a < b <= last && Delivers(xs, a) ensures !Delivers(xs, b) {
      if Delivers(xs, b) { AtMostOneDelivery(xs, a, b); }
    }
  }

  // ----- reminders on change -----

  /** The deliveries made from the values whose delivery would succeed, in order: one is made when
      the value differs from the one delivered last. */
  ghost function Deliveries(values: seq<nat>): seq<nat> {
    if values == [] then []
    else
      var n := |values| - 1;
      var before := Deliveries(values[..n]);
      if before != [] && before[|before| - 1] == values[n] then before else before + [values[n]]
  }

  lemma {:induction false} DeliveriesCover(values: seq<nat>)
    ensures Elements(Deliveries(values)) == Elements(values)
    ensures values != [] ==> Deliveries(values) != [] && Deliveries(values)[|Deliveries(values)| - 1] == values[|values| - 1]
    decreases |values|
  {
    if values != [] {
      var n := |values| - 1;
      DeliveriesCover(values[..n]);
      assert values == values[..n] + [values[n]];
      assert Elements(values) == Elements(values[..n]) + {values[n]};
      var before := Deliveries(values[..n]);
      assert Elements(before + [values[n]]) == Elements(before) + {values[n]};
      if before != [] && before[|before| - 1] == values[n] {
        assert values[n] in Elements(before);
      }
    }
  }

  /** Two deliveries in a row never carry the same value. */
  lemma {:induction false} NoRepeatInARow(values: seq<nat>, i: nat)
    requires i + 1 < |Deliveries(values)|
    ensures Deliveries(values)[i] != Deliveries(values)[i + 1]
    decreases |values|
  {
    var n := |values| - 1;
    var before := Deliveries(values[..n]);
    if i + 1 < |before| {
      NoRepeatInARow(values[..n], i);
    }
  }

  /** No value comes back after a different one. */
  ghost predicate NeverReturns(values: seq<nat>) {
    forall i, j, k :: 0 <= i < j < k < |values| && values[i] == values[k] ==> values[j] == values[i]
  }

  /** A value is delivered at most once if and only if it never comes back after a different one. */
  lemma {:induction false} DeliveredOnceIff(values: seq<nat>)
    ensures Distinct(Deliveries(values)) <==> NeverReturns(values)
    decreases |values|
  {
    if values != [] {
      var n := |values| - 1;
      DeliveredOnceIff(values[..n]);
      DeliveriesCover(values[..n]);
      var before := Deliveries(values[..n]);
      NeverReturnsGoesOn(values);
      if before != [] && before[|before| - 1] != values[n] {
        if values[n] in values[..n] {
          assert values[n] in Elements(values[..n]) && values[n] in Elements(before);
          var i :| 0 <= i < |before| && before[i] == values[n];
          assert Deliveries(values)[i] == Deliveries(values)[|before|];
        } else {
          assert values[n] !in Elements(before);
        }
      }
      PrefixIsDistinct(before, values[n]);
    }
  }

  lemma PrefixIsDistinct(xs: seq<nat>, x: nat)
    ensures Distinct(xs + [x]) ==> Distinct(xs)
    ensures Distinct(xs) && x !in Elements(xs) ==> Distinct(xs + [x])
  {
    if Distinct(xs + [x]) {
      forall i, j | 0 <= i < j < |xs| ensures xs[i] != xs[j] {
        assert (xs + [x])[i] == xs[i] && (xs + [x])[j] == xs[j];
      }
    }
  }

  lemma NeverReturnsGoesOn(values: seq<nat>)
    requires values != []
    ensures var n := |values| - 1;
      NeverReturns(values) <==>
        NeverReturns(values[..n]) && (n == 0 || values[n - 1] == values[n] || values[n] !in values[..n])
  {
    var n := |values| - 1;
    var before := values[..n];
    if NeverReturns(values) {
      forall i, j, k | 0 <= i < j < k < n && before[i] == before[k] ensures before[j] == before[i] {
        assert values[i] == values[k];
      }
      if values[n] in before {
        var i :| 0 <= i < n && before[i] == values[n];
        assert values[i] == values[n];
        assert i < n - 1 ==> values[n - 1] == values[i];
      }
    }
    if NeverReturns(before) && (n == 0 || values[n - 1] == values[n] || values[n] !in before) {
      forall i, j, k | 0 <= i < j < k < |values| && values[i] == values[k] ensures values[j] == values[i] {
        assert before[i] == values[i] && before[j] == values[j];
        if k == n {
          assert before[i] in before;
          assert before[n - 1] == values[n - 1];
        } else {
          assert before[k] == values[k];
        }
      }
    }
  }
}
