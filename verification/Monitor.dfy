/** The alert monitor: which alerts each evaluation tries and delivers, over any run of
    evaluations (internal/alert/monitor.go). Without a sender every delivery fails. */
module Monitoring {
  import opened Ordering
  import opened Episodes

  /** Seven days, in the seconds that expiries and clock readings count. */
  const WEEK: nat := 7 * 24 * 60 * 60

  const DEFAULT_THRESHOLD := 30

  datatype Alerts = Alerts(sources: set<string>, low: bool, expiry: map<string, nat>)

  const NO_ALERTS := Alerts({}, false, map[])

  /** What one Evaluate is given, and which deliveries would succeed. */
  datatype Evaluation = Evaluation(errors: set<string>, healthy: int, delivers: string -> bool, deliversLow: bool)

  /** What one EvaluateExpiry is given; expiry 0 means unknown. */
  datatype Review = Review(expiries: map<string, nat>, now: nat, delivers: string -> bool)

  ghost function TriedSources(a: Alerts, e: Evaluation): set<string> {
    e.errors - a.sources
  }

  ghost predicate TriesLow(a: Alerts, e: Evaluation, threshold: int) {
    e.healthy < threshold && !a.low
  }

  ghost function AfterEvaluation(a: Alerts, e: Evaluation, threshold: int): Alerts {
    a.(sources := (set id | id in e.errors && (id in a.sources || e.delivers(id))),
       low := e.healthy < threshold && (a.low || e.deliversLow))
  }

  predicate IsDue(expiry: nat, now: nat) {
    expiry != 0 && expiry <= now + WEEK
  }

  ghost function TriedExpiries(a: Alerts, r: Review): set<string> {
    set id | id in r.expiries && IsDue(r.expiries[id], r.now) && !(id in a.expiry && a.expiry[id] == r.expiries[id])
  }

  ghost function AfterReview(a: Alerts, r: Review): Alerts {
    a.(expiry := a.expiry + (map id | id in TriedExpiries(a, r) && r.delivers(id) :: r.expiries[id]))
  }

  // ----- the object -----

  class Monitor {
    const threshold: int
    var alertedSources: set<string>
    var lowNodesAlerted: bool
    var expiryAlerted: map<string, nat>

    constructor (threshold: int)
      ensures this.threshold == (if threshold < 1 then 30 else threshold)
      ensures alertedSources == {} && !lowNodesAlerted && expiryAlerted == map[]
    {
      this.threshold := if threshold < 1 then DEFAULT_THRESHOLD else threshold;
      alertedSources, lowNodesAlerted, expiryAlerted := {}, false, map[];
    }

    ghost function State(): Alerts
      reads this
    {
      Alerts(alertedSources, lowNodesAlerted, expiryAlerted)
    }

    method Evaluate(e: Evaluation) returns (tried: seq<string>, triedLow: bool, failures: nat)
      modifies this
      ensures StrictlySorted(tried) && forall id :: id in tried <==> id in e.errors && id !in old(alertedSources)
      ensures triedLow <==> e.healthy < threshold && !old(lowNodesAlerted)
      ensures alertedSources == set id | id in e.errors && (id in old(alertedSources) || e.delivers(id))
      ensures lowNodesAlerted <==> e.healthy < threshold && (old(lowNodesAlerted) || e.deliversLow)
      ensures expiryAlerted == old(expiryAlerted)
      ensures failures == |set id | id in tried && !e.delivers(id)| + (if triedLow && !e.deliversLow then 1 else 0)
      ensures State() == AfterEvaluation(old(State()), e, threshold)
      ensures Elements(tried) == TriedSources(old(State()), e) && (triedLow <==> TriesLow(old(State()), e, threshold))
    {
      Rearm(e.errors);
      ghost var kept := alertedSources;
      tried, failures := AlertSources(e);
      triedLow := false;
      if e.healthy >= threshold {
        lowNodesAlerted := false;
      } else if !lowNodesAlerted {
        triedLow := true;
        if !e.deliversLow {
          failures := failures + 1;
        } else {
          lowNodesAlerted := true;
        }
      }
      assert alertedSources == AfterEvaluation(old(State()), e, threshold).sources;
      assert e.errors - kept == TriedSources(old(State()), e);
      assert forall id :: id in tried <==> id in Elements(tried);
      assert Undelivered(Elements(tried), e.delivers) == set id | id in tried && !e.delivers(id);
    }

    /** Forgets the alerts of sources that no longer fail. */
    method Rearm(errors: set<string>)
      modifies this`alertedSources
      ensures alertedSources == old(alertedSources) * errors
    {
      var todo := alertedSources;
      while todo != {}
        invariant todo <= old(alertedSources)
        invariant alertedSources == (old(alertedSources) - todo) * errors + todo
      {
        var id :| id in todo;
        if id !in errors {
          alertedSources := alertedSources - {id};
        }
        todo := todo - {id};
      }
    }

    /** Tries one alert per failing source that has none yet, in sorted order. */
    method AlertSources(e: Evaluation) returns (tried: seq<string>, failures: nat)
      modifies this`alertedSources
      ensures alertedSources == old(alertedSources) + (set id | id in e.errors && e.delivers(id))
      ensures Enumerates(tried, e.errors - old(alertedSources))
      ensures failures == |Undelivered(Elements(tried), e.delivers)|
    {
      var keys := InSomeOrder(e.errors);
      var failedIDs := SortStrings(keys);
      SortedIsDistinct(failedIDs);
      ghost var before := alertedSources;
      tried, failures := [], 0;
      for i := 0 to |failedIDs|
        invariant Alerting(before, failedIDs, i, e.delivers, tried, alertedSources, failures)
      {
        AlertingGoesOn(before, failedIDs, i, e.delivers, tried, alertedSources, failures);
        var id := failedIDs[i];
        if id !in alertedSources {
          tried := tried + [id];
          if e.delivers(id) {
            alertedSources := alertedSources + {id};
          } else {
            failures := failures + 1;
          }
        }
      }
      assert failedIDs[..|failedIDs|] == failedIDs;
    }

    method EvaluateExpiry(r: Review) returns (tried: set<string>, failures: nat)
      modifies this`expiryAlerted
      ensures failures == |set id | id in tried && !r.delivers(id)|
      ensures State() == AfterReview(old(State()), r) && tried == TriedExpiries(old(State()), r)
    {
      ghost var before := State();
      tried, failures := {}, 0;
      var todo := r.expiries.Keys;
      ReviewingStarts(before, r);
      while todo != {}
        invariant Reviewing(before, r, todo, tried, expiryAlerted, failures)
      {
        var id :| id in todo;
        ReviewingGoesOn(before, r, todo, tried, expiryAlerted, failures, id);
        todo := todo - {id};
        var expiry := r.expiries[id];
        if expiry != 0 && expiry <= r.now + WEEK && !(id in expiryAlerted && expiryAlerted[id] == expiry) {
          tried := tried + {id};
          if !r.delivers(id) {
            failures := failures + 1;
          } else {
            expiryAlerted := expiryAlerted[id := expiry];
          }
        }
      }
      ReviewingEnds(before, r, tried, expiryAlerted, failures);
    }
  }

  lemma ReviewingStarts(before: Alerts, r: Review)
    ensures Reviewing(before, r, r.expiries.Keys, {}, before.expiry, 0)
  {
    assert TriedExpiries(before, r) - r.expiries.Keys == {};
    assert Reminded(before.expiry, r, {}) == before.expiry;
    assert Undelivered({}, r.delivers) == {};
  }

  lemma ReviewingEnds(before: Alerts, r: Review, tried: set<string>, expiry: map<string, nat>, failures: nat)
    requires Reviewing(before, r, {}, tried, expiry, failures)
    ensures tried == TriedExpiries(before, r) && before.(expiry := expiry) == AfterReview(before, r)
    ensures failures == |set id | id in tried && !r.delivers(id)|
  {
    assert tried == TriedExpiries(before, r);
    assert Undelivered(tried, r.delivers) == set id | id in tried && !r.delivers(id);
  }

  /** The expiry loop with `todo` left. */
  ghost predicate Reviewing(before: Alerts, r: Review, todo: set<string>, tried: set<string>,
                            expiry: map<string, nat>, failures: nat)
  {
    && todo <= r.expiries.Keys && tried == TriedExpiries(before, r) - todo
    && expiry == Reminded(before.expiry, r, tried)
    && failures == |Undelivered(tried, r.delivers)|
  }

  ghost function Reminded(expiry: map<string, nat>, r: Review, tried: set<string>): map<string, nat>
    requires tried <= r.expiries.Keys
  {
    expiry + (map id | id in tried && r.delivers(id) :: r.expiries[id])
  }

  ghost function Undelivered(tried: set<string>, delivers: string -> bool): set<string> {
    set id | id in tried && !delivers(id)
  }

  lemma OneMoreTried(tried: set<string>, delivers: string -> bool, id: string)
    requires id !in tried
    ensures |Undelivered(tried + {id}, delivers)| == |Undelivered(tried, delivers)| + if delivers(id) then 0 else 1
  {
    if delivers(id) {
      assert Undelivered(tried + {id}, delivers) == Undelivered(tried, delivers);
    } else {
      OneMore(Undelivered(tried, delivers), Undelivered(tried + {id}, delivers), id);
    }
  }

  lemma OneMoreReminded(expiry: map<string, nat>, r: Review, tried: set<string>, id: string)
    requires tried <= r.expiries.Keys && id in r.expiries && id !in tried
    ensures Reminded(expiry, r, tried + {id})
            == if r.delivers(id) then Reminded(expiry, r, tried)[id := r.expiries[id]] else Reminded(expiry, r, tried)
    ensures (id in Reminded(expiry, r, tried) <==> id in expiry)
    ensures id in expiry ==> Reminded(expiry, r, tried)[id] == expiry[id]
  {
  }

  lemma ReviewingGoesOn(before: Alerts, r: Review, todo: set<string>, tried: set<string>,
                        expiry: map<string, nat>, failures: nat, id: string)
    requires Reviewing(before, r, todo, tried, expiry, failures) && id in todo
    ensures var e := r.expiries[id];
      if !IsDue(e, r.now) || (id in expiry && expiry[id] == e)
      then Reviewing(before, r, todo - {id}, tried, expiry, failures)
      else if r.delivers(id) then Reviewing(before, r, todo - {id}, tried + {id}, expiry[id := e], failures)
      else Reviewing(before, r, todo - {id}, tried + {id}, expiry, failures + 1)
  {
    OneMoreTried(tried, r.delivers, id);
    OneMoreReminded(before.expiry, r, tried, id);
    assert TriedExpiries(before, r) - (todo - {id}) == tried + if id in TriedExpiries(before, r) then {id} else {};
  }

  /** The alert loop after the first `i` failing sources. */
  ghost predicate Alerting(before: set<string>, failedIDs: seq<string>, i: nat, delivers: string -> bool,
                           tried: seq<string>, alerted: set<string>, failures: nat)
  {
    && i <= |failedIDs|
    && Enumerates(tried, Elements(failedIDs[..i]) - before)
    && alerted == before + (set id | id in Elements(failedIDs[..i]) && delivers(id))
    && failures == |Undelivered(Elements(tried), delivers)|
  }

  lemma AlertingGoesOn(before: set<string>, failedIDs: seq<string>, i: nat, delivers: string -> bool,
                       tried: seq<string>, alerted: set<string>, failures: nat)
    requires StrictlySorted(failedIDs) && i < |failedIDs|
    requires Alerting(before, failedIDs, i, delivers, tried, alerted, failures)
    ensures var id := failedIDs[i];
      if id in alerted then Alerting(before, failedIDs, i + 1, delivers, tried, alerted, failures)
      else if delivers(id) then Alerting(before, failedIDs, i + 1, delivers, tried + [id], alerted + {id}, failures)
      else Alerting(before, failedIDs, i + 1, delivers, tried + [id], alerted, failures + 1)
  {
    var id, done := failedIDs[i], Elements(failedIDs[..i]);
    NextFailed(failedIDs, i);
    assert id in alerted <==> id in before;
    if id !in before {
      AppendGreatest(tried, done - before, id);
      OneMoreTried(Elements(tried), delivers, id);
    } else {
      assert done + {id} - before == done - before;
    }
  }

  lemma NextFailed(failedIDs: seq<string>, i: nat)
    requires StrictlySorted(failedIDs) && i < |failedIDs|
    ensures var id, done := failedIDs[i], Elements(failedIDs[..i]);
      && id !in done && Elements(failedIDs[..i + 1]) == done + {id}
      && forall x :: x in done ==> Less(x, id)
  {
    SortedIsDistinct(failedIDs);
    assert failedIDs[..i + 1] == failedIDs[..i] + [failedIDs[i]];
  }

  lemma AppendGreatest(xs: seq<string>, keys: set<string>, id: string)
    requires Enumerates(xs, keys) && id !in keys && forall x :: x in keys ==> Less(x, id)
    ensures Enumerates(xs + [id], keys + {id}) && Elements(xs + [id]) == Elements(xs) + {id}
  {
    forall k | 0 <= k < |xs| ensures Less(xs[k], id) {
      assert xs[k] in Elements(xs);
    }
  }

  /** A reminder is tried exactly for a known expiry at most a week, 604800 seconds, ahead or past, that
      is not the one delivered last; and it is remembered exactly if it is delivered. */
  lemma ReminderIsDueIff(a: Alerts, r: Review, id: string)
    ensures id in TriedExpiries(a, r) <==>
              && id in r.expiries && r.expiries[id] != 0 && r.expiries[id] <= r.now + 604800
              && (id !in a.expiry || a.expiry[id] != r.expiries[id])
    ensures var after := AfterReview(a, r);
      && after.sources == a.sources && after.low == a.low
      && (if id in TriedExpiries(a, r) && r.delivers(id) then id in after.expiry && after.expiry[id] == r.expiries[id]
          else (id in after.expiry <==> id in a.expiry) && (id in a.expiry ==> after.expiry[id] == a.expiry[id]))
  {
  }

  // ----- runs of evaluations -----

  ghost function AfterEvaluations(es: seq<Evaluation>, threshold: int): Alerts {
    if es == [] then NO_ALERTS
    else AfterEvaluation(AfterEvaluations(es[..|es| - 1], threshold), es[|es| - 1], threshold)
  }

  /** What the evaluations mean for one source: whether it fails, and whether a delivery would succeed. */
  ghost function SourceSamples(es: seq<Evaluation>, id: string): seq<Sample> {
    seq(|es|, i requires 0 <= i < |es| => Sample(id in es[i].errors, es[i].delivers(id)))
  }

  ghost function LowSamples(es: seq<Evaluation>, threshold: int): seq<Sample> {
    seq(|es|, i requires 0 <= i < |es| => Sample(es[i].healthy < threshold, es[i].deliversLow))
  }

  lemma {:induction false} AlertsAreLatches(es: seq<Evaluation>, threshold: int, id: string)
    ensures id in AfterEvaluations(es, threshold).sources <==> Latched(SourceSamples(es, id))
    ensures AfterEvaluations(es, threshold).low <==> Latched(LowSamples(es, threshold))
    decreases |es|
  {
    if es != [] {
      var n := |es| - 1;
      AlertsAreLatches(es[..n], threshold, id);
      assert SourceSamples(es, id)[..n] == SourceSamples(es[..n], id);
      assert LowSamples(es, threshold)[..n] == LowSamples(es[..n], threshold);
    }
  }

  /** For any run of evaluations with any delivery outcomes: evaluation `i` alerts for a source (or
      for too few healthy nodes) exactly when the source fails (the nodes are too few) and no earlier
      delivery of the same unbroken stretch would have succeeded. */
  lemma AlertsOncePerEpisode(es: seq<Evaluation>, threshold: int, id: string, i: nat)
    requires i < |es|
    ensures var before, xs, ys := AfterEvaluations(es[..i], threshold), SourceSamples(es, id), LowSamples(es, threshold);
      && (id in TriedSources(before, es[i])
          <==> xs[i].on && forall j: nat :: j < i && Unbroken(xs, j, i) ==> !xs[j].ok)
      && (TriesLow(before, es[i], threshold)
          <==> ys[i].on && forall j: nat :: j < i && Unbroken(ys, j, i) ==> !ys[j].ok)
  {
    AlertsAreLatches(es[..i], threshold, id);
    var xs, ys := SourceSamples(es, id), LowSamples(es, threshold);
    assert xs[..i] == SourceSamples(es[..i], id) && ys[..i] == LowSamples(es[..i], threshold);
    AttemptsUntilDelivered(xs, i);
    AttemptsUntilDelivered(ys, i);
  }

  /** Evaluation `i` delivers an alert for the source. */
  ghost predicate AlertedAt(es: seq<Evaluation>, threshold: int, id: string, i: nat)
    requires i < |es|
  {
    id in TriedSources(AfterEvaluations(es[..i], threshold), es[i]) && es[i].delivers(id)
  }

  lemma AlertedIsDelivered(es: seq<Evaluation>, threshold: int, id: string, i: nat)
    requires i < |es|
    ensures AlertedAt(es, threshold, id, i) <==> Delivers(SourceSamples(es, id), i)
  {
    AlertsAreLatches(es[..i], threshold, id);
    assert SourceSamples(es, id)[..i] == SourceSamples(es[..i], id);
  }

  /** While a source keeps failing, from evaluation `start` to `last`, it gets exactly one alert if
      the delivery of any of these evaluations would succeed. */
  lemma ExactlyOneAlertPerFailure(es: seq<Evaluation>, threshold: int, id: string, start: nat, last: nat, j: nat)
    requires start <= j <= last < |es| && (forall k :: start <= k <= last ==> id in es[k].errors)
    requires (start == 0 || id !in es[start - 1].errors) && es[j].delivers(id)
    ensures exists i :: start <= i <= j && AlertedAt(es, threshold, id, i)
    ensures forall a, b :: start <= a < b <= last && AlertedAt(es, threshold, id, a) ==> !AlertedAt(es, threshold, id, b)
  {
    var xs := SourceSamples(es, id);
    ExactlyOneDelivery(xs, start, last, j);
    forall i | start <= i <= last ensures AlertedAt(es, threshold, id, i) <==> Delivers(xs, i) {
      AlertedIsDelivered(es, threshold, id, i);
    }
    var i: nat :| start <= i <= j && Delivers(xs, i);
    assert AlertedAt(es, threshold, id, i);
  }

  /** Evaluation `i` delivers the alert for too few healthy nodes. */
  ghost predicate LowAlertedAt(es: seq<Evaluation>, threshold: int, i: nat)
    requires i < |es|
  {
    TriesLow(AfterEvaluations(es[..i], threshold), es[i], threshold) && es[i].deliversLow
  }

  lemma LowAlertedIsDelivered(es: seq<Evaluation>, threshold: int, i: nat)
    requires i < |es|
    ensures LowAlertedAt(es, threshold, i) <==> Delivers(LowSamples(es, threshold), i)
  {
    AlertsAreLatches(es[..i], threshold, "");
    assert LowSamples(es, threshold)[..i] == LowSamples(es[..i], threshold);
  }

  /** While the healthy nodes stay below the threshold, from evaluation `start` to `last`, there is
      exactly one alert about it if the delivery of any of these evaluations would succeed. */
  lemma ExactlyOneAlertPerShortage(es: seq<Evaluation>, threshold: int, start: nat, last: nat, j: nat)
    requires start <= j <= last < |es| && (forall k :: start <= k <= last ==> es[k].healthy < threshold)
    requires (start == 0 || es[start - 1].healthy >= threshold) && es[j].deliversLow
    ensures exists i :: start <= i <= j && LowAlertedAt(es, threshold, i)
    ensures forall a, b :: start <= a < b <= last && LowAlertedAt(es, threshold, a) ==> !LowAlertedAt(es, threshold, b)
  {
    var xs := LowSamples(es, threshold);
    ExactlyOneDelivery(xs, start, last, j);
    forall i | start <= i <= last ensures LowAlertedAt(es, threshold, i) <==> Delivers(xs, i) {
      LowAlertedIsDelivered(es, threshold, i);
    }
    var i: nat :| start <= i <= j && Delivers(xs, i);
    assert LowAlertedAt(es, threshold, i);
  }

  // ----- runs of expiry reviews -----

  ghost function AfterReviews(rs: seq<Review>): Alerts {
    if rs == [] then NO_ALERTS else AfterReview(AfterReviews(rs[..|rs| - 1]), rs[|rs| - 1])
  }

  /** The expiries delivered for a source over the run, in order. */
  ghost function Sent(rs: seq<Review>, id: string): seq<nat> {
    if rs == [] then []
    else
      var n := |rs| - 1;
      var before := Sent(rs[..n], id);
      if id in TriedExpiries(AfterReviews(rs[..n]), rs[n]) && rs[n].delivers(id)
      then before + [rs[n].expiries[id]] else before
  }

  /** The expiries of a source that are due and whose delivery would succeed, review by review. */
  ghost function Deliverables(rs: seq<Review>, id: string): seq<nat> {
    if rs == [] then []
    else
      var n := |rs| - 1;
      var before := Deliverables(rs[..n], id);
      if id in rs[n].expiries && IsDue(rs[n].expiries[id], rs[n].now) && rs[n].delivers(id)
      then before + [rs[n].expiries[id]] else before
  }

  lemma {:induction false} SentIsRemembered(rs: seq<Review>, id: string)
    ensures var sent := Sent(rs, id);
      && (id in AfterReviews(rs).expiry <==> sent != [])
      && (sent != [] ==> AfterReviews(rs).expiry[id] == sent[|sent| - 1])
    decreases |rs|
  {
    if rs != [] {
      SentIsRemembered(rs[..|rs| - 1], id);
    }
  }

  lemma SentGoesOn(rs: seq<Review>, id: string)
    requires rs != []
    ensures var r, before := rs[|rs| - 1], Sent(rs[..|rs| - 1], id);
      Sent(rs, id) ==
      if id in r.expiries && IsDue(r.expiries[id], r.now) && r.delivers(id)
         && (before == [] || before[|before| - 1] != r.expiries[id])
      then before + [r.expiries[id]] else before
  {
    SentIsRemembered(rs[..|rs| - 1], id);
  }

  lemma {:induction false} SentAreDeliveries(rs: seq<Review>, id: string)
    ensures Sent(rs, id) == Deliveries(Deliverables(rs, id))
    decreases |rs|
  {
    if rs != [] {
      var n := |rs| - 1;
      SentAreDeliveries(rs[..n], id);
      SentGoesOn(rs, id);
      if id in rs[n].expiries {
        OneMoreDelivery(Deliverables(rs[..n], id), rs[n].expiries[id]);
      }
    }
  }

  lemma OneMoreDelivery(values: seq<nat>, v: nat)
    ensures var before := Deliveries(values);
      Deliveries(values + [v]) == if before != [] && before[|before| - 1] == v then before else before + [v]
  {
    var more := values + [v];
    assert more[..|more| - 1] == values && more[|more| - 1] == v;
  }

  /** Two reminders in a row for a source never carry the same expiry. */
  lemma ConsecutiveRemindersDiffer(rs: seq<Review>, id: string, i: nat)
    requires i + 1 < |Sent(rs, id)|
    ensures Sent(rs, id)[i] != Sent(rs, id)[i + 1]
  {
    SentAreDeliveries(rs, id);
    NoRepeatInARow(Deliverables(rs, id), i);
  }

  /** "Once per expiry in the life of the process" holds for a source if and only if no deliverable
      expiry of it comes back after a different one. */
  lemma RemindedOncePerExpiryIff(rs: seq<Review>, id: string)
    ensures Distinct(Sent(rs, id)) <==> NeverReturns(Deliverables(rs, id))
  {
    SentAreDeliveries(rs, id);
    DeliveredOnceIff(Deliverables(rs, id));
  }

  /** It does not hold in general: a subscription that reports one date, another, and the first
      again is reminded of the first twice. */
  lemma ReminderCanRepeat(id: string, a: nat, b: nat)
    requires a != 0 && b != 0 && a != b
    ensures Sent([Report(id, a, a + b), Report(id, b, a + b), Report(id, a, a + b)], id) == [a, b, a]
  {
    var first, second := Report(id, a, a + b), Report(id, b, a + b);
    TwoReports(id, a, b);
    OneMoreReport([first, second], id, a, a + b);
    assert [first, second] + [first] == [first, second, first];
  }

  lemma TwoReports(id: string, a: nat, b: nat)
    requires a != 0 && b != 0 && a != b
    ensures Sent([Report(id, a, a + b), Report(id, b, a + b)], id) == [a, b]
  {
    var first, second := Report(id, a, a + b), Report(id, b, a + b);
    OneMoreReport([], id, a, a + b);
    OneMoreReport([first], id, b, a + b);
    assert [] + [first] == [first] && [first] + [second] == [first, second];
  }

  /** A review at time `now` that finds one expiry and whose deliveries succeed. */
  ghost function Report(id: string, expiry: nat, now: nat): Review {
    Review(map[id := expiry], now, _ => true)
  }

  lemma OneMoreReport(rs: seq<Review>, id: string, expiry: nat, now: nat)
    requires 0 < expiry <= now
    ensures var before := Sent(rs, id);
      Sent(rs + [Report(id, expiry, now)], id)
      == if before != [] && before[|before| - 1] == expiry then before else before + [expiry]
  {
    assert (rs + [Report(id, expiry, now)])[..|rs|] == rs;
    SentIsRemembered(rs, id);
  }
}
