/** The selector and its attempts as the objects the gateway updates in place
    (internal/pool/selector.go). */
module SelectorObjects {
  import opened Options
  import Model = SelectorModel
  import opened AttemptModel

  class Selector {
    var cursor: nat
    var reservationNext: nat
    var nextTicket: nat
    var retireTicket: nat
    var results: map<nat, Model.Outcome>

    constructor ()
      ensures State() == Model.NEW_SELECTOR
    {
      cursor, reservationNext, nextTicket, retireTicket, results := 0, 0, 0, 0, map[];
    }

    ghost function State(): Model.Selector
      reads this
    {
      Model.Selector(cursor, reservationNext, nextTicket, retireTicket, results)
    }

    method Begin(candidates: seq<Model.Candidate>) returns (attempt: Attempt)
      modifies this
      ensures fresh(attempt) && attempt.Valid() && attempt.selector == this
      ensures candidates == [] ==>
        State() == old(State()) && attempt.State() == AttemptState([], 0, 0, false, 0, map[], false)
      ensures candidates != [] ==>
        && State() == old(State()).(nextTicket := old(nextTicket) + 1, reservationNext := old(reservationNext) + 1)
        && attempt.State() == AttemptState(candidates, old(reservationNext), old(nextTicket), true, 0, map[], false)
    {
      if |candidates| == 0 {
        return new Attempt(this, [], 0, 0, 0, false);
      }
      var ticket := nextTicket;
      nextTicket := nextTicket + 1;
      var startAbsolute := reservationNext;
      reservationNext := reservationNext + 1;
      attempt := new Attempt(this, candidates, startAbsolute % |candidates|, startAbsolute, ticket, true);
    }

    method Finish(ticket: nat, outcome: Model.Outcome)
      modifies this
      ensures State() == Model.Finish(old(State()), ticket, outcome)
    {
      results := results[ticket := outcome];
      ghost var parked := State();
      while retireTicket in results
        invariant Model.Retire(State()) == Model.Retire(parked)
        decreases |results|
      {
        var next := results[retireTicket];
        if next.Committed? && next.target > cursor {
          cursor := next.target;
        }
        Model.ShrinkMap(results, retireTicket);
        results := results - {retireTicket};
        retireTicket := retireTicket + 1;
      }
      if retireTicket == nextTicket {
        reservationNext := cursor;
      }
    }
  }

  class Attempt {
    const selector: Selector
    const candidates: seq<Model.Candidate>
    const start: nat
    const startAbsolute: nat
    const ticket: nat
    const reserved: bool
    var offset: nat
    var returned: map<string, nat>
    var finished: bool

    constructor (selector: Selector, candidates: seq<Model.Candidate>, start: nat,
                 startAbsolute: nat, ticket: nat, reserved: bool)
      requires candidates != [] ==> start == startAbsolute % |candidates|
      ensures Valid() && this.selector == selector
      ensures State() == AttemptState(candidates, startAbsolute, ticket, reserved, 0, map[], false)
    {
      this.selector, this.candidates, this.start := selector, candidates, start;
      this.startAbsolute, this.ticket, this.reserved := startAbsolute, ticket, reserved;
      offset, returned, finished := 0, map[], false;
    }

    ghost function State(): AttemptState
      reads this
    {
      AttemptState(candidates, startAbsolute, ticket, reserved, offset, returned, finished)
    }

    ghost predicate Valid()
      reads this
    {
      offset <= |candidates| && (candidates != [] ==> start == startAbsolute % |candidates|)
    }

    method Next() returns (id: Option<string>)
      requires Valid()
      modifies this
      ensures Valid() && (State(), id) == NextOf(old(State()))
    {
      if |candidates| == 0 || finished {
        return None;
      }
      while offset < |candidates|
        invariant old(offset) <= offset <= |candidates| && !finished && returned == old(returned)
        invariant NextOffset(candidates, startAbsolute, offset) == NextOffset(candidates, startAbsolute, old(offset))
      {
        var current := offset;
        var index := (start + current) % |candidates|;
        offset := offset + 1;
        var candidate := candidates[index];
        if !candidate.eligible {
          continue;
        }
        returned := returned[candidate.id := current];
        return Some(candidate.id);
      }
      id := None;
    }

    method Commit(id: string)
      requires Valid()
      modifies this, selector
      ensures Valid()
      ensures var before := old(State());
        if before.finished || !before.reserved || id !in before.returned
        then State() == before && selector.State() == old(selector.State())
        else && State() == before.(finished := true)
             && selector.State() == Model.Finish(old(selector.State()), ticket,
                                      Model.Committed(startAbsolute + before.returned[id] + 1))
    {
      if finished || !reserved {
        return;
      }
      if id !in returned {
        return;
      }
      var target := startAbsolute + returned[id] + 1;
      selector.Finish(ticket, Model.Committed(target));
      finished := true;
    }

    method Abort()
      requires Valid()
      modifies this, selector
      ensures Valid()
      ensures var before := old(State());
        if before.finished || !before.reserved
        then State() == before && selector.State() == old(selector.State())
        else && State() == before.(finished := true)
             && selector.State() == Model.Finish(old(selector.State()), ticket, Model.Aborted)
    {
      if finished || !reserved {
        return;
      }
      selector.Finish(ticket, Model.Aborted);
      finished := true;
    }
  }
}
