/** The per-resource visit record both Entity implementations keep, the
    duration arithmetic over it, and the attribute rules they share
    (priority defaulting and attribute matching). */
module Records {
  import opened Common
  import opened Resource

  /** One entry of `resources_requested`: the arrival, service-start and
      service-finish times of every visit, and the outstanding request. */
  datatype Visit = Visit(arrival: seq<int>, start: seq<int>, finish: seq<int>, request: Option<Handle>)

  /** `_empty_resource_tracking_dict`. */
  const EmptyVisit: Visit := Visit([], [], [], None)

  /** 0 has higher priority than 1, so the default 1 lets an entity be bumped. */
  const DefaultEntityPriority: Value := Num(1)

  /** The priority the constructor stores: the one supplied in the
      attributes, else the class attribute `priority`, else the default. */
  function InitialPriority(supplied: map<string, Value>, classPriority: Option<Value>): Value {
    if "priority" in supplied then supplied["priority"]
    else if classPriority.Some? then classPriority.value
    else DefaultEntityPriority
  }

  /** The priority `wait_for_resource` requests with: the override unless it
      is None, else the entity's own. */
  function RequestPriority(priorityOverride: Option<Value>, attributes: map<string, Value>): Value
    requires priorityOverride.Some? || "priority" in attributes
  {
    if priorityOverride.Some? then priorityOverride.value else attributes["priority"]
  }

  /** The record a visit starts from: the existing one, or an empty one. */
  function RecordOf(visits: map<string, Visit>, name: string): Visit {
    if name in visits then visits[name] else EmptyVisit
  }

  /** `wait_for_resource`'s change to a record. */
  function Arrive(v: Visit, now: int, handle: Handle): Visit {
    v.(arrival := v.arrival + [now], request := Some(handle))
  }

  /** `release_resource`'s change to a record with an outstanding request. */
  function Finish(v: Visit, now: int): Visit {
    v.(finish := v.finish + [now], request := None)
  }

  /** `sum(a - b for a, b in zip(later, earlier))`: zip stops at the shorter. */
  function PairedSum(later: seq<int>, earlier: seq<int>): int {
    if later == [] || earlier == [] then 0
    else (later[0] - earlier[0]) + PairedSum(later[1..], earlier[1..])
  }

  function Sum(s: seq<int>): int {
    if s == [] then 0 else s[0] + Sum(s[1..])
  }

  function Min(a: nat, b: nat): nat {
    if a <= b then a else b
  }

  /** A zip-truncated sum of differences is the difference of the sums of
      the two lists cut to the shorter length. */
  lemma {:induction false} PairedSumIsDifferenceOfSums(later: seq<int>, earlier: seq<int>)
    ensures var m := Min(|later|, |earlier|);
            PairedSum(later, earlier) == Sum(later[..m]) - Sum(earlier[..m])
  {
    var m := Min(|later|, |earlier|);
    if m > 0 {
      PairedSumIsDifferenceOfSums(later[1..], earlier[1..]);
      assert later[..m][1..] == later[1..][..m - 1];
      assert earlier[..m][1..] == earlier[1..][..m - 1];
    }
  }

  /** Waiting time at one resource: start minus arrival, visit by visit. */
  function WaitingSum(v: Visit): int {
    PairedSum(v.start, v.arrival)
  }

  /** Processing time at one resource: finish minus start, visit by visit. */
  function ProcessingSum(v: Visit): int {
    PairedSum(v.finish, v.start)
  }

  /** When every visit is complete, waiting plus processing is the time from
      arrival to finish, visit by visit. */
  lemma {:induction false} CompleteVisitsSplit(arrival: seq<int>, start: seq<int>, finish: seq<int>)
    requires |arrival| == |start| == |finish|
    ensures PairedSum(start, arrival) + PairedSum(finish, start) == PairedSum(finish, arrival)
  {
    if arrival != [] {
      CompleteVisitsSplit(arrival[1..], start[1..], finish[1..]);
    }
  }

  /** One complete visit: waiting + processing == finish - arrival. */
  lemma SingleVisitSplit(a: int, s: int, f: int, request: Option<Handle>)
    ensures var v := Visit([a], [s], [f], request);
            WaitingSum(v) + ProcessingSum(v) == f - a
  {
    CompleteVisitsSplit([a], [s], [f]);
  }

  /** Sum of the waiting times of the resources listed in `order`. */
  function WaitingOver(order: seq<string>, visits: map<string, Visit>): int {
    if order == [] then 0
    else
      var name := order[|order| - 1];
      WaitingOver(order[..|order| - 1], visits) + (if name in visits then WaitingSum(visits[name]) else 0)
  }

  /** Sum of the processing times of the resources listed in `order`. */
  function ProcessingOver(order: seq<string>, visits: map<string, Visit>): int {
    if order == [] then 0
    else
      var name := order[|order| - 1];
      ProcessingOver(order[..|order| - 1], visits) + (if name in visits then ProcessingSum(visits[name]) else 0)
  }

  /** When every record is complete, the total waiting plus the total
      processing time is the total arrival-to-finish time over all visits. */
  lemma {:induction false} CompleteTotalsSplit(order: seq<string>, visits: map<string, Visit>)
    requires forall n :: n in visits ==> |visits[n].arrival| == |visits[n].start| == |visits[n].finish|
    ensures WaitingOver(order, visits) + ProcessingOver(order, visits) == ResidenceOver(order, visits)
  {
    if order != [] {
      var name := order[|order| - 1];
      CompleteTotalsSplit(order[..|order| - 1], visits);
      if name in visits {
        var v := visits[name];
        CompleteVisitsSplit(v.arrival, v.start, v.finish);
      }
    }
  }

  /** Sum of arrival-to-finish times of the resources listed in `order`. */
  function ResidenceOver(order: seq<string>, visits: map<string, Visit>): int {
    if order == [] then 0
    else
      var name := order[|order| - 1];
      ResidenceOver(order[..|order| - 1], visits)
        + (if name in visits then PairedSum(visits[name].finish, visits[name].arrival) else 0)
  }

  /** `matches_attributes`: every filter key must be present with an equal
      value; the first mismatch ends the walk. */
  method MatchesAttributes(attributes: map<string, Value>, filter: map<string, Value>) returns (b: bool)
    ensures b == Matches(attributes, filter)
  {
    var pending := filter.Keys;
    while pending != {}
      invariant pending <= filter.Keys
      invariant forall k :: k in filter && k !in pending ==> k in attributes && attributes[k] == filter[k]
      decreases pending
    {
      var k :| k in pending;
      if k !in attributes || attributes[k] != filter[k] {
        return false;
      }
      pending := pending - {k};
    }
    return true;
  }
}
