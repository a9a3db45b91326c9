/** The legacy Entity and Stats. The entity keeps its disposed flag among
    its attributes, and its per-resource queries first pad every in-flight
    record with the current time instead of refusing; the registry filters
    through a mapping it completes with `disposed: True` in place. */
module LegacyTracking {
  import opened Common
  import opened Sampling
  import opened Resource
  import opened Records

  /** What `_fill_in_for_non_disposed` relies on: service starts and
      finishes trail the arrivals by at most one. */
  predicate LagsByAtMostOne(v: Visit) {
    && |v.arrival| - 1 <= |v.start| <= |v.arrival|
    && |v.arrival| - 1 <= |v.finish| <= |v.arrival|
  }

  predicate AllLagByAtMostOne(visits: map<string, Visit>) {
    forall n :: n in visits ==> LagsByAtMostOne(visits[n])
  }

  /** The fill-in of one record: a record with an outstanding request gets
      `now` appended to its starts and to its finishes, to each only when it
      is shorter than the arrivals. */
  function Pad(v: Visit, now: int): Visit {
    if v.request.None? then v
    else
      v.(start := if |v.start| < |v.arrival| then v.start + [now] else v.start,
         finish := if |v.finish| < |v.arrival| then v.finish + [now] else v.finish)
  }

  /** The fill-in of every record. */
  function PadAll(visits: map<string, Visit>, now: int): (r: map<string, Visit>)
    ensures r.Keys == visits.Keys
  {
    map n | n in visits :: Pad(visits[n], now)
  }

  /** The fill-in touches only records with an outstanding request, keeps
      the arrivals and the handle, and appends at most one `now` to the
      starts and to the finishes. */
  lemma PadAppendsAtMostOne(v: Visit, now: int)
    ensures Pad(v, now).arrival == v.arrival && Pad(v, now).request == v.request
    ensures v.request.None? ==> Pad(v, now) == v
    ensures Pad(v, now).start == v.start || (|v.start| < |v.arrival| && Pad(v, now).start == v.start + [now])
    ensures Pad(v, now).finish == v.finish || (|v.finish| < |v.arrival| && Pad(v, now).finish == v.finish + [now])
  {
  }

  /** Under the lag invariant, a padded in-flight record is complete: its
      three lists have the same length. */
  lemma PaddedRecordIsComplete(v: Visit, now: int)
    requires LagsByAtMostOne(v) && v.request.Some?
    ensures |Pad(v, now).arrival| == |Pad(v, now).start| == |Pad(v, now).finish|
  {
  }

  /** Under the lag invariant, filling in twice is filling in once. */
  lemma PadAllIdempotent(visits: map<string, Visit>, now: int)
    requires AllLagByAtMostOne(visits)
    ensures PadAll(PadAll(visits, now), now) == PadAll(visits, now)
  {
    forall n | n in visits
      ensures Pad(Pad(visits[n], now), now) == Pad(visits[n], now)
    {
      assert LagsByAtMostOne(visits[n]);
    }
  }

  /** Fill-in keeps the lag invariant. */
  lemma PadAllKeepsLag(visits: map<string, Visit>, now: int)
    requires AllLagByAtMostOne(visits)
    ensures AllLagByAtMostOne(PadAll(visits, now))
  {
    forall n | n in visits ensures LagsByAtMostOne(PadAll(visits, now)[n]) {
      assert LagsByAtMostOne(visits[n]);
    }
  }

  /** Where a record stands in the visit order `wait_for_resource`,
      `process_at_resource`, `release_resource`: idle (every arrival served
      and finished, no request outstanding), waiting (one arrival not yet
      served) or in service (one service not yet finished). */
  predicate Idle(v: Visit) {
    |v.start| == |v.arrival| && |v.finish| == |v.arrival| && v.request.None?
  }

  predicate Waiting(v: Visit) {
    |v.start| + 1 == |v.arrival| && |v.finish| + 1 == |v.arrival| && v.request.Some?
  }

  predicate InService(v: Visit) {
    |v.start| == |v.arrival| && |v.finish| + 1 == |v.arrival| && v.request.Some?
  }

  predicate InProtocol(v: Visit) {
    Idle(v) || Waiting(v) || InService(v)
  }

  predicate AllInProtocol(visits: map<string, Visit>) {
    forall n :: n in visits ==> InProtocol(visits[n])
  }

  /** An entity that visits each resource in the order wait, process,
      release keeps every record within one step of complete: the lag
      invariant the legacy queries rely on holds at every point of the
      protocol, a new record starts idle, and each step moves a record to the
      next phase. */
  lemma ProtocolKeepsLag(visits: map<string, Visit>, name: string, now: int, handle: Handle)
    requires AllInProtocol(visits)
    ensures AllLagByAtMostOne(visits)
    ensures name !in visits ==> Idle(RecordOf(visits, name))
    ensures Idle(RecordOf(visits, name)) ==>
              var after := visits[name := Arrive(RecordOf(visits, name), now, handle)];
              AllInProtocol(after) && Waiting(after[name])
    ensures name in visits && Waiting(visits[name]) ==>
              var after := visits[name := visits[name].(start := visits[name].start + [now])];
              AllInProtocol(after) && InService(after[name])
    ensures name in visits && InService(visits[name]) ==>
              var after := visits[name := Finish(visits[name], now)];
              AllInProtocol(after) && Idle(after[name])
  {
    forall n | n in visits ensures LagsByAtMostOne(visits[n]) {
      assert InProtocol(visits[n]);
    }
  }

  /** One step of the accumulator loop of `_calculate_statistics`. */
  lemma SumStep(order: seq<string>, i: nat, m: map<string, Visit>, waiting: int, processing: int, w: int, p: int)
    requires i < |order| && order[i] in m
    requires waiting == WaitingOver(order[..i], m) && processing == ProcessingOver(order[..i], m)
    requires w == WaitingSum(m[order[i]]) && p == ProcessingSum(m[order[i]])
    ensures waiting + w == WaitingOver(order[..i + 1], m) && processing + p == ProcessingOver(order[..i + 1], m)
  {
    assert order[..i + 1][..i] == order[..i];
  }

  /** Which of the three total accessors a registry query calls on each
      filtered entity. */
  datatype Accessor = TotalTimeOf | WaitingTimeOf | ProcessingTimeOf

  class Entity {
    const attributes: Attributes
    /** Set by the source that builds the entity. */
    var name: Option<string>
    var creationTime: Option<int>
    var disposalTime: Option<int>
    var visitOrder: seq<string>
    var visits: map<string, Visit>
    var totalTime: Option<int>
    var waitingTime: Option<int>
    var processingTime: Option<int>

    ghost predicate Valid()
      reads this`visits, this`visitOrder
    {
      && (forall n :: n in visits <==> n in visitOrder)
      && (forall i, j :: 0 <= i < j < |visitOrder| ==> visitOrder[i] != visitOrder[j])
    }

    /** `__init__` as written: the entity keeps the very mapping it is given
        and stores its priority and `disposed: False` in it. */
    constructor (attributes: Attributes, classPriority: Option<Value>)
      modifies attributes
      ensures this.attributes == attributes
      ensures attributes.entries ==
                old(attributes.entries)["priority" := InitialPriority(old(attributes.entries), classPriority)]["disposed" := FalseValue]
      ensures name == None && creationTime == None && disposalTime == None
      ensures visitOrder == [] && visits == map[]
      ensures totalTime == None && waitingTime == None && processingTime == None
      ensures Valid() && !IsDisposed()
    {
      this.attributes := attributes;
      name := None;
      creationTime := None;
      disposalTime := None;
      visitOrder := [];
      visits := map[];
      totalTime := None;
      waitingTime := None;
      processingTime := None;
      new;
      attributes.entries := attributes.entries["priority" := InitialPriority(attributes.entries, classPriority)];
      attributes.entries := attributes.entries["disposed" := FalseValue];
    }

    /** `__init__` with a mapping of the entity's own. */
    constructor WithOwnAttributes(supplied: map<string, Value>, classPriority: Option<Value>)
      ensures fresh(attributes)
      ensures attributes.entries == supplied["priority" := InitialPriority(supplied, classPriority)]["disposed" := FalseValue]
      ensures name == None && creationTime == None && disposalTime == None
      ensures visitOrder == [] && visits == map[]
      ensures totalTime == None && waitingTime == None && processingTime == None
      ensures Valid() && !IsDisposed()
    {
      attributes := new Attributes(supplied["priority" := InitialPriority(supplied, classPriority)]["disposed" := FalseValue]);
      name := None;
      creationTime := None;
      disposalTime := None;
      visitOrder := [];
      visits := map[];
      totalTime := None;
      waitingTime := None;
      processingTime := None;
    }

    /** `wait_for_resource`, as in the current copy. */
    method WaitForResource(resource: ResourceStats, summary: Summary, priorityOverride: Option<Value>,
                           ticket: nat, now: nat, count: nat, queueLength: nat) returns (req: Handle)
      requires Valid()
      requires summary.current != null
      requires priorityOverride.Some? || "priority" in attributes.entries
      modifies this`visits, this`visitOrder, resource, summary.current
      ensures Valid()
      ensures req == Handle(ticket, RequestPriority(priorityOverride, attributes.entries))
      ensures visitOrder == old(visitOrder) + (if resource.name in old(visits) then [] else [resource.name])
      ensures visits == old(visits)[resource.name := Arrive(RecordOf(old(visits), resource.name), now, req)]
      ensures resource.utilizationSize == old(resource.utilizationSize) + [Event(now, count, RequestEvent)]
      ensures resource.queueSize == old(resource.queueSize) + [Event(now, queueLength, RequestEvent)]
      ensures summary.current.entities == old(summary.current.entities)
      ensures summary.current.resources ==
                if resource.name in old(summary.current.resources) then old(summary.current.resources)
                else old(summary.current.resources)[resource.name := resource]
    {
      var name := resource.name;
      summary.current.AddResource(resource);
      var record := RecordOf(visits, name);
      if name !in visits {
        visitOrder := visitOrder + [name];
      }
      record := record.(arrival := record.arrival + [now]);
      var priority := RequestPriority(priorityOverride, attributes.entries);
      req := resource.Request(priority, ticket, now, count, queueLength);
      record := record.(request := Some(req));
      visits := visits[name := record];
    }

    /** `process_at_resource`, bookkeeping part. */
    method ProcessAtResource(resource: ResourceStats, serviceTime: int, now: nat, count: nat, queueLength: nat)
      returns (delay: int)
      requires Valid()
      requires resource.name in visits
      modifies this`visits, resource
      ensures Valid()
      ensures delay == serviceTime
      ensures visits == old(visits)[resource.name := old(visits)[resource.name].(start := old(visits)[resource.name].start + [now])]
      ensures resource.utilizationSize == old(resource.utilizationSize) + [Event(now, count, StartEvent)]
      ensures resource.queueSize == old(resource.queueSize) + [Event(now, queueLength, StartEvent)]
    {
      var name := resource.name;
      visits := visits[name := visits[name].(start := visits[name].start + [now])];
      resource.AddResourceCheck(now, count, queueLength, StartEvent);
      delay := serviceTime;
    }

    /** `release_resource`: a no-op without an outstanding request. */
    method ReleaseResource(resource: ResourceStats, now: nat, count: nat)
      requires Valid()
      requires resource.name in visits
      modifies this`visits, resource
      ensures Valid()
      ensures old(visits[resource.name].request).None? ==>
                visits == old(visits) && unchanged(resource)
      ensures old(visits[resource.name].request).Some? ==>
                && visits == old(visits)[resource.name := Finish(old(visits[resource.name]), now)]
                && resource.utilizationSize == old(resource.utilizationSize) + [Event(now, count, ReleaseEvent)]
                && resource.queueSize == old(resource.queueSize)
    {
      var name := resource.name;
      var request := visits[name].request;
      if request.Some? {
        visits := visits[name := visits[name].(finish := visits[name].finish + [now])];
        resource.Release(request.value, now, count);
        visits := visits[name := visits[name].(request := None)];
      }
    }

    /** `dispose`: stamp the disposal time and raise the flag in the
        attribute mapping (which other entities may share). */
    method Dispose(now: nat) returns (t: nat)
      modifies this`disposalTime, attributes
      ensures disposalTime == Some(now) && t == now
      ensures attributes.entries == old(attributes.entries)["disposed" := TrueValue]
      ensures IsDisposed()
    {
      disposalTime := Some(now);
      attributes.entries := attributes.entries["disposed" := TrueValue];
      t := now;
    }

    /** `is_disposed`: the truth of the `disposed` attribute. */
    predicate IsDisposed()
      reads attributes
    {
      "disposed" in attributes.entries && Truthy(attributes.entries["disposed"])
    }

    /** The records as a statistics query leaves them: padded with `now`
        unless the entity is disposed. */
    function SettledVisits(now: int): map<string, Visit>
      reads this`visits, attributes
    {
      if IsDisposed() then visits else PadAll(visits, now)
    }

    /** `_fill_in_for_non_disposed`: pad every record, then stamp the
        disposal time with `now` (the flag stays down). */
    method FillInForNonDisposed(now: int)
      requires Valid()
      modifies this`visits, this`disposalTime
      ensures Valid()
      ensures visits == PadAll(old(visits), now)
      ensures disposalTime == Some(now)
    {
      ghost var before := visits;
      for i := 0 to |visitOrder|
        invariant visits.Keys == before.Keys
        invariant forall n :: n in visits ==>
                    visits[n] == if n in visitOrder[..i] then Pad(before[n], now) else before[n]
      {
        var name := visitOrder[i];
        visits := visits[name := Pad(visits[name], now)];
      }
      assert visitOrder[..|visitOrder|] == visitOrder;
      disposalTime := Some(now);
    }

    /** `_calculate_waiting_time_for_resource`: None for a resource never
        visited; otherwise, on an entity not disposed, fill in first. */
    method WaitingTimeFor(resourceName: string, now: int) returns (r: Option<int>)
      requires Valid()
      modifies this`visits, this`disposalTime
      ensures Valid()
      ensures r.Some? <==> resourceName in old(visits)
      ensures visits == if r.Some? then old(SettledVisits(now)) else old(visits)
      ensures disposalTime == if r.Some? && !IsDisposed() then Some(now) else old(disposalTime)
      ensures r.Some? ==> r.value == WaitingSum(visits[resourceName])
    {
      if resourceName !in visits {
        return None;
      }
      if !IsDisposed() {
        FillInForNonDisposed(now);
      }
      return Some(WaitingSum(visits[resourceName]));
    }

    /** `_calculate_processing_time_for_resource`. */
    method ProcessingTimeFor(resourceName: string, now: int) returns (r: Option<int>)
      requires Valid()
      modifies this`visits, this`disposalTime
      ensures Valid()
      ensures r.Some? <==> resourceName in old(visits)
      ensures visits == if r.Some? then old(SettledVisits(now)) else old(visits)
      ensures disposalTime == if r.Some? && !IsDisposed() then Some(now) else old(disposalTime)
      ensures r.Some? ==> r.value == ProcessingSum(visits[resourceName])
    {
      if resourceName !in visits {
        return None;
      }
      if !IsDisposed() {
        FillInForNonDisposed(now);
      }
      return Some(ProcessingSum(visits[resourceName]));
    }

    /** Whether `_calculate_statistics` finds a disposal time to subtract
        from: a disposed entity needs one already, and one not disposed
        gets `now` only if it visited some resource. */
    predicate CanTotal()
      reads this`creationTime, this`disposalTime, this`visitOrder, attributes
    {
      creationTime.Some? && (IsDisposed() || visitOrder == [] ==> disposalTime.Some?)
    }

    /** One pass of `_calculate_statistics`' loop over a visited resource:
        its waiting time, then its processing time. */
    method TimesFor(resourceName: string, now: int) returns (w: int, p: int)
      requires Valid() && resourceName in visits
      modifies this`visits, this`disposalTime
      ensures Valid()
      ensures disposalTime == if IsDisposed() then old(disposalTime) else Some(now)
      ensures AllLagByAtMostOne(old(visits)) ==>
                && visits == old(SettledVisits(now))
                && AllLagByAtMostOne(visits)
                && SettledVisits(now) == visits
      ensures AllLagByAtMostOne(old(visits)) ==>
                w == WaitingSum(visits[resourceName]) && p == ProcessingSum(visits[resourceName])
    {
      ghost var lagging := AllLagByAtMostOne(visits);
      ghost var settled := SettledVisits(now);
      if lagging {
        PadAllIdempotent(visits, now);
        PadAllKeepsLag(visits, now);
      }
      var waiting := WaitingTimeFor(resourceName, now);
      assert visits == settled;
      var processing := ProcessingTimeFor(resourceName, now);
      assert lagging ==> visits == settled;
      w, p := waiting.value, processing.value;
    }

    /** The same pass with the sums carried along: under the lag invariant
        the running sums over the settled records grow by the `i`-th visited
        resource. */
    method AddTimesFor(order: seq<string>, i: nat, now: int, waiting: int, processing: int,
                       ghost lagging: bool, ghost settled: map<string, Visit>) returns (w: int, p: int)
      requires Valid() && visitOrder == order && i < |order|
      requires lagging ==> AllLagByAtMostOne(visits) && SettledVisits(now) == settled
      requires lagging ==> waiting == WaitingOver(order[..i], settled) && processing == ProcessingOver(order[..i], settled)
      modifies this`visits, this`disposalTime
      ensures Valid()
      ensures disposalTime == if IsDisposed() then old(disposalTime) else Some(now)
      ensures lagging ==> visits == settled && AllLagByAtMostOne(visits) && SettledVisits(now) == settled
      ensures lagging ==> w == WaitingOver(order[..i + 1], settled) && p == ProcessingOver(order[..i + 1], settled)
    {
      var dw, dp := TimesFor(order[i], now);
      if lagging {
        SumStep(order, i, settled, waiting, processing, dw, dp);
      }
      w, p := waiting + dw, processing + dp;
    }

    /** The accumulator loop of `_calculate_statistics`: each visited
        resource's waiting and processing times are added up, the first query
        filling in an entity not disposed. */
    method SumVisitedTimes(now: int) returns (waiting: int, processing: int)
      requires Valid()
      modifies this`visits, this`disposalTime
      ensures Valid()
      ensures disposalTime == if IsDisposed() || visitOrder == [] then old(disposalTime) else Some(now)
      ensures AllLagByAtMostOne(old(visits)) && visitOrder != [] ==> visits == old(SettledVisits(now))
      ensures AllLagByAtMostOne(old(visits)) ==>
                && waiting == WaitingOver(visitOrder, old(SettledVisits(now)))
                && processing == ProcessingOver(visitOrder, old(SettledVisits(now)))
    {
      ghost var stampedBefore := disposalTime;
      ghost var lagging := AllLagByAtMostOne(visits);
      var disposed := IsDisposed();
      ghost var settled := SettledVisits(now);
      var order := visitOrder;
      waiting := 0;
      processing := 0;
      for i := 0 to |order|
        invariant Valid() && visitOrder == order
        invariant disposalTime == if disposed || i == 0 then stampedBefore else Some(now)
        invariant lagging ==> AllLagByAtMostOne(visits) && SettledVisits(now) == settled
        invariant lagging && i > 0 ==> visits == settled
        invariant lagging ==> waiting == WaitingOver(order[..i], settled)
        invariant lagging ==> processing == ProcessingOver(order[..i], settled)
      {
        waiting, processing := AddTimesFor(order, i, now, waiting, processing, lagging, settled);
      }
      assert order[..|order|] == order;
    }
    /** The state `_calculate_statistics` leaves behind when it started from
        the records `visitsBefore` and the disposal time `disposalBefore`:
        the disposal time stamped with `now` unless the entity is disposed or
        visited nothing, the total time stored, and, under the lag invariant,
        the records settled and the stored sums taken over them. */
    ghost predicate StatisticsStored(now: int, visitsBefore: map<string, Visit>, disposalBefore: Option<int>)
      reads this`visits, this`visitOrder, this`disposalTime, this`creationTime, this`totalTime,
            this`waitingTime, this`processingTime, attributes
    {
      && disposalTime == (if IsDisposed() || visitOrder == [] then disposalBefore else Some(now))
      && disposalTime.Some? && creationTime.Some?
      && totalTime == Some(disposalTime.value - creationTime.value)
      && waitingTime.Some? && processingTime.Some?
      && (AllLagByAtMostOne(visitsBefore) ==>
            var settled := if IsDisposed() then visitsBefore else PadAll(visitsBefore, now);
            && (visitOrder != [] ==> visits == settled)
            && waitingTime == Some(WaitingOver(visitOrder, settled))
            && processingTime == Some(ProcessingOver(visitOrder, settled)))
    }

    /** `_calculate_statistics`, without a disposal check: the loop's sums
        and disposal minus creation are stored. */
    method CalculateStatistics(now: int)
      requires Valid() && CanTotal()
      modifies this`visits, this`disposalTime, this`totalTime, this`waitingTime, this`processingTime
      ensures Valid()
      ensures StatisticsStored(now, old(visits), old(disposalTime))
    {
      ghost var visitsBefore := visits;
      ghost var disposalBefore := disposalTime;
      var waiting, processing := SumVisitedTimes(now);
      StoreStatistics(now, waiting, processing, visitsBefore, disposalBefore);
    }

    /** The stores at the end of `_calculate_statistics`, given the sums its
        loop produced from the records `visitsBefore`. */
    method StoreStatistics(now: int, waiting: int, processing: int, ghost visitsBefore: map<string, Visit>, ghost disposalBefore: Option<int>)
      requires creationTime.Some?
      requires disposalTime == (if IsDisposed() || visitOrder == [] then disposalBefore else Some(now))
      requires disposalTime.Some?
      requires AllLagByAtMostOne(visitsBefore) ==>
                 var settled := if IsDisposed() then visitsBefore else PadAll(visitsBefore, now);
                 && (visitOrder != [] ==> visits == settled)
                 && waiting == WaitingOver(visitOrder, settled)
                 && processing == ProcessingOver(visitOrder, settled)
      modifies this`totalTime, this`waitingTime, this`processingTime
      ensures StatisticsStored(now, visitsBefore, disposalBefore)
    {
      totalTime, waitingTime, processingTime := Some(disposalTime.value - creationTime.value), Some(waiting), Some(processing);
    }

    /** `get_total_time`: disposal minus creation, the disposal time of an
        entity not disposed being the query time. */
    method GetTotalTime(now: int) returns (r: int)
      requires Valid() && CanTotal()
      modifies this`visits, this`disposalTime, this`totalTime, this`waitingTime, this`processingTime
      ensures Valid()
      ensures StatisticsStored(now, old(visits), old(disposalTime))
      ensures r == disposalTime.value - creationTime.value
    {
      CalculateStatistics(now);
      r := totalTime.value;
    }

    /** `get_total_waiting_time`. */
    method GetTotalWaitingTime(now: int) returns (r: int)
      requires Valid() && CanTotal()
      modifies this`visits, this`disposalTime, this`totalTime, this`waitingTime, this`processingTime
      ensures Valid()
      ensures StatisticsStored(now, old(visits), old(disposalTime))
      ensures AllLagByAtMostOne(old(visits)) ==> r == WaitingOver(visitOrder, old(SettledVisits(now)))
    {
      CalculateStatistics(now);
      r := waitingTime.value;
    }

    /** `get_total_processing_time`. */
    method GetTotalProcessingTime(now: int) returns (r: int)
      requires Valid() && CanTotal()
      modifies this`visits, this`disposalTime, this`totalTime, this`waitingTime, this`processingTime
      ensures Valid()
      ensures StatisticsStored(now, old(visits), old(disposalTime))
      ensures AllLagByAtMostOne(old(visits)) ==> r == ProcessingOver(visitOrder, old(SettledVisits(now)))
    {
      CalculateStatistics(now);
      r := processingTime.value;
    }

    /** What accessor `a` answers when asked now: disposal minus creation
        (the query time standing in for the disposal time of an entity not
        disposed that visited something), or the sums over the records as
        the query leaves them. */
    function Answer(a: Accessor, now: int): int
      reads this`visitOrder, this`visits, this`creationTime, this`disposalTime, attributes
      requires CanTotal()
    {
      match a
      case TotalTimeOf => (if IsDisposed() || visitOrder == [] then disposalTime.value else now) - creationTime.value
      case WaitingTimeOf => WaitingOver(visitOrder, SettledVisits(now))
      case ProcessingTimeOf => ProcessingOver(visitOrder, SettledVisits(now))
    }

    /** Calls accessor `a`. The waiting and processing sums are those of the
        settled records under the lag invariant. */
    method Get(a: Accessor, now: int) returns (r: int)
      requires Valid() && CanTotal()
      modifies this`visits, this`disposalTime, this`totalTime, this`waitingTime, this`processingTime
      ensures Valid() && CanTotal()
      ensures StatisticsStored(now, old(visits), old(disposalTime))
      ensures a.TotalTimeOf? || AllLagByAtMostOne(old(visits)) ==> r == old(Answer(a, now))
    {
      match a
      case TotalTimeOf =>
        r := GetTotalTime(now);
      case WaitingTimeOf =>
        r := GetTotalWaitingTime(now);
      case ProcessingTimeOf =>
        r := GetTotalProcessingTime(now);
    }
  }

  /** Two entities built without attributes share the default mapping, and
      the flag lives in it: disposing the first makes the second, still in
      flight, count as disposed too. */
  method SharedDefaultDisposesBoth() returns (secondDisposed: bool)
    ensures secondDisposed
  {
    var defaults := new Attributes(map[]);
    var first := new Entity(defaults, None);
    var second := new Entity(defaults, None);
    var _ := first.Dispose(10);
    secondDisposed := second.IsDisposed();
  }

  /** With mappings of their own, disposing the first entity leaves the
      second one not disposed. */
  method OwnAttributesDisposeOne() returns (firstDisposed: bool, secondDisposed: bool)
    ensures firstDisposed && !secondDisposed
  {
    var first := new Entity.WithOwnAttributes(map[], None);
    var second := new Entity.WithOwnAttributes(map[], None);
    var _ := first.Dispose(10);
    firstDisposed := first.IsDisposed();
    secondDisposed := second.IsDisposed();
  }

  /** `[e for e in entities if e.is_disposed()]`. */
  function Disposed(es: seq<Entity>): (r: seq<Entity>)
    reads set e | e in es :: e.attributes
    ensures |r| <= |es|
    ensures forall i :: 0 <= i < |r| ==> r[i] in es && r[i].IsDisposed()
    ensures forall i :: 0 <= i < |es| && es[i].IsDisposed() ==> es[i] in r
  {
    if es == [] then []
    else (if es[0].IsDisposed() then [es[0]] else []) + Disposed(es[1..])
  }

  /** `[e for e in entities if e.matches_attributes(filter)]`. */
  function Select(es: seq<Entity>, filter: map<string, Value>): (r: seq<Entity>)
    reads set e | e in es :: e.attributes
    ensures forall i :: 0 <= i < |r| ==> r[i] in es
  {
    if es == [] then []
    else (if Matches(es[0].attributes.entries, filter) then [es[0]] else []) + Select(es[1..], filter)
  }

  /** The filter keeps exactly the entities whose attributes match, and
      nothing else. */
  lemma {:induction false} SelectMatches(es: seq<Entity>, filter: map<string, Value>)
    ensures |Select(es, filter)| <= |es|
    ensures forall i :: 0 <= i < |Select(es, filter)| ==> Matches(Select(es, filter)[i].attributes.entries, filter)
    ensures forall i :: 0 <= i < |es| && Matches(es[i].attributes.entries, filter) ==> es[i] in Select(es, filter)
  {
    if es != [] {
      SelectMatches(es[1..], filter);
    }
  }

  /** `_filter_entities_on_matched_attributes`: an empty mapping filters
      nothing. */
  function MatchedOrAll(es: seq<Entity>, filter: map<string, Value>): seq<Entity>
    reads set e | e in es :: e.attributes
  {
    if filter != map[] then Select(es, filter) else es
  }

  /** What `_filter_entities` leaves in the caller's mapping: `disposed:
      True` added unless a `disposed` key is already there. */
  function WithDefaultDisposed(filter: map<string, Value>): (r: map<string, Value>)
    ensures r.Keys == filter.Keys + {"disposed"}
    ensures forall k :: k in filter ==> r[k] == filter[k]
    ensures "disposed" !in filter ==> r["disposed"] == TrueValue
  {
    if "disposed" in filter then filter else filter["disposed" := TrueValue]
  }

  /** The disposed flag as the constructor and `dispose` write it. */
  predicate FlagIsBoolean(e: Entity)
    reads e.attributes
  {
    "disposed" in e.attributes.entries ==>
      e.attributes.entries["disposed"] == TrueValue || e.attributes.entries["disposed"] == FalseValue
  }

  /** With the flags as the entity writes them, the default filter selects
      exactly the disposed entities, in order. */
  lemma {:induction false} DefaultFilterSelectsDisposed(es: seq<Entity>)
    requires forall e :: e in es ==> FlagIsBoolean(e)
    ensures MatchedOrAll(es, WithDefaultDisposed(map[])) == Disposed(es)
  {
    if es != [] {
      DefaultFilterSelectsDisposed(es[1..]);
    }
  }

  /** A `disposed` key of the caller's overrides the default: e.g.
      `disposed: False` selects the entities not disposed. */
  lemma {:induction false} DisposedFalseSelectsLive(es: seq<Entity>)
    requires forall e :: e in es ==> FlagIsBoolean(e) && "disposed" in e.attributes.entries
    ensures var selected := MatchedOrAll(es, WithDefaultDisposed(map["disposed" := FalseValue]));
            forall i :: 0 <= i < |selected| ==> !selected[i].IsDisposed()
    ensures forall i :: 0 <= i < |es| && !es[i].IsDisposed() ==>
              es[i] in MatchedOrAll(es, WithDefaultDisposed(map["disposed" := FalseValue]))
  {
    var filter := map["disposed" := FalseValue];
    assert WithDefaultDisposed(filter) == filter;
    SelectMatches(es, filter);
    forall i | 0 <= i < |es| && !es[i].IsDisposed()
      ensures es[i] in Select(es, filter)
    {
      assert es[i] in es;
      assert Matches(es[i].attributes.entries, filter);
    }
  }

  /** The selection as the attribute mappings' contents give it. */
  ghost function SelectAmong(es: seq<Entity>, entries: seq<map<string, Value>>, filter: map<string, Value>): seq<Entity>
    requires |entries| == |es|
  {
    if es == [] then []
    else (if Matches(entries[0], filter) then [es[0]] else []) + SelectAmong(es[1..], entries[1..], filter)
  }

  /** The filter looks at nothing but the contents of the attribute
      mappings: a query that leaves them alone selects the same entities. */
  lemma {:induction false} SelectFromEntries(es: seq<Entity>, entries: seq<map<string, Value>>, filter: map<string, Value>)
    requires |entries| == |es|
    requires forall k :: 0 <= k < |es| ==> entries[k] == es[k].attributes.entries
    ensures Select(es, filter) == SelectAmong(es, entries, filter)
  {
    if es != [] {
      SelectFromEntries(es[1..], entries[1..], filter);
    }
  }

  /** The filter keeps the relative order of the entities. */
  lemma {:induction false} SelectKeepsOrder(a: seq<Entity>, b: seq<Entity>, filter: map<string, Value>)
    ensures Select(a + b, filter) == Select(a, filter) + Select(b, filter)
  {
    if a != [] {
      assert (a + b)[0] == a[0] && (a + b)[1..] == a[1..] + b;
      SelectKeepsOrder(a[1..], b, filter);
    } else {
      assert a + b == b;
    }
  }

  /** The entities that visited the named resource, in order. */
  function Visitors(es: seq<Entity>, name: string): (r: seq<Entity>)
    reads es
    ensures |r| <= |es|
    ensures forall i :: 0 <= i < |r| ==> r[i] in es && name in r[i].visits
  {
    if es == [] then []
    else (if name in es[0].visits then [es[0]] else []) + Visitors(es[1..], name)
  }

  /** Every entity that visited the resource is among the visitors. */
  lemma {:induction false} VisitorsComplete(es: seq<Entity>, name: string)
    ensures forall i :: 0 <= i < |es| && name in es[i].visits ==> es[i] in Visitors(es, name)
  {
    if es != [] {
      VisitorsComplete(es[1..], name);
      assert forall i :: 1 <= i < |es| ==> es[i] == es[1..][i - 1];
    }
  }

  /** The per-resource waiting times the entities' records give, the
      entities that never visited being dropped. */
  function RecordedWaiting(es: seq<Entity>, name: string): seq<int>
    reads es
  {
    if es == [] then []
    else (if name in es[0].visits then [WaitingSum(es[0].visits[name])] else []) + RecordedWaiting(es[1..], name)
  }

  /** The per-resource processing times the entities' records give. */
  function RecordedProcessing(es: seq<Entity>, name: string): seq<int>
    reads es
  {
    if es == [] then []
    else (if name in es[0].visits then [ProcessingSum(es[0].visits[name])] else []) + RecordedProcessing(es[1..], name)
  }

  /** The answers line up with the visitors: one per entity that visited
      the resource, in registry order. */
  lemma {:induction false} RecordedAnswersFollowVisitors(es: seq<Entity>, name: string)
    ensures |RecordedWaiting(es, name)| == |RecordedProcessing(es, name)| == |Visitors(es, name)|
    ensures forall i :: 0 <= i < |Visitors(es, name)| ==>
              && RecordedWaiting(es, name)[i] == WaitingSum(Visitors(es, name)[i].visits[name])
              && RecordedProcessing(es, name)[i] == ProcessingSum(Visitors(es, name)[i].visits[name])
  {
    if es != [] {
      RecordedAnswersFollowVisitors(es[1..], name);
      if name in es[0].visits {
        assert Visitors(es, name) == [es[0]] + Visitors(es[1..], name);
      } else {
        assert Visitors(es, name) == Visitors(es[1..], name);
      }
    }
  }

  /** The per-resource waiting times as the record maps give them. */
  ghost function WaitingAmong(vs: seq<map<string, Visit>>, name: string): seq<int> {
    if vs == [] then []
    else (if name in vs[0] then [WaitingSum(vs[0][name])] else []) + WaitingAmong(vs[1..], name)
  }

  /** The answers look at nothing but the records. */
  lemma {:induction false} WaitingFromVisits(es: seq<Entity>, vs: seq<map<string, Visit>>, name: string)
    requires |vs| == |es|
    requires forall k :: 0 <= k < |es| ==> vs[k] == es[k].visits
    ensures RecordedWaiting(es, name) == WaitingAmong(vs, name)
  {
    if es != [] {
      WaitingFromVisits(es[1..], vs[1..], name);
    }
  }

  /** `[t1 + t2 for t1, t2 in zip(a, b)]`. */
  function ZipSum(a: seq<int>, b: seq<int>): (r: seq<int>)
    ensures |r| == Min(|a|, |b|)
    ensures forall i :: 0 <= i < |r| ==> r[i] == a[i] + b[i]
  {
    if a == [] || b == [] then [] else [a[0] + b[0]] + ZipSum(a[1..], b[1..])
  }

  /** Filtering a registry of distinct entities yields distinct entities. */
  lemma {:induction false} SelectKeepsDistinct(es: seq<Entity>, filter: map<string, Value>)
    requires Distinct(es)
    ensures Distinct(Select(es, filter))
  {
    if es != [] {
      SelectKeepsDistinct(es[1..], filter);
      assert es[0] !in es[1..];
    }
  }

  /** Appending one entity adds its answer, if it visited, at the end. */
  lemma {:induction false} RecordedSnoc(es: seq<Entity>, e: Entity, name: string)
    ensures RecordedWaiting(es + [e], name) == RecordedWaiting(es, name) + (if name in e.visits then [WaitingSum(e.visits[name])] else [])
    ensures RecordedProcessing(es + [e], name) == RecordedProcessing(es, name) + (if name in e.visits then [ProcessingSum(e.visits[name])] else [])
  {
    if es != [] {
      assert (es + [e])[1..] == es[1..] + [e];
      RecordedSnoc(es[1..], e, name);
    } else {
      assert es + [e] == [e];
    }
  }

  /** `RecordedSnoc` stated on the prefixes of one sequence. */
  lemma RecordedPrefixStep(es: seq<Entity>, i: nat, name: string)
    requires i < |es|
    ensures RecordedWaiting(es[..i + 1], name) == RecordedWaiting(es[..i], name) + (if name in es[i].visits then [WaitingSum(es[i].visits[name])] else [])
    ensures RecordedProcessing(es[..i + 1], name) == RecordedProcessing(es[..i], name) + (if name in es[i].visits then [ProcessingSum(es[i].visits[name])] else [])
  {
    assert es[..i + 1] == es[..i] + [es[i]];
    RecordedSnoc(es[..i], es[i], name);
  }

  /** The state a per-resource query leaves an entity in: filled in and
      stamped when it visited the resource and is not disposed, untouched
      otherwise. */
  ghost predicate Answered(e: Entity, name: string, visitsBefore: map<string, Visit>, disposalBefore: Option<int>, now: int)
    reads e`visits, e`disposalTime, e.attributes
  {
    Settled(name, e.IsDisposed(), visitsBefore, disposalBefore, e.visits, e.disposalTime, now)
  }

  /** The same, on the records and disposal times before and after. */
  ghost predicate Settled(name: string, disposed: bool, visitsBefore: map<string, Visit>, disposalBefore: Option<int>,
                          visitsAfter: map<string, Visit>, disposalAfter: Option<int>, now: int)
  {
    if name in visitsBefore && !disposed then visitsAfter == PadAll(visitsBefore, now) && disposalAfter == Some(now)
    else visitsAfter == visitsBefore && disposalAfter == disposalBefore
  }

  /** Asking a second time changes nothing once the first answer has filled
      the records in: under the lag invariant the fill-in is idempotent, and
      the disposal time is stamped with the same `now`. */
  lemma SettledTwice(name: string, disposed: bool, v0: map<string, Visit>, d0: Option<int>,
                     v1: map<string, Visit>, d1: Option<int>, v2: map<string, Visit>, d2: Option<int>, now: int)
    requires AllLagByAtMostOne(v0)
    requires Settled(name, disposed, v0, d0, v1, d1, now)
    requires Settled(name, disposed, v1, d1, v2, d2, now)
    ensures v2 == v1 && d2 == d1
  {
    if name in v0 && !disposed {
      PadAllIdempotent(v0, now);
    }
  }

  /** The visitors as the visited-resource names of each entity give them. */
  ghost function VisitorsAmong(es: seq<Entity>, keys: seq<set<string>>, name: string): seq<Entity>
    requires |keys| == |es|
  {
    if es == [] then []
    else (if name in keys[0] then [es[0]] else []) + VisitorsAmong(es[1..], keys[1..], name)
  }

  /** The visitors depend on nothing but which resources each entity
      visited: a query that only pads records leaves them as they were. */
  lemma {:induction false} VisitorsFromKeys(es: seq<Entity>, keys: seq<set<string>>, name: string)
    requires |keys| == |es|
    requires forall k :: 0 <= k < |es| ==> keys[k] == es[k].visits.Keys
    ensures Visitors(es, name) == VisitorsAmong(es, keys, name)
  {
    if es != [] {
      VisitorsFromKeys(es[1..], keys[1..], name);
    }
  }

  /** The same for a whole selection: the second query leaves every record
      and disposal time as the first one left them. */
  lemma SecondAskSettles(name: string, now: int, disposed: seq<bool>,
                         vb: seq<map<string, Visit>>, db: seq<Option<int>>,
                         vm: seq<map<string, Visit>>, dm: seq<Option<int>>,
                         ve: seq<map<string, Visit>>, de: seq<Option<int>>)
    requires |disposed| == |vb| == |db| == |vm| == |dm| == |ve| == |de|
    requires forall k :: 0 <= k < |vb| ==> AllLagByAtMostOne(vb[k])
    requires forall k :: 0 <= k < |vb| ==> Settled(name, disposed[k], vb[k], db[k], vm[k], dm[k], now)
    requires forall k :: 0 <= k < |vb| ==> Settled(name, disposed[k], vm[k], dm[k], ve[k], de[k], now)
    ensures ve == vm && de == dm
    ensures forall k :: 0 <= k < |vb| ==> Settled(name, disposed[k], vb[k], db[k], ve[k], de[k], now)
  {
    forall k | 0 <= k < |vb|
      ensures ve[k] == vm[k] && de[k] == dm[k]
    {
      SettledTwice(name, disposed[k], vb[k], db[k], vm[k], dm[k], ve[k], de[k], now);
    }
  }

  /** Snapshots of the entities' state, one entry per entity. */
  ghost function VisitsOf(es: seq<Entity>): (vs: seq<map<string, Visit>>)
    reads es
    ensures |vs| == |es| && forall k :: 0 <= k < |es| ==> vs[k] == es[k].visits
  {
    if es == [] then [] else [es[0].visits] + VisitsOf(es[1..])
  }

  ghost function DisposalsOf(es: seq<Entity>): (ds: seq<Option<int>>)
    reads es
    ensures |ds| == |es| && forall k :: 0 <= k < |es| ==> ds[k] == es[k].disposalTime
  {
    if es == [] then [] else [es[0].disposalTime] + DisposalsOf(es[1..])
  }

  ghost function DisposedOf(es: seq<Entity>): (bs: seq<bool>)
    reads es, set e | e in es :: e.attributes
    ensures |bs| == |es| && forall k :: 0 <= k < |es| ==> bs[k] == es[k].IsDisposed()
  {
    if es == [] then [] else [es[0].IsDisposed()] + DisposedOf(es[1..])
  }

  ghost function EntriesOf(es: seq<Entity>): (ms: seq<map<string, Value>>)
    reads set e | e in es :: e.attributes
    ensures |ms| == |es| && forall k :: 0 <= k < |es| ==> ms[k] == es[k].attributes.entries
  {
    if es == [] then [] else [es[0].attributes.entries] + EntriesOf(es[1..])
  }

  /** A selection asked twice in a row, in the state after the second
      query: `vm` and `dm` are what the first query left, `vb` and `db` what
      was there before it. Under the lag invariant the second query left
      everything as the first one did. */
  lemma SecondAskSettlesInPlace(es: seq<Entity>, name: string, now: int, disposed: seq<bool>,
                                vb: seq<map<string, Visit>>, db: seq<Option<int>>,
                                vm: seq<map<string, Visit>>, dm: seq<Option<int>>)
    requires |disposed| == |vb| == |db| == |vm| == |dm| == |es|
    requires forall k :: 0 <= k < |es| ==> AllLagByAtMostOne(vb[k])
    requires forall k :: 0 <= k < |es| ==> disposed[k] == es[k].IsDisposed()
    requires forall k :: 0 <= k < |es| ==> Settled(name, disposed[k], vb[k], db[k], vm[k], dm[k], now)
    requires forall k :: 0 <= k < |es| ==> Answered(es[k], name, vm[k], dm[k], now)
    ensures forall k :: 0 <= k < |es| ==> es[k].visits == vm[k] && es[k].disposalTime == dm[k]
    ensures forall k :: 0 <= k < |es| ==> Answered(es[k], name, vb[k], db[k], now)
    ensures RecordedWaiting(es, name) == WaitingAmong(vm, name)
  {
    ghost var ve := VisitsOf(es);
    ghost var de := DisposalsOf(es);
    SecondAskSettles(name, now, disposed, vb, db, vm, dm, ve, de);
    WaitingFromVisits(es, ve, name);
  }

  /** No two entries of the registry are the same entity. */
  ghost predicate Distinct(es: seq<Entity>) {
    forall i, j :: 0 <= i < j < |es| ==> es[i] != es[j]
  }

  /** How far that loop has got: the first `i` entities have been asked,
      the others still hold the records `vb` and the disposal times `db`
      they started with. */
  ghost predicate AskedUpTo(es: seq<Entity>, i: nat, name: string, vb: seq<map<string, Visit>>, db: seq<Option<int>>, now: int)
    reads es, set e | e in es :: e.attributes
  {
    && i <= |es| && |vb| == |es| && |db| == |es|
    && forall k :: 0 <= k < |es| ==>
         if k < i then Answered(es[k], name, vb[k], db[k], now)
         else es[k].visits == vb[k] && es[k].disposalTime == db[k]
  }

  /** One pass of that loop: entity `i` is asked, its answer extends the
      answers of the entities before it, and no other entity is touched. */
  method AskOneWaiting(registry: seq<Entity>, es: seq<Entity>, i: nat, e: Entity, name: string, now: int,
                       ghost vb: seq<map<string, Visit>>, ghost db: seq<Option<int>>) returns (v: Option<int>)
    requires Distinct(es) && i < |es| && es[i] == e
    requires forall k :: 0 <= k < |registry| ==> registry[k].Valid()
    requires e.Valid()
    requires AskedUpTo(es, i, name, vb, db, now)
    modifies e`visits, e`disposalTime
    ensures forall k :: 0 <= k < |registry| ==> registry[k].Valid()
    ensures RecordedWaiting(es[..i + 1], name) == old(RecordedWaiting(es[..i], name)) + (if v.Some? then [v.value] else [])
    ensures AskedUpTo(es, i + 1, name, vb, db, now)
    ensures forall k :: 0 <= k < |es| ==> es[k].attributes.entries == old(es[k].attributes.entries)
    ensures forall k :: 0 <= k < |registry| ==> registry[k].attributes.entries == old(registry[k].attributes.entries)
  {
    assert e !in es[..i];
    assert forall k :: 0 <= k < |es| && k != i ==> es[k] != e;
    ghost var before := RecordedWaiting(es[..i], name);
    v := e.WaitingTimeFor(name, now);
    assert RecordedWaiting(es[..i], name) == before;
    assert forall k :: 0 <= k < |es| && k != i ==>
             Answered(es[k], name, vb[k], db[k], now) == old(Answered(es[k], name, vb[k], db[k], now));
    RecordedPrefixStep(es, i, name);
  }

  /** The loop of `_get_waiting_times_for_resource` over the filtered
      entities `es`, drawn from `registry`. */
  method AskWaiting(registry: seq<Entity>, es: seq<Entity>, name: string, now: int) returns (r: seq<int>)
    requires Distinct(es)
    requires forall k :: 0 <= k < |registry| ==> registry[k].Valid()
    requires forall k :: 0 <= k < |es| ==> es[k] in registry
    modifies es`visits, es`disposalTime
    ensures forall k :: 0 <= k < |registry| ==> registry[k].Valid()
    ensures forall k :: 0 <= k < |es| ==> es[k].attributes.entries == old(es[k].attributes.entries)
    ensures forall k :: 0 <= k < |registry| ==> registry[k].attributes.entries == old(registry[k].attributes.entries)
    ensures r == RecordedWaiting(es, name)
    ensures forall k :: 0 <= k < |es| ==> Answered(es[k], name, old(es[k].visits), old(es[k].disposalTime), now)
  {
    ghost var vb := seq(|es|, k requires 0 <= k < |es| reads es => es[k].visits);
    ghost var db := seq(|es|, k requires 0 <= k < |es| reads es => es[k].disposalTime);
    r := [];
    for i := 0 to |es|
      invariant forall k :: 0 <= k < |registry| ==> registry[k].Valid()
      invariant r == RecordedWaiting(es[..i], name)
      invariant forall k :: 0 <= k < |es| ==> vb[k] == old(es[k].visits) && db[k] == old(es[k].disposalTime)
      invariant forall k :: 0 <= k < |es| ==> es[k].attributes.entries == old(es[k].attributes.entries)
      invariant forall k :: 0 <= k < |registry| ==> registry[k].attributes.entries == old(registry[k].attributes.entries)
      invariant AskedUpTo(es, i, name, vb, db, now)
    {
      var v := AskOneWaiting(registry, es, i, es[i], name, now, vb, db);
      if v.Some? {
        r := r + [v.value];
      }
    }
    assert es[..|es|] == es;
  }

  /** One pass of the loop of `_get_processing_times_for_resource`. */
  method AskOneProcessing(registry: seq<Entity>, es: seq<Entity>, i: nat, e: Entity, name: string, now: int,
                       ghost vb: seq<map<string, Visit>>, ghost db: seq<Option<int>>) returns (v: Option<int>)
    requires Distinct(es) && i < |es| && es[i] == e
    requires forall k :: 0 <= k < |registry| ==> registry[k].Valid()
    requires e.Valid()
    requires AskedUpTo(es, i, name, vb, db, now)
    modifies e`visits, e`disposalTime
    ensures forall k :: 0 <= k < |registry| ==> registry[k].Valid()
    ensures RecordedProcessing(es[..i + 1], name) == old(RecordedProcessing(es[..i], name)) + (if v.Some? then [v.value] else [])
    ensures AskedUpTo(es, i + 1, name, vb, db, now)
    ensures forall k :: 0 <= k < |es| ==> es[k].attributes.entries == old(es[k].attributes.entries)
    ensures forall k :: 0 <= k < |registry| ==> registry[k].attributes.entries == old(registry[k].attributes.entries)
  {
    assert e !in es[..i];
    assert forall k :: 0 <= k < |es| && k != i ==> es[k] != e;
    ghost var before := RecordedProcessing(es[..i], name);
    v := e.ProcessingTimeFor(name, now);
    assert RecordedProcessing(es[..i], name) == before;
    assert forall k :: 0 <= k < |es| && k != i ==>
             Answered(es[k], name, vb[k], db[k], now) == old(Answered(es[k], name, vb[k], db[k], now));
    RecordedPrefixStep(es, i, name);
  }

  /** The loop of `_get_processing_times_for_resource`. */
  method AskProcessing(registry: seq<Entity>, es: seq<Entity>, name: string, now: int) returns (r: seq<int>)
    requires Distinct(es)
    requires forall k :: 0 <= k < |registry| ==> registry[k].Valid()
    requires forall k :: 0 <= k < |es| ==> es[k] in registry
    modifies es`visits, es`disposalTime
    ensures forall k :: 0 <= k < |registry| ==> registry[k].Valid()
    ensures forall k :: 0 <= k < |es| ==> es[k].attributes.entries == old(es[k].attributes.entries)
    ensures forall k :: 0 <= k < |registry| ==> registry[k].attributes.entries == old(registry[k].attributes.entries)
    ensures r == RecordedProcessing(es, name)
    ensures forall k :: 0 <= k < |es| ==> Answered(es[k], name, old(es[k].visits), old(es[k].disposalTime), now)
  {
    ghost var vb := seq(|es|, k requires 0 <= k < |es| reads es => es[k].visits);
    ghost var db := seq(|es|, k requires 0 <= k < |es| reads es => es[k].disposalTime);
    r := [];
    for i := 0 to |es|
      invariant forall k :: 0 <= k < |registry| ==> registry[k].Valid()
      invariant r == RecordedProcessing(es[..i], name)
      invariant forall k :: 0 <= k < |es| ==> vb[k] == old(es[k].visits) && db[k] == old(es[k].disposalTime)
      invariant forall k :: 0 <= k < |es| ==> es[k].attributes.entries == old(es[k].attributes.entries)
      invariant forall k :: 0 <= k < |registry| ==> registry[k].attributes.entries == old(registry[k].attributes.entries)
      invariant AskedUpTo(es, i, name, vb, db, now)
    {
      var v := AskOneProcessing(registry, es, i, es[i], name, now, vb, db);
      if v.Some? {
        r := r + [v.value];
      }
    }
    assert es[..|es|] == es;
  }

  /** The processing query of `_get_total_times_for_resource`, asked of
      entities the waiting query has just answered (it saw records `vb` and
      disposal times `db` and answered `waiting`). Under the lag invariant
      it finds every record already filled in and leaves them as they are. */
  method AskProcessingAfterWaiting(registry: seq<Entity>, es: seq<Entity>, name: string, now: int,
                                   ghost vb: seq<map<string, Visit>>, ghost db: seq<Option<int>>, ghost waiting: seq<int>)
    returns (processing: seq<int>)
    requires Distinct(es)
    requires forall k :: 0 <= k < |registry| ==> registry[k].Valid()
    requires forall k :: 0 <= k < |es| ==> es[k] in registry
    requires |vb| == |db| == |es|
    requires forall k :: 0 <= k < |es| ==> Answered(es[k], name, vb[k], db[k], now)
    requires waiting == RecordedWaiting(es, name)
    modifies es`visits, es`disposalTime
    ensures forall k :: 0 <= k < |registry| ==> registry[k].Valid()
    ensures forall k :: 0 <= k < |registry| ==> registry[k].attributes.entries == old(registry[k].attributes.entries)
    ensures processing == RecordedProcessing(es, name)
    ensures |processing| == |waiting| == |Visitors(es, name)|
    ensures (forall k :: 0 <= k < |es| ==> AllLagByAtMostOne(vb[k])) ==>
              && waiting == RecordedWaiting(es, name)
              && forall k :: 0 <= k < |es| ==> Answered(es[k], name, vb[k], db[k], now)
  {
    RecordedAnswersFollowVisitors(es, name);
    ghost var vm := VisitsOf(es);
    ghost var dm := DisposalsOf(es);
    ghost var keys := seq(|es|, k requires 0 <= k < |es| => vm[k].Keys);
    ghost var disposed := DisposedOf(es);
    WaitingFromVisits(es, vm, name);
    VisitorsFromKeys(es, keys, name);
    processing := AskProcessing(registry, es, name, now);
    RecordedAnswersFollowVisitors(es, name);
    VisitorsFromKeys(es, keys, name);
    if forall k :: 0 <= k < |es| ==> AllLagByAtMostOne(vb[k]) {
      SecondAskSettlesInPlace(es, name, now, disposed, vb, db, vm, dm);
    }
  }

  /** Every entity of `es`, whose records and disposal times were `vb` and
      `db`, as a query of resource `name` leaves it. */
  ghost predicate AllAnswered(es: seq<Entity>, name: string, now: int, vb: seq<map<string, Visit>>, db: seq<Option<int>>)
    reads es, set e | e in es :: e.attributes
  {
    && |vb| == |es| && |db| == |es|
    && forall k :: 0 <= k < |es| ==> Answered(es[k], name, vb[k], db[k], now)
  }

  /** The body of `_get_waiting_times_for_resource` once the mapping holds `disposed`:
      the entities it selects are asked in turn, and since no answer touches
      an attribute the filter still selects them afterwards. */
  method AskWaitingSelected(registry: seq<Entity>, filter: map<string, Value>, es: seq<Entity>, name: string, now: int) returns (r: seq<int>)
    requires es == Select(registry, filter)
    requires Distinct(registry)
    requires forall k :: 0 <= k < |registry| ==> registry[k].Valid()
    modifies es`visits, es`disposalTime
    ensures forall k :: 0 <= k < |registry| ==> registry[k].Valid()
    ensures Select(registry, filter) == es
    ensures r == RecordedWaiting(es, name)
    ensures AllAnswered(es, name, now, old(VisitsOf(es)), old(DisposalsOf(es)))
    ensures forall k :: 0 <= k < |registry| && registry[k] !in es ==> unchanged(registry[k])
  {
    SelectKeepsDistinct(registry, filter);
    ghost var entries := EntriesOf(registry);
    SelectFromEntries(registry, entries, filter);
    r := AskWaiting(registry, es, name, now);
    SelectFromEntries(registry, entries, filter);
  }

  /** The body of `_get_processing_times_for_resource` once the mapping holds `disposed`:
      the entities it selects are asked in turn, and since no answer touches
      an attribute the filter still selects them afterwards. */
  method AskProcessingSelected(registry: seq<Entity>, filter: map<string, Value>, es: seq<Entity>, name: string, now: int) returns (r: seq<int>)
    requires es == Select(registry, filter)
    requires Distinct(registry)
    requires forall k :: 0 <= k < |registry| ==> registry[k].Valid()
    modifies es`visits, es`disposalTime
    ensures forall k :: 0 <= k < |registry| ==> registry[k].Valid()
    ensures Select(registry, filter) == es
    ensures r == RecordedProcessing(es, name)
    ensures AllAnswered(es, name, now, old(VisitsOf(es)), old(DisposalsOf(es)))
    ensures forall k :: 0 <= k < |registry| && registry[k] !in es ==> unchanged(registry[k])
  {
    SelectKeepsDistinct(registry, filter);
    ghost var entries := EntriesOf(registry);
    SelectFromEntries(registry, entries, filter);
    r := AskProcessing(registry, es, name, now);
    SelectFromEntries(registry, entries, filter);
  }

  /** What the total-time query of a resource leaves behind for the entities
      `es` it asked, whose records and disposal times were `vb` and `db`: one
      answer per visitor, and, under the lag invariant, the recorded waiting
      and processing sums added pairwise, each entity filled in and stamped
      as a single query would have left it. */
  ghost predicate TotalsAnswered(es: seq<Entity>, name: string, now: int,
                                 vb: seq<map<string, Visit>>, db: seq<Option<int>>, r: seq<int>)
    reads es, set e | e in es :: e.attributes
  {
    && |vb| == |es| && |db| == |es|
    && |r| == |Visitors(es, name)|
    && ((forall k :: 0 <= k < |es| ==> AllLagByAtMostOne(vb[k])) ==>
          && r == ZipSum(RecordedWaiting(es, name), RecordedProcessing(es, name))
          && AllAnswered(es, name, now, vb, db))
  }

  /** The waiting query, then the processing query, of the same entities,
      their answers added pairwise. */
  method AskBoth(registry: seq<Entity>, es: seq<Entity>, name: string, now: int) returns (r: seq<int>)
    requires Distinct(es)
    requires forall k :: 0 <= k < |registry| ==> registry[k].Valid()
    requires forall k :: 0 <= k < |es| ==> es[k] in registry
    modifies es`visits, es`disposalTime
    ensures forall k :: 0 <= k < |registry| ==> registry[k].Valid()
    ensures forall k :: 0 <= k < |registry| ==> registry[k].attributes.entries == old(registry[k].attributes.entries)
    ensures TotalsAnswered(es, name, now, old(VisitsOf(es)), old(DisposalsOf(es)), r)
  {
    ghost var vb := VisitsOf(es);
    ghost var db := DisposalsOf(es);
    var waiting := AskWaiting(registry, es, name, now);
    var processing := AskProcessingAfterWaiting(registry, es, name, now, vb, db, waiting);
    r := ZipSum(waiting, processing);
  }

  /** The body of `_get_total_times_for_resource` once the mapping holds
      `disposed`: the waiting query selects with it and asks, the processing
      query selects again and asks, and the two lists are added pairwise.
      Neither query touches an attribute, so both select the same entities. */
  method AskTotals(registry: seq<Entity>, filter: map<string, Value>, es: seq<Entity>, name: string, now: int) returns (r: seq<int>)
    requires "disposed" in filter && es == Select(registry, filter)
    requires Distinct(registry)
    requires forall k :: 0 <= k < |registry| ==> registry[k].Valid()
    modifies es`visits, es`disposalTime
    ensures forall k :: 0 <= k < |registry| ==> registry[k].Valid()
    ensures Select(registry, filter) == es
    ensures TotalsAnswered(es, name, now, old(VisitsOf(es)), old(DisposalsOf(es)), r)
    ensures forall k :: 0 <= k < |registry| && registry[k] !in es ==> unchanged(registry[k])
  {
    SelectKeepsDistinct(registry, filter);
    ghost var entries := EntriesOf(registry);
    SelectFromEntries(registry, entries, filter);
    r := AskBoth(registry, es, name, now);
    SelectFromEntries(registry, entries, filter);
  }

  /** How far the loop of `get_total_times` (or its waiting or processing
      twin) has got: the first `i` answers are what the accessor would have
      answered before the loop, for every entity the lag invariant covers,
      and the entities not yet asked are as they were. */
  ghost predicate GotUpTo(es: seq<Entity>, i: nat, a: Accessor, now: int, expected: seq<int>, covered: seq<bool>,
                          vb: seq<map<string, Visit>>, db: seq<Option<int>>, r: seq<int>)
    reads es, set e | e in es :: e.attributes
  {
    && i <= |es| && |expected| == |es| && |covered| == |es| && |vb| == |es| && |db| == |es| && |r| == i
    && (forall k :: 0 <= k < i ==> es[k].StatisticsStored(now, vb[k], db[k]))
    && (forall k :: 0 <= k < i && covered[k] ==> r[k] == expected[k])
    && forall k :: i <= k < |es| ==>
         && es[k].CanTotal()
         && es[k].visits == vb[k] && es[k].disposalTime == db[k]
         && expected[k] == es[k].Answer(a, now)
         && covered[k] == (a.TotalTimeOf? || AllLagByAtMostOne(es[k].visits))
  }

  /** One pass of that loop: entity `i` is asked, and no other is touched. */
  method GetOne(registry: seq<Entity>, es: seq<Entity>, i: nat, e: Entity, a: Accessor, now: int,
                ghost expected: seq<int>, ghost covered: seq<bool>,
                ghost vb: seq<map<string, Visit>>, ghost db: seq<Option<int>>, r: seq<int>) returns (r': seq<int>)
    requires Distinct(es) && i < |es| && es[i] == e
    requires forall k :: 0 <= k < |registry| ==> registry[k].Valid()
    requires e.Valid()
    requires GotUpTo(es, i, a, now, expected, covered, vb, db, r)
    modifies e`visits, e`disposalTime, e`totalTime, e`waitingTime, e`processingTime
    ensures forall k :: 0 <= k < |registry| ==> registry[k].Valid()
    ensures GotUpTo(es, i + 1, a, now, expected, covered, vb, db, r')
  {
    assert forall k :: 0 <= k < |es| && k != i ==> es[k] != e;
    var v := e.Get(a, now);
    r' := r + [v];
  }

  /** `[entity.get_total_time() for entity in filtered_entities]`, or the
      waiting or processing accessor: one answer per entity, in order, each
      what the entity would have answered on its own, each entity left as
      its own statistics computation leaves it. */
  method GetEach(registry: seq<Entity>, es: seq<Entity>, a: Accessor, now: int) returns (r: seq<int>)
    requires Distinct(es)
    requires forall k :: 0 <= k < |registry| ==> registry[k].Valid()
    requires forall k :: 0 <= k < |es| ==> es[k] in registry && es[k].CanTotal()
    modifies es`visits, es`disposalTime, es`totalTime, es`waitingTime, es`processingTime
    ensures forall k :: 0 <= k < |registry| ==> registry[k].Valid()
    ensures |r| == |es|
    ensures forall k :: 0 <= k < |es| && (a.TotalTimeOf? || AllLagByAtMostOne(old(es[k].visits))) ==>
              r[k] == old(es[k].Answer(a, now))
    ensures forall k :: 0 <= k < |es| ==> es[k].StatisticsStored(now, old(es[k].visits), old(es[k].disposalTime))
    ensures forall k :: 0 <= k < |registry| && registry[k] !in es ==> unchanged(registry[k])
  {
    ghost var expected := seq(|es|, k requires 0 <= k < |es| && es[k].CanTotal()
                                       reads es, set e | e in es :: e.attributes => es[k].Answer(a, now));
    ghost var covered := seq(|es|, k requires 0 <= k < |es| reads es => a.TotalTimeOf? || AllLagByAtMostOne(es[k].visits));
    ghost var vb := VisitsOf(es);
    ghost var db := DisposalsOf(es);
    r := [];
    for i := 0 to |es|
      invariant forall k :: 0 <= k < |registry| ==> registry[k].Valid()
      invariant forall k :: 0 <= k < |es| ==>
                  expected[k] == old(es[k].Answer(a, now))
                  && covered[k] == (a.TotalTimeOf? || AllLagByAtMostOne(old(es[k].visits)))
                  && vb[k] == old(es[k].visits) && db[k] == old(es[k].disposalTime)
      invariant GotUpTo(es, i, a, now, expected, covered, vb, db, r)
    {
      r := GetOne(registry, es, i, es[i], a, now, expected, covered, vb, db, r);
    }
  }

  /** Every selected entity asked in turn: the accessors touch no
      attribute, so the filter still selects the same entities afterwards. */
  method AnswerSelected(registry: seq<Entity>, filter: map<string, Value>, es: seq<Entity>, a: Accessor, now: int) returns (r: seq<int>)
    requires es == Select(registry, filter)
    requires Distinct(registry)
    requires forall k :: 0 <= k < |registry| ==> registry[k].Valid()
    requires forall k :: 0 <= k < |es| ==> es[k].CanTotal()
    modifies es`visits, es`disposalTime, es`totalTime, es`waitingTime, es`processingTime
    ensures forall k :: 0 <= k < |registry| ==> registry[k].Valid()
    ensures Select(registry, filter) == es
    ensures |r| == |es|
    ensures forall k :: 0 <= k < |es| && (a.TotalTimeOf? || AllLagByAtMostOne(old(es[k].visits))) ==>
              r[k] == old(es[k].Answer(a, now))
    ensures forall k :: 0 <= k < |es| ==> es[k].StatisticsStored(now, old(es[k].visits), old(es[k].disposalTime))
    ensures forall k :: 0 <= k < |registry| && registry[k] !in es ==> unchanged(registry[k])
  {
    SelectKeepsDistinct(registry, filter);
    ghost var entries := EntriesOf(registry);
    SelectFromEntries(registry, entries, filter);
    r := GetEach(registry, es, a, now);
    SelectFromEntries(registry, entries, filter);
  }

  /** The class attribute `Stats.summary` of the legacy registry. */
  class Summary {
    var current: Stats?

    constructor ()
      ensures current == null
    {
      current := null;
    }
  }

  class Stats {
    var entities: seq<Entity>
    var resources: map<string, ResourceStats>

    constructor (summary: Summary)
      modifies summary
      ensures summary.current == this
      ensures entities == [] && resources == map[]
    {
      entities := [];
      resources := map[];
      new;
      summary.current := this;
    }

    method AddResource(resource: ResourceStats)
      modifies this`resources
      ensures resources == if resource.name in old(resources) then old(resources)
                           else old(resources)[resource.name := resource]
    {
      if resource.name !in resources {
        resources := resources[resource.name := resource];
      }
    }

    method AddEntity(entity: Entity)
      modifies this`entities
      ensures entities == old(entities) + [entity]
    {
      entities := entities + [entity];
    }

    /** `_get_disposed_entities`. */
    function DisposedEntities(): seq<Entity>
      reads this, set e | e in entities :: e.attributes
    {
      Disposed(entities)
    }

    /** `_filter_entities`: the caller's mapping gets the default `disposed:
        True` in place, then it filters; being non-empty by then, it always
        filters. */
    method FilterEntities(filter: Attributes) returns (r: seq<Entity>)
      modifies filter`entries
      ensures filter.entries == WithDefaultDisposed(old(filter.entries))
      ensures "disposed" in old(filter.entries) ==> unchanged(filter)
      ensures r == MatchedOrAll(entities, filter.entries)
      ensures r == Select(entities, filter.entries)
    {
      if "disposed" !in filter.entries {
        filter.entries := filter.entries["disposed" := TrueValue];
      }
      r := MatchedOrAll(entities, filter.entries);
    }

    /** `_get_waiting_times_for_resource`: every filtered entity is asked in
        turn, which fills in one not disposed, and the None answers of those
        that never visited are dropped. */
    method WaitingTimesForResource(resourceName: string, filter: Attributes, now: int) returns (r: seq<int>)
      requires Distinct(entities)
      requires forall k :: 0 <= k < |entities| ==> entities[k].Valid()
      modifies filter`entries, entities`visits, entities`disposalTime
      ensures filter.entries == WithDefaultDisposed(old(filter.entries))
      ensures "disposed" in old(filter.entries) ==> unchanged(filter)
      ensures forall k :: 0 <= k < |entities| ==> entities[k].Valid()
      ensures var selected := Select(entities, filter.entries);
              && r == RecordedWaiting(selected, resourceName)
              && AllAnswered(selected, resourceName, now, old(VisitsOf(selected)), old(DisposalsOf(selected)))
              && forall k :: 0 <= k < |entities| && entities[k] !in selected ==> unchanged(entities[k])
    {
      var filtered := FilterEntities(filter);
      assert VisitsOf(filtered) == old(VisitsOf(filtered)) && DisposalsOf(filtered) == old(DisposalsOf(filtered));
      r := AskWaitingSelected(entities, filter.entries, filtered, resourceName, now);
    }

    /** `_get_processing_times_for_resource`: the same walk, asking for
        processing times. */
    method ProcessingTimesForResource(resourceName: string, filter: Attributes, now: int) returns (r: seq<int>)
      requires Distinct(entities)
      requires forall k :: 0 <= k < |entities| ==> entities[k].Valid()
      modifies filter`entries, entities`visits, entities`disposalTime
      ensures filter.entries == WithDefaultDisposed(old(filter.entries))
      ensures "disposed" in old(filter.entries) ==> unchanged(filter)
      ensures forall k :: 0 <= k < |entities| ==> entities[k].Valid()
      ensures var selected := Select(entities, filter.entries);
              && r == RecordedProcessing(selected, resourceName)
              && AllAnswered(selected, resourceName, now, old(VisitsOf(selected)), old(DisposalsOf(selected)))
              && forall k :: 0 <= k < |entities| && entities[k] !in selected ==> unchanged(entities[k])
    {
      var filtered := FilterEntities(filter);
      assert VisitsOf(filtered) == old(VisitsOf(filtered)) && DisposalsOf(filtered) == old(DisposalsOf(filtered));
      r := AskProcessingSelected(entities, filter.entries, filtered, resourceName, now);
    }

    /** `_get_total_times_for_resource`: it filters once for nothing, asks
        for the waiting and then the processing times, each of which filters
        again, and adds the two lists pairwise. Under the lag invariant the
        second query finds every record already filled in. */
    method TotalTimesForResource(resourceName: string, filter: Attributes, now: int) returns (r: seq<int>)
      requires Distinct(entities)
      requires forall k :: 0 <= k < |entities| ==> entities[k].Valid()
      modifies filter`entries, entities`visits, entities`disposalTime
      ensures filter.entries == WithDefaultDisposed(old(filter.entries))
      ensures forall k :: 0 <= k < |entities| ==> entities[k].Valid()
      ensures var selected := Select(entities, filter.entries);
              && TotalsAnswered(selected, resourceName, now, old(VisitsOf(selected)), old(DisposalsOf(selected)), r)
              && forall k :: 0 <= k < |entities| && entities[k] !in selected ==> unchanged(entities[k])
    {
      var filtered := FilterEntities(filter);
      assert VisitsOf(filtered) == old(VisitsOf(filtered)) && DisposalsOf(filtered) == old(DisposalsOf(filtered));
      r := AskTotals(entities, filter.entries, filtered, resourceName, now);
    }

    /** The path of `get_total_times` and its twins when no resource is
        given: filter, then ask every filtered entity in turn. */
    method AnswersFor(a: Accessor, filter: Attributes, now: int) returns (r: seq<int>)
      requires Distinct(entities)
      requires forall k :: 0 <= k < |entities| ==> entities[k].Valid() && entities[k].attributes != filter
      requires var selected := Select(entities, WithDefaultDisposed(filter.entries));
               forall k :: 0 <= k < |selected| ==> selected[k].CanTotal()
      modifies filter`entries, entities`visits, entities`disposalTime, entities`totalTime, entities`waitingTime, entities`processingTime
      ensures filter.entries == WithDefaultDisposed(old(filter.entries))
      ensures forall k :: 0 <= k < |entities| ==> entities[k].Valid()
      ensures var selected := Select(entities, filter.entries);
              && |r| == |selected|
              && (forall k :: 0 <= k < |selected| ==>
                    && old(selected[k].CanTotal())
                    && selected[k].StatisticsStored(now, old(selected[k].visits), old(selected[k].disposalTime))
                    && (a.TotalTimeOf? || AllLagByAtMostOne(old(selected[k].visits)) ==> r[k] == old(selected[k].Answer(a, now))))
              && forall k :: 0 <= k < |entities| && entities[k] !in selected ==> unchanged(entities[k])
    {
      var filtered := FilterEntities(filter);
      assert forall k :: 0 <= k < |entities| ==> unchanged(entities[k]);
      assert forall k :: 0 <= k < |filtered| ==>
               && old(filtered[k].CanTotal()) && filtered[k].CanTotal() && filtered[k].Answer(a, now) == old(filtered[k].Answer(a, now))
               && filtered[k].visits == old(filtered[k].visits) && filtered[k].disposalTime == old(filtered[k].disposalTime);
      r := AnswerSelected(entities, filter.entries, filtered, a, now);
      assert Select(entities, filter.entries) == filtered;
    }

    /** `get_entities`. */
    static method GetEntities(summary: Summary) returns (r: Result<seq<Entity>>)
      ensures summary.current == null ==> r == Err(NoRunYet)
      ensures summary.current != null ==> r == Ok(Disposed(summary.current.entities))
    {
      if summary.current == null {
        return Err(NoRunYet);
      }
      return Ok(summary.current.DisposedEntities());
    }

    /** The entities of the current run, if there is one: what a query may
        update. */
    static function Registered(summary: Summary): set<Entity>
      reads summary, summary.current
    {
      if summary.current == null then {}
      else set k | 0 <= k < |summary.current.entities| :: summary.current.entities[k]
    }

    /** What a query without a resource asks of the run: sound records, a
        filter mapping of the caller's own, and entities the filter picks
        that can be totalled. */
    static ghost predicate ReadyForAnswers(summary: Summary, filter: Attributes)
      reads summary, summary.current, Registered(summary), set e | e in Registered(summary) :: e.attributes, filter
    {
      summary.current != null ==>
        var es := summary.current.entities;
        && Distinct(es)
        && (forall k :: 0 <= k < |es| ==> es[k].Valid() && es[k].attributes != filter)
        && var selected := Select(es, WithDefaultDisposed(filter.entries));
           forall k :: 0 <= k < |selected| ==> selected[k].CanTotal()
    }

    /** What a per-resource query asks of the run: sound records. */
    static ghost predicate ReadyForResource(summary: Summary)
      reads summary, summary.current, Registered(summary)
    {
      summary.current != null ==>
        && Distinct(summary.current.entities)
        && forall k :: 0 <= k < |summary.current.entities| ==> summary.current.entities[k].Valid()
    }

    /** `get_total_times`: with a resource, the pairwise totals at it;
        otherwise every filtered entity's total time, in order. Either way
        the records stay sound and only the selected entities change. */
    static method GetTotalTimes(summary: Summary, resource: ResourceStats?, filter: Attributes, now: int)
      returns (r: Result<seq<int>>)
      requires resource != null ==> ReadyForResource(summary)
      requires resource == null ==> ReadyForAnswers(summary, filter)
      modifies filter`entries, Registered(summary)`visits, Registered(summary)`disposalTime,
               Registered(summary)`totalTime, Registered(summary)`waitingTime, Registered(summary)`processingTime
      ensures summary.current == null ==> r == Err(NoRunYet) && unchanged(filter)
      ensures summary.current != null ==> r.Ok? && filter.entries == WithDefaultDisposed(old(filter.entries))
      ensures ReadyForResource(summary)
      ensures summary.current != null && resource != null ==>
                var selected := Select(summary.current.entities, filter.entries);
                && TotalsAnswered(selected, resource.name, now, old(VisitsOf(selected)), old(DisposalsOf(selected)), r.value)
                && forall k :: 0 <= k < |summary.current.entities| && summary.current.entities[k] !in selected ==>
                     unchanged(summary.current.entities[k])
      ensures summary.current != null && resource == null ==>
                var selected := Select(summary.current.entities, filter.entries);
                && |r.value| == |selected|
                && (forall k :: 0 <= k < |selected| ==> old(selected[k].CanTotal()))
                && (forall k :: 0 <= k < |selected| ==>
                      r.value[k] == old(selected[k].Answer(TotalTimeOf, now)))
                && (forall k :: 0 <= k < |selected| ==>
                      selected[k].StatisticsStored(now, old(selected[k].visits), old(selected[k].disposalTime)))
                && forall k :: 0 <= k < |summary.current.entities| && summary.current.entities[k] !in selected ==>
                     unchanged(summary.current.entities[k])
    {
      if summary.current == null {
        return Err(NoRunYet);
      }
      var times;
      if resource != null {
        times := summary.current.TotalTimesForResource(resource.name, filter, now);
      } else {
        times := summary.current.AnswersFor(TotalTimeOf, filter, now);
      }
      return Ok(times);
    }

    /** `get_waiting_times`: with a resource, the waiting times at it of the
        filtered entities that visited it; otherwise every filtered entity's
        total waiting time, in order. */
    static method GetWaitingTimes(summary: Summary, resource: ResourceStats?, filter: Attributes, now: int)
      returns (r: Result<seq<int>>)
      requires resource != null ==> ReadyForResource(summary)
      requires resource == null ==> ReadyForAnswers(summary, filter)
      modifies filter`entries, Registered(summary)`visits, Registered(summary)`disposalTime,
               Registered(summary)`totalTime, Registered(summary)`waitingTime, Registered(summary)`processingTime
      ensures summary.current == null ==> r == Err(NoRunYet) && unchanged(filter)
      ensures summary.current != null ==> r.Ok? && filter.entries == WithDefaultDisposed(old(filter.entries))
      ensures ReadyForResource(summary)
      ensures summary.current != null && resource != null ==>
                var selected := Select(summary.current.entities, filter.entries);
                && r.value == RecordedWaiting(selected, resource.name)
                && (forall k :: 0 <= k < |selected| ==>
                      Answered(selected[k], resource.name, old(selected[k].visits), old(selected[k].disposalTime), now))
                && forall k :: 0 <= k < |summary.current.entities| && summary.current.entities[k] !in selected ==>
                     unchanged(summary.current.entities[k])
      ensures summary.current != null && resource == null ==>
                var selected := Select(summary.current.entities, filter.entries);
                && |r.value| == |selected|
                && (forall k :: 0 <= k < |selected| ==> old(selected[k].CanTotal()))
                && (forall k :: 0 <= k < |selected| && AllLagByAtMostOne(old(selected[k].visits)) ==>
                      r.value[k] == old(selected[k].Answer(WaitingTimeOf, now)))
                && (forall k :: 0 <= k < |selected| ==>
                      selected[k].StatisticsStored(now, old(selected[k].visits), old(selected[k].disposalTime)))
                && forall k :: 0 <= k < |summary.current.entities| && summary.current.entities[k] !in selected ==>
                     unchanged(summary.current.entities[k])
    {
      if summary.current == null {
        return Err(NoRunYet);
      }
      var times;
      if resource != null {
        times := summary.current.WaitingTimesForResource(resource.name, filter, now);
      } else {
        times := summary.current.AnswersFor(WaitingTimeOf, filter, now);
      }
      return Ok(times);
    }

    /** `get_processing_times`. */
    static method GetProcessingTimes(summary: Summary, resource: ResourceStats?, filter: Attributes, now: int)
      returns (r: Result<seq<int>>)
      requires resource != null ==> ReadyForResource(summary)
      requires resource == null ==> ReadyForAnswers(summary, filter)
      modifies filter`entries, Registered(summary)`visits, Registered(summary)`disposalTime,
               Registered(summary)`totalTime, Registered(summary)`waitingTime, Registered(summary)`processingTime
      ensures summary.current == null ==> r == Err(NoRunYet) && unchanged(filter)
      ensures summary.current != null ==> r.Ok? && filter.entries == WithDefaultDisposed(old(filter.entries))
      ensures ReadyForResource(summary)
      ensures summary.current != null && resource != null ==>
                var selected := Select(summary.current.entities, filter.entries);
                && r.value == RecordedProcessing(selected, resource.name)
                && (forall k :: 0 <= k < |selected| ==>
                      Answered(selected[k], resource.name, old(selected[k].visits), old(selected[k].disposalTime), now))
                && forall k :: 0 <= k < |summary.current.entities| && summary.current.entities[k] !in selected ==>
                     unchanged(summary.current.entities[k])
      ensures summary.current != null && resource == null ==>
                var selected := Select(summary.current.entities, filter.entries);
                && |r.value| == |selected|
                && (forall k :: 0 <= k < |selected| ==> old(selected[k].CanTotal()))
                && (forall k :: 0 <= k < |selected| && AllLagByAtMostOne(old(selected[k].visits)) ==>
                      r.value[k] == old(selected[k].Answer(ProcessingTimeOf, now)))
                && (forall k :: 0 <= k < |selected| ==>
                      selected[k].StatisticsStored(now, old(selected[k].visits), old(selected[k].disposalTime)))
                && forall k :: 0 <= k < |summary.current.entities| && summary.current.entities[k] !in selected ==>
                     unchanged(summary.current.entities[k])
    {
      if summary.current == null {
        return Err(NoRunYet);
      }
      var times;
      if resource != null {
        times := summary.current.ProcessingTimesForResource(resource.name, filter, now);
      } else {
        times := summary.current.AnswersFor(ProcessingTimeOf, filter, now);
      }
      return Ok(times);
    }
  }
}
