/** The current Entity and Stats: an entity records its visits to resources
    and refuses statistics queries until it is disposed; the run-scoped
    registry collects entities and resources and answers filtered queries
    over the disposed entities. Entity and Stats share one module because
    each calls the other. */
module Tracking {
  import opened Common
  import opened Sampling
  import opened Resource
  import opened Records

  class Entity {
    /** The attribute mapping, shared by reference with the caller. */
    const attributes: Attributes
    var creationTime: Option<int>
    var disposalTime: Option<int>
    /** `resources_requested`, an ordered dict: its keys in first-visit
        order, and the record of each key. */
    var visitOrder: seq<string>
    var visits: map<string, Visit>
    /** Written by `_calculate_statistics`; absent until then. */
    var totalTime: Option<int>
    var waitingTime: Option<int>
    var processingTime: Option<int>

    /** The order lists every recorded resource exactly once. */
    ghost predicate Valid()
      reads this
    {
      && (forall n :: n in visits <==> n in visitOrder)
      && (forall i, j :: 0 <= i < j < |visitOrder| ==> visitOrder[i] != visitOrder[j])
    }

    /** `__init__` as written: the entity keeps the very mapping it is given
        (for an entity built without attributes, the one default mapping all
        such entities share) and stores its priority in it. */
    constructor (attributes: Attributes, classPriority: Option<Value>)
      modifies attributes
      ensures this.attributes == attributes
      ensures attributes.entries == old(attributes.entries)["priority" := InitialPriority(old(attributes.entries), classPriority)]
      ensures creationTime == None && disposalTime == None
      ensures visitOrder == [] && visits == map[]
      ensures totalTime == None && waitingTime == None && processingTime == None
      ensures Valid()
    {
      this.attributes := attributes;
      creationTime := None;
      disposalTime := None;
      visitOrder := [];
      visits := map[];
      totalTime := None;
      waitingTime := None;
      processingTime := None;
      new;
      attributes.entries := attributes.entries["priority" := InitialPriority(attributes.entries, classPriority)];
    }

    /** `__init__` with a mapping of the entity's own, as the default
        argument evidently intends: nothing outside the entity is touched. */
    constructor WithOwnAttributes(supplied: map<string, Value>, classPriority: Option<Value>)
      ensures fresh(attributes)
      ensures attributes.entries == supplied["priority" := InitialPriority(supplied, classPriority)]
      ensures creationTime == None && disposalTime == None
      ensures visitOrder == [] && visits == map[]
      ensures totalTime == None && waitingTime == None && processingTime == None
      ensures Valid()
    {
      attributes := new Attributes(supplied["priority" := InitialPriority(supplied, classPriority)]);
      creationTime := None;
      disposalTime := None;
      visitOrder := [];
      visits := map[];
      totalTime := None;
      waitingTime := None;
      processingTime := None;
    }

    /** `wait_for_resource`: register the resource with the current run
        (first one seen under a name wins), create the record on the first
        visit only, log one arrival at `now`, request with the override
        priority or else the entity's own, and keep the handle. The engine
        numbers the request `ticket`. */
    method WaitForResource(resource: ResourceStats, summary: Summary, priorityOverride: Option<Value>,
                           ticket: nat, now: nat, count: nat, queueLength: nat) returns (req: Handle)
      requires Valid()
      requires summary.current != null
      requires priorityOverride.Some? || "priority" in attributes.entries
      modifies this`visits, this`visitOrder, resource, summary.current
      ensures Valid()
      ensures req == Handle(ticket, RequestPriority(priorityOverride, attributes.entries))
      ensures visitOrder == old(visitOrder) + (if resource.name in old(visits) then [] else [resource.name])
      ensures visits == old(visits)[resource.name := Arrive(RecordOf(old(visits), resource.name), now, req)]
      ensures resource.utilizationSize == old(resource.utilizationSize) + [Event(now, count, RequestEvent)]
      ensures resource.queueSize == old(resource.queueSize) + [Event(now, queueLength, RequestEvent)]
      ensures summary.current.entities == old(summary.current.entities)
      ensures summary.current.resources ==
                if resource.name in old(summary.current.resources) then old(summary.current.resources)
                else old(summary.current.resources)[resource.name := resource]
    {
      var name := resource.name;
      summary.current.AddResource(resource);
      var record := RecordOf(visits, name);
      if name !in visits {
        visitOrder := visitOrder + [name];
      }
      record := record.(arrival := record.arrival + [now]);
      var priority := RequestPriority(priorityOverride, attributes.entries);
      req := resource.Request(priority, ticket, now, count, queueLength);
      record := record.(request := Some(req));
      visits := visits[name := record];
    }

    /** `process_at_resource`, bookkeeping part: log one service start at
        `now`, one "start" check on the resource, and hand back the service
        time the resource computed, which the engine then waits for. */
    method ProcessAtResource(resource: ResourceStats, serviceTime: int, now: nat, count: nat, queueLength: nat)
      returns (delay: int)
      requires Valid()
      requires resource.name in visits
      modifies this`visits, resource
      ensures Valid()
      ensures delay == serviceTime
      ensures visits == old(visits)[resource.name := old(visits)[resource.name].(start := old(visits)[resource.name].start + [now])]
      ensures resource.utilizationSize == old(resource.utilizationSize) + [Event(now, count, StartEvent)]
      ensures resource.queueSize == old(resource.queueSize) + [Event(now, queueLength, StartEvent)]
    {
      var name := resource.name;
      visits := visits[name := visits[name].(start := visits[name].start + [now])];
      resource.AddResourceCheck(now, count, queueLength, StartEvent);
      delay := serviceTime;
    }

    /** `release_resource`: nothing happens when no request is outstanding;
        otherwise log one finish at `now`, release the handle and clear it. */
    method ReleaseResource(resource: ResourceStats, now: nat, count: nat)
      requires Valid()
      requires resource.name in visits
      modifies this`visits, resource
      ensures Valid()
      ensures old(visits[resource.name].request).None? ==>
                visits == old(visits) && unchanged(resource)
      ensures old(visits[resource.name].request).Some? ==>
                && visits == old(visits)[resource.name := Finish(old(visits[resource.name]), now)]
                && resource.utilizationSize == old(resource.utilizationSize) + [Event(now, count, ReleaseEvent)]
                && resource.queueSize == old(resource.queueSize)
    {
      var name := resource.name;
      var request := visits[name].request;
      if request.Some? {
        visits := visits[name := visits[name].(finish := visits[name].finish + [now])];
        resource.Release(request.value, now, count);
        visits := visits[name := visits[name].(request := None)];
      }
    }

    /** `dispose`: stamp the disposal time (again, on a repeat call). */
    method Dispose(now: nat) returns (t: nat)
      modifies this`disposalTime
      ensures disposalTime == Some(now) && t == now
      ensures IsDisposed()
    {
      disposalTime := Some(now);
      t := now;
    }

    predicate IsDisposed()
      reads this
    {
      disposalTime.Some?
    }

    /** `_calculate_waiting_time_for_resource`: None for a resource never
        visited. */
    function WaitingTimeFor(name: string): Option<int>
      reads this
    {
      if name in visits then Some(WaitingSum(visits[name])) else None
    }

    /** `_calculate_processing_time_for_resource`. */
    function ProcessingTimeFor(name: string): Option<int>
      reads this
    {
      if name in visits then Some(ProcessingSum(visits[name])) else None
    }

    /** `get_total_time`. */
    function TotalTime(): Result<int>
      reads this
      requires IsDisposed() ==> creationTime.Some?
    {
      if IsDisposed() then Ok(disposalTime.value - creationTime.value) else Err(NotDisposed)
    }

    /** `get_total_waiting_time`. */
    function TotalWaitingTime(): Result<int>
      reads this
      requires IsDisposed() ==> creationTime.Some?
    {
      if IsDisposed() then Ok(WaitingOver(visitOrder, visits)) else Err(NotDisposed)
    }

    /** `get_total_processing_time`. */
    function TotalProcessingTime(): Result<int>
      reads this
      requires IsDisposed() ==> creationTime.Some?
    {
      if IsDisposed() then Ok(ProcessingOver(visitOrder, visits)) else Err(NotDisposed)
    }

    /** The three totals `_calculate_statistics` stores: disposal minus
        creation, and the waiting and processing sums over the visits. */
    predicate StatisticsStored()
      reads this
      requires IsDisposed() ==> creationTime.Some?
    {
      && IsDisposed()
      && totalTime == Some(disposalTime.value - creationTime.value)
      && waitingTime == Some(WaitingOver(visitOrder, visits))
      && processingTime == Some(ProcessingOver(visitOrder, visits))
    }

    /** `_calculate_statistics`: refuse before disposal; otherwise add up the
        per-resource times in visit order and store the three totals. */
    method CalculateStatistics() returns (r: Result<()>)
      requires Valid()
      requires IsDisposed() ==> creationTime.Some?
      modifies this`totalTime, this`waitingTime, this`processingTime
      ensures !IsDisposed() ==> r == Err(NotDisposed) && unchanged(this)
      ensures IsDisposed() ==> r == Ok(()) && StatisticsStored()
    {
      if !IsDisposed() {
        return Err(NotDisposed);
      }
      var waiting := 0;
      var processing := 0;
      for i := 0 to |visitOrder|
        invariant waiting == WaitingOver(visitOrder[..i], visits)
        invariant processing == ProcessingOver(visitOrder[..i], visits)
      {
        var name := visitOrder[i];
        assert visitOrder[..i + 1][..i] == visitOrder[..i];
        waiting := waiting + WaitingTimeFor(name).value;
        processing := processing + ProcessingTimeFor(name).value;
      }
      assert visitOrder[..|visitOrder|] == visitOrder;
      totalTime := Some(disposalTime.value - creationTime.value);
      waitingTime := Some(waiting);
      processingTime := Some(processing);
      return Ok(());
    }

    method GetTotalTime() returns (r: Result<int>)
      requires Valid()
      requires IsDisposed() ==> creationTime.Some?
      modifies this`totalTime, this`waitingTime, this`processingTime
      ensures r == TotalTime()
      ensures !IsDisposed() ==> unchanged(this)
      ensures IsDisposed() ==> StatisticsStored()
    {
      if !IsDisposed() {
        return Err(NotDisposed);
      }
      var _ := CalculateStatistics();
      return Ok(totalTime.value);
    }

    method GetTotalWaitingTime() returns (r: Result<int>)
      requires Valid()
      requires IsDisposed() ==> creationTime.Some?
      modifies this`totalTime, this`waitingTime, this`processingTime
      ensures r == TotalWaitingTime()
      ensures !IsDisposed() ==> unchanged(this)
      ensures IsDisposed() ==> StatisticsStored()
    {
      if !IsDisposed() {
        return Err(NotDisposed);
      }
      var _ := CalculateStatistics();
      return Ok(waitingTime.value);
    }

    method GetTotalProcessingTime() returns (r: Result<int>)
      requires Valid()
      requires IsDisposed() ==> creationTime.Some?
      modifies this`totalTime, this`waitingTime, this`processingTime
      ensures r == TotalProcessingTime()
      ensures !IsDisposed() ==> unchanged(this)
      ensures IsDisposed() ==> StatisticsStored()
    {
      if !IsDisposed() {
        return Err(NotDisposed);
      }
      var _ := CalculateStatistics();
      return Ok(processingTime.value);
    }
  }

  /** A disposed entity whose visits are all complete has spent its total
      waiting plus its total processing time between arrivals and finishes. */
  lemma CompleteEntityTotals(e: Entity)
    requires e.IsDisposed() && e.creationTime.Some?
    requires forall n :: n in e.visits ==> |e.visits[n].arrival| == |e.visits[n].start| == |e.visits[n].finish|
    ensures e.TotalWaitingTime().value + e.TotalProcessingTime().value == ResidenceOver(e.visitOrder, e.visits)
  {
    CompleteTotalsSplit(e.visitOrder, e.visits);
  }

  /** Two entities built without attributes, the second of a class whose
      priority is 0: the default mapping is shared, so the second entity
      finds the first one's priority 1 in it and ignores its class's. */
  method SharedDefaultIgnoresClassPriority() returns (second: Value)
    ensures second == Num(1)
  {
    var defaults := new Attributes(map[]);
    var plain := new Entity(defaults, None);
    var urgent := new Entity(defaults, Some(Num(0)));
    second := urgent.attributes.entries["priority"];
  }

  /** With mappings of their own, the second entity keeps its class's
      priority 0 and the first keeps the default 1. */
  method OwnAttributesKeepClassPriority() returns (first: Value, second: Value)
    ensures first == Num(1) && second == Num(0)
  {
    var plain := new Entity.WithOwnAttributes(map[], None);
    var urgent := new Entity.WithOwnAttributes(map[], Some(Num(0)));
    first := plain.attributes.entries["priority"];
    second := urgent.attributes.entries["priority"];
  }

  /** `[e for e in entities if e.is_disposed()]`. */
  function Disposed(es: seq<Entity>): (r: seq<Entity>)
    reads es
    ensures |r| <= |es|
    ensures forall i :: 0 <= i < |r| ==> r[i] in es && r[i].IsDisposed()
    ensures forall i :: 0 <= i < |es| && es[i].IsDisposed() ==> es[i] in r
  {
    if es == [] then []
    else (if es[0].IsDisposed() then [es[0]] else []) + Disposed(es[1..])
  }

  /** `[e for e in entities if e.matches_attributes(filter)]`. */
  function Select(es: seq<Entity>, filter: map<string, Value>): (r: seq<Entity>)
    reads set e | e in es :: e.attributes
    ensures |r| <= |es|
    ensures forall i :: 0 <= i < |r| ==> r[i] in es && Matches(r[i].attributes.entries, filter)
    ensures forall i :: 0 <= i < |es| && Matches(es[i].attributes.entries, filter) ==> es[i] in r
  {
    if es == [] then []
    else (if Matches(es[0].attributes.entries, filter) then [es[0]] else []) + Select(es[1..], filter)
  }

  /** `_filter_entities_on_matched_attributes`: no filtering when the filter
      is None. */
  function FilterOnMatchedAttributes(es: seq<Entity>, filter: Option<map<string, Value>>): (r: seq<Entity>)
    reads set e | e in es :: e.attributes
  {
    if filter.None? then es else Select(es, filter.value)
  }

  /** The disposed filter keeps the relative order of the entities: it
      distributes over concatenation. */
  lemma {:induction false} DisposedKeepsOrder(a: seq<Entity>, b: seq<Entity>)
    ensures Disposed(a + b) == Disposed(a) + Disposed(b)
  {
    if a != [] {
      assert (a + b)[0] == a[0] && (a + b)[1..] == a[1..] + b;
      DisposedKeepsOrder(a[1..], b);
    } else {
      assert a + b == b;
    }
  }

  /** The attribute filter keeps the relative order of the entities. */
  lemma {:induction false} SelectKeepsOrder(a: seq<Entity>, b: seq<Entity>, filter: map<string, Value>)
    ensures Select(a + b, filter) == Select(a, filter) + Select(b, filter)
  {
    if a != [] {
      assert (a + b)[0] == a[0] && (a + b)[1..] == a[1..] + b;
      SelectKeepsOrder(a[1..], b, filter);
      SelectFirst(a + b, filter);
      SelectFirst(a, filter);
    } else {
      assert a + b == b;
    }
  }

  /** One step of the filter: the first entity, if it matches, then the
      selection of the rest. */
  lemma SelectFirst(es: seq<Entity>, filter: map<string, Value>)
    requires es != []
    ensures Select(es, filter) == (if Matches(es[0].attributes.entries, filter) then [es[0]] else []) + Select(es[1..], filter)
  {
  }

  /** An empty filter matches every entity, so it selects them all, in order. */
  lemma {:induction false} EmptyFilterSelectsAll(es: seq<Entity>)
    ensures FilterOnMatchedAttributes(es, Some(map[])) == es
  {
    if es != [] {
      EmptyFilterSelectsAll(es[1..]);
    }
  }

  /** The entities that visited the named resource, in order. */
  function Visitors(es: seq<Entity>, name: string): (r: seq<Entity>)
    reads es
    ensures |r| <= |es|
    ensures forall i :: 0 <= i < |r| ==> r[i] in es && name in r[i].visits
    ensures forall i :: 0 <= i < |es| && name in es[i].visits ==> es[i] in r
  {
    if es == [] then []
    else (if name in es[0].visits then [es[0]] else []) + Visitors(es[1..], name)
  }

  /** One step of `Visitors`: the first entity, if it visited, then the
      visitors among the rest. */
  lemma VisitorsFirst(es: seq<Entity>, name: string)
    requires es != []
    ensures Visitors(es, name) == (if name in es[0].visits then [es[0]] else []) + Visitors(es[1..], name)
  {
  }

  /** `_get_waiting_times_for_resource` after filtering: the None answers
      of entities that never visited are dropped. */
  function WaitingTimesFor(es: seq<Entity>, name: string): (r: seq<int>)
    reads es
    ensures |r| == |Visitors(es, name)|
  {
    if es == [] then []
    else
      var rest := WaitingTimesFor(es[1..], name);
      VisitorsFirst(es, name);
      if name in es[0].visits then [es[0].WaitingTimeFor(name).value] + rest else rest
  }

  /** The waiting times are the answers of the visitors, in order. */
  lemma {:induction false} WaitingTimesAnswerVisitors(es: seq<Entity>, name: string)
    ensures forall i :: 0 <= i < |WaitingTimesFor(es, name)| ==>
              Some(WaitingTimesFor(es, name)[i]) == Visitors(es, name)[i].WaitingTimeFor(name)
  {
    if es != [] {
      WaitingTimesAnswerVisitors(es[1..], name);
      VisitorsFirst(es, name);
    }
  }

  /** `_get_processing_times_for_resource` after filtering. */
  function ProcessingTimesFor(es: seq<Entity>, name: string): (r: seq<int>)
    reads es
    ensures |r| == |Visitors(es, name)|
  {
    if es == [] then []
    else
      var rest := ProcessingTimesFor(es[1..], name);
      VisitorsFirst(es, name);
      if name in es[0].visits then [es[0].ProcessingTimeFor(name).value] + rest else rest
  }

  /** The processing times are the answers of the visitors, in order. */
  lemma {:induction false} ProcessingTimesAnswerVisitors(es: seq<Entity>, name: string)
    ensures forall i :: 0 <= i < |ProcessingTimesFor(es, name)| ==>
              Some(ProcessingTimesFor(es, name)[i]) == Visitors(es, name)[i].ProcessingTimeFor(name)
  {
    if es != [] {
      ProcessingTimesAnswerVisitors(es[1..], name);
      VisitorsFirst(es, name);
    }
  }

  /** `[e.get_total_time() for e in entities]` over disposed entities. */
  function TotalTimes(es: seq<Entity>): (r: seq<int>)
    reads es
    requires forall e :: e in es ==> e.IsDisposed() && e.creationTime.Some?
    ensures |r| == |es|
    ensures forall i :: 0 <= i < |es| ==> es[i].TotalTime() == Ok(r[i])
  {
    if es == [] then [] else [es[0].TotalTime().value] + TotalTimes(es[1..])
  }

  /** `[e.get_total_waiting_time() for e in entities]` over disposed entities. */
  function TotalWaitingTimes(es: seq<Entity>): (r: seq<int>)
    reads es
    requires forall e :: e in es ==> e.IsDisposed() && e.creationTime.Some?
    ensures |r| == |es|
    ensures forall i :: 0 <= i < |es| ==> es[i].TotalWaitingTime() == Ok(r[i])
  {
    if es == [] then [] else [es[0].TotalWaitingTime().value] + TotalWaitingTimes(es[1..])
  }

  /** `[e.get_total_processing_time() for e in entities]` over disposed
      entities. */
  function TotalProcessingTimes(es: seq<Entity>): (r: seq<int>)
    reads es
    requires forall e :: e in es ==> e.IsDisposed() && e.creationTime.Some?
    ensures |r| == |es|
    ensures forall i :: 0 <= i < |es| ==> es[i].TotalProcessingTime() == Ok(r[i])
  {
    if es == [] then [] else [es[0].TotalProcessingTime().value] + TotalProcessingTimes(es[1..])
  }

  /** The class attribute `Stats.summary`: the registry of the current run,
      or none before the first run. */
  class Summary {
    var current: Stats?

    constructor ()
      ensures current == null
    {
      current := null;
    }
  }

  class Stats {
    var entities: seq<Entity>
    var resources: map<string, ResourceStats>

    /** A new registry becomes the current one. */
    constructor (summary: Summary)
      modifies summary
      ensures summary.current == this
      ensures entities == [] && resources == map[]
    {
      entities := [];
      resources := map[];
      new;
      summary.current := this;
    }

    /** `_add_resource`: the first resource registered under a name stays. */
    method AddResource(resource: ResourceStats)
      modifies this`resources
      ensures resources == if resource.name in old(resources) then old(resources)
                           else old(resources)[resource.name := resource]
    {
      if resource.name !in resources {
        resources := resources[resource.name := resource];
      }
    }

    /** `_add_entity`. */
    method AddEntity(entity: Entity)
      modifies this`entities
      ensures entities == old(entities) + [entity]
    {
      entities := entities + [entity];
    }

    /** `_get_disposed_entities`. */
    function DisposedEntities(): seq<Entity>
      reads this, entities
    {
      Disposed(entities)
    }

    /** `_filter_entities`: the disposed entities, then the attribute filter. */
    function FilterEntities(filter: Option<map<string, Value>>): (r: seq<Entity>)
      reads this, entities, set e | e in entities :: e.attributes
      ensures forall i :: 0 <= i < |r| ==>
                r[i] in entities && r[i].IsDisposed() && (filter.Some? ==> Matches(r[i].attributes.entries, filter.value))
      ensures forall i :: (0 <= i < |entities| && entities[i].IsDisposed()
                && (filter.Some? ==> Matches(entities[i].attributes.entries, filter.value))) ==> entities[i] in r
    {
      FilterOnMatchedAttributes(Disposed(entities), filter)
    }

    static method GetEntities(summary: Summary) returns (r: Result<seq<Entity>>)
      ensures summary.current == null ==> r == Err(NoRunYet)
      ensures summary.current != null ==> r == Ok(Disposed(summary.current.entities))
    {
      if summary.current == null {
        return Err(NoRunYet);
      }
      return Ok(summary.current.DisposedEntities());
    }

    /** `get_total_times`: one total time per filtered entity, in order. */
    static method GetTotalTimes(summary: Summary, filter: Option<map<string, Value>>) returns (r: Result<seq<int>>)
      requires summary.current != null ==>
                 forall e :: e in summary.current.entities && e.IsDisposed() ==> e.creationTime.Some?
      ensures summary.current == null ==> r == Err(NoRunYet)
      ensures summary.current != null ==> r == Ok(TotalTimes(summary.current.FilterEntities(filter)))
    {
      if summary.current == null {
        return Err(NoRunYet);
      }
      var filtered := summary.current.FilterEntities(filter);
      return Ok(TotalTimes(filtered));
    }

    /** `get_waiting_times`: per resource when one is given (unvisited
        entities dropped), else each filtered entity's total. */
    static method GetWaitingTimes(summary: Summary, resource: ResourceStats?, filter: Option<map<string, Value>>)
      returns (r: Result<seq<int>>)
      requires resource == null && summary.current != null ==>
                 forall e :: e in summary.current.entities && e.IsDisposed() ==> e.creationTime.Some?
      ensures summary.current == null ==> r == Err(NoRunYet)
      ensures summary.current != null && resource != null ==>
                r == Ok(WaitingTimesFor(summary.current.FilterEntities(filter), resource.name))
      ensures summary.current != null && resource == null ==>
                r == Ok(TotalWaitingTimes(summary.current.FilterEntities(filter)))
    {
      if summary.current == null {
        return Err(NoRunYet);
      }
      var filtered := summary.current.FilterEntities(filter);
      if resource != null {
        return Ok(WaitingTimesFor(filtered, resource.name));
      }
      return Ok(TotalWaitingTimes(filtered));
    }

    /** `get_processing_times`. */
    static method GetProcessingTimes(summary: Summary, resource: ResourceStats?, filter: Option<map<string, Value>>)
      returns (r: Result<seq<int>>)
      requires resource == null && summary.current != null ==>
                 forall e :: e in summary.current.entities && e.IsDisposed() ==> e.creationTime.Some?
      ensures summary.current == null ==> r == Err(NoRunYet)
      ensures summary.current != null && resource != null ==>
                r == Ok(ProcessingTimesFor(summary.current.FilterEntities(filter), resource.name))
      ensures summary.current != null && resource == null ==>
                r == Ok(TotalProcessingTimes(summary.current.FilterEntities(filter)))
    {
      if summary.current == null {
        return Err(NoRunYet);
      }
      var filtered := summary.current.FilterEntities(filter);
      if resource != null {
        return Ok(ProcessingTimesFor(filtered, resource.name));
      }
      return Ok(TotalProcessingTimes(filtered));
    }

    /** `queue_size_over_time`: the registered resource of that name is
        sampled; an unregistered one yields the zero series. */
    static method QueueSizeOverTime(summary: Summary, resource: ResourceStats, now: int, sampleFrequency: real)
      returns (r: Result<seq<int>>)
      ensures summary.current == null ==> r == Err(NoRunYet)
      ensures summary.current != null && resource.name in summary.current.resources ==>
                r == SampleLog(summary.current.resources[resource.name].queueSize, now, sampleFrequency)
      ensures summary.current != null && resource.name !in summary.current.resources ==>
                r == Zeros(now, sampleFrequency)
    {
      if summary.current == null {
        return Err(NoRunYet);
      }
      if resource.name in summary.current.resources {
        var tracked := summary.current.resources[resource.name];
        r := tracked.QueueSizeOverTime(now, sampleFrequency);
      } else {
        r := Zeros(now, sampleFrequency);
      }
    }

    /** `utilization_over_time`. */
    static method UtilizationOverTime(summary: Summary, resource: ResourceStats, now: int, sampleFrequency: real)
      returns (r: Result<seq<int>>)
      ensures summary.current == null ==> r == Err(NoRunYet)
      ensures summary.current != null && resource.name in summary.current.resources ==>
                var tracked := summary.current.resources[resource.name];
                r == SampleLog(UtilizationLog(tracked.utilizationSize, tracked.capacity), now, sampleFrequency)
      ensures summary.current != null && resource.name !in summary.current.resources ==>
                r == Zeros(now, sampleFrequency)
    {
      if summary.current == null {
        return Err(NoRunYet);
      }
      if resource.name in summary.current.resources {
        var tracked := summary.current.resources[resource.name];
        r := tracked.UtilizationOverTime(now, sampleFrequency);
      } else {
        r := Zeros(now, sampleFrequency);
      }
    }

    /** `number_being_processed_over_time`. */
    static method NumberBeingProcessedOverTime(summary: Summary, resource: ResourceStats, now: int, sampleFrequency: real)
      returns (r: Result<seq<int>>)
      ensures summary.current == null ==> r == Err(NoRunYet)
      ensures summary.current != null && resource.name in summary.current.resources ==>
                r == SampleLog(summary.current.resources[resource.name].utilizationSize, now, sampleFrequency)
      ensures summary.current != null && resource.name !in summary.current.resources ==>
                r == Zeros(now, sampleFrequency)
    {
      if summary.current == null {
        return Err(NoRunYet);
      }
      if resource.name in summary.current.resources {
        var tracked := summary.current.resources[resource.name];
        r := tracked.NumberBeingProcessedOverTime(now, sampleFrequency);
      } else {
        r := Zeros(now, sampleFrequency);
      }
    }
  }
}
