/** ResourceStatsMixin: the two append-only event logs an instrumented
    resource keeps, and the time-series queries derived from them. The
    underlying priority resource of the simulation engine is not modelled:
    what it reports (the current time, the number of granted requests, the
    queue length, the handle it issues) arrives as parameters. */
module Resource {
  import opened Common
  import opened Sampling

  /** A request handle issued by the simulation engine: its number and the
      priority it was requested with. */
  datatype Handle = Handle(ticket: nat, priority: Value)

  /** The engine refuses a capacity that is not positive. */
  type Capacity = c: nat | c > 0 witness 1

  class ResourceStats {
    /** The class name, the only key the registry knows a resource by. */
    const name: string
    const capacity: Capacity
    /** `(time, len(queue), kind)` events. */
    var queueSize: seq<Event>
    /** `(time, count, kind)` events. */
    var utilizationSize: seq<Event>

    constructor (name: string, capacity: Capacity)
      ensures this.name == name && this.capacity == capacity
      ensures queueSize == [] && utilizationSize == []
    {
      this.name := name;
      this.capacity := capacity;
      queueSize := [];
      utilizationSize := [];
    }

    /** `request`: the engine issues handle number `ticket` for a request at
        `priority`; then one "request" check is logged, with the count and
        the queue length the engine reports after the request. */
    method Request(priority: Value, ticket: nat, now: nat, count: nat, queueLength: nat) returns (req: Handle)
      modifies this
      ensures req == Handle(ticket, priority)
      ensures utilizationSize == old(utilizationSize) + [Event(now, count, RequestEvent)]
      ensures queueSize == old(queueSize) + [Event(now, queueLength, RequestEvent)]
    {
      req := Handle(ticket, priority);
      AddResourceCheck(now, count, queueLength, RequestEvent);
    }

    /** `release`: the engine frees `req`; one "release" event is logged on
        the utilization log only. */
    method Release(req: Handle, now: nat, count: nat)
      modifies this
      ensures utilizationSize == old(utilizationSize) + [Event(now, count, ReleaseEvent)]
      ensures queueSize == old(queueSize)
    {
      utilizationSize := utilizationSize + [Event(now, count, ReleaseEvent)];
    }

    /** `add_resource_check`: one event on each log (kind "start" unless the
        caller says otherwise). */
    method AddResourceCheck(now: nat, count: nat, queueLength: nat, kind: EventKind)
      modifies this
      ensures utilizationSize == old(utilizationSize) + [Event(now, count, kind)]
      ensures queueSize == old(queueSize) + [Event(now, queueLength, kind)]
    {
      utilizationSize := utilizationSize + [Event(now, count, kind)];
      queueSize := queueSize + [Event(now, queueLength, kind)];
    }

    method QueueSizeOverTime(now: int, sampleFrequency: real) returns (r: Result<seq<int>>)
      ensures r == SampleLog(queueSize, now, sampleFrequency)
    {
      r := OverTime(now, queueSize, sampleFrequency);
    }

    method NumberBeingProcessedOverTime(now: int, sampleFrequency: real) returns (r: Result<seq<int>>)
      ensures r == SampleLog(utilizationSize, now, sampleFrequency)
    {
      r := OverTime(now, utilizationSize, sampleFrequency);
    }

    /** Samples the utilization log with every count replaced by its
        percentage of the capacity; the stored log is left as it is. */
    method UtilizationOverTime(now: int, sampleFrequency: real) returns (r: Result<seq<int>>)
      ensures r == SampleLog(UtilizationLog(utilizationSize, capacity), now, sampleFrequency)
      ensures (forall i :: 0 <= i < |utilizationSize| ==> 0 <= utilizationSize[i].value <= capacity) ==>
                r.Ok? ==> forall x :: x in r.value ==> 0 <= x <= 100
    {
      var utilization := UtilizationLog(utilizationSize, capacity);
      r := OverTime(now, utilization, sampleFrequency);
      if r.Ok? && forall i :: 0 <= i < |utilizationSize| ==> 0 <= utilizationSize[i].value <= capacity {
        UtilizationSeriesWithinBounds(utilizationSize, capacity, ParseFrequency(sampleFrequency).value, now);
      }
    }
  }
}
