# simpy_helpers bookkeeping, modelled in Dafny

simpy_helpers adds statistics bookkeeping on top of the SimPy discrete-event
engine. This project models that layer, not the engine:

- **Resources** log `(time, value, kind)` entries. A request and a start of
  service each append one entry to the queue-size log and one to the
  utilization log; a release appends to the utilization log only. A
  sampler turns such a log into a step function on the grid `0, f, 2f, … <
  now`: at each grid point it takes the last event whose rounded time is
  that point, otherwise it carries the previous value forward. A zero
  series of the same shape stands in for resources that were never used.
- **Entities** keep, per visited resource and in first-visit order, a record
  of arrival, start and finish times and the outstanding request. Waiting
  and processing times are zip-truncated sums of differences. The total
  accessors sum them over all visited resources.
- **Stats** is the run-scoped registry: an append-only entity list, a
  first-seen-wins resource map, and the filter and projection queries over
  them.
- **Source** (legacy copy only) numbers and registers the entities it emits,
  and stops once its count passes the configured number.

The repository ships two copies of Entity and Stats with different policies.
`simpy_helpers/` refuses totals before disposal and filters disposed
entities first. `build/lib/simpy_helpers/` keeps a `disposed` flag in the
attribute mapping, pads in-flight records with `now` (`_fill_in_for_non_disposed`),
and writes `disposed: True` into the caller's filter mapping. Each copy is
its own module here.

Modules:

- `Common` (common.dfy): values, results and the `Attributes` mapping object.
- `Records` (records.dfy): visit records and their sums.
- `Sampling` (sampling.dfy): frequency parsing, bucketing, the sampler and its lemmas.
- `Resource` (resource.dfy): the logging resource.
- `Tracking` (tracking.dfy): the current Entity and Stats.
- `LegacyTracking` (legacy_tracking.dfy): the legacy Entity and Stats.
- `LegacySource` (legacy_source.dfy): the legacy Source.

Modelling choices:

- **Time.** Time is an integer count of ticks, one tick being a hundredth of
  a time unit. The sample frequencies 0.01, 0.1 and 1 are 1, 10 and 100
  ticks.
- **Rounding.** `np.around` to 2, 1 or 0 decimals is round-half-to-even
  integer division on ticks (`RoundHalfEven`).
- **Utilization.** Utilization is an integer percentage: `round(count /
  capacity, 2)` is `RoundHalfEven(100 * count, capacity)`.
- **Booleans.** Python's `True`/`False` are the numbers 1/0, so `True == 1`
  holds as it does in Python.
- **Shared mappings.** Python dictionaries that several objects can share
  (an entity's attributes, a filter mapping) are `Attributes` objects. The
  aliasing created by the mutable default `attributes={}` is therefore
  visible in the model.
- **Errors.** Deliberate `raise`s on data become `Err` results:
  - `UnsupportedFrequency` for a frequency outside {0.01, 0.1, 1};
  - `NotDisposed` for totals on an entity that is not disposed;
  - `NoRunYet` for Stats queries before any run;
  - `MissingInterarrival` for a Source without a usable inter-arrival function. A class that defines no `interarrival_time` fails the guard at build/lib/simpy_helpers/Source.py:9 with `AttributeError`; only one that sets it to `None` reaches the `NotImplementedError` of line 10.

  Incidental crashes (a `KeyError`, arithmetic on `None`) become
  preconditions. Each is listed under "Left out", as are the constructor
  checks on the user's subclasses.
- **Engine inputs.** The engine's `now`, `count`, `len(queue)`, `capacity`,
  the request handle and the service time are parameters.

## Model

| member | source | states |
|---|---|---|
| Sampling.ParseFrequency | simpy_helpers/Resource.py:15-17 | a frequency is accepted exactly when it is 0.01, 0.1 or 1; an accepted one is 100·f ticks; anything else is `UnsupportedFrequency` |
| Sampling.RoundHalfEvenIsNearest | simpy_helpers/Resource.py:40 | rounding `n/d` lands within half a unit of the quotient, and a tie goes to the even neighbour |
| Sampling.RoundedEventList | simpy_helpers/Resource.py:30-45 | the bucket map has a key exactly for each rounded time some event has, and each key's list is that time's bucket |
| Sampling.BucketKeepsLogOrder | simpy_helpers/Resource.py:39-44 | bucketing a concatenated log concatenates the buckets, so log order is kept within a bucket |
| Sampling.EventInBucket | simpy_helpers/Resource.py:39-44 | every event's entry is in the bucket of its rounded time |
| Sampling.BucketFromLog | simpy_helpers/Resource.py:39-44 | every entry of a bucket is the `(value, kind)` of some event of the log with that rounded time |
| Sampling.LastEventWins | simpy_helpers/Resource.py:22-25 | the last entry of a bucket is the last event in log order with that rounded time |
| Sampling.NoEventLost | simpy_helpers/Resource.py:38-45 | the sizes of the buckets over all distinct keys add up to the length of the log |
| Sampling.GridCountIsGridSize | simpy_helpers/Resource.py:21 | index k is within the series exactly when the k-th grid point is before `now` |
| Sampling.OverTime | simpy_helpers/Resource.py:13-28 | the loop returns the sampled series of the log, or `UnsupportedFrequency` |
| Sampling.SampleAt | simpy_helpers/Resource.py:22-26 | one step of the loop yields the series value at that grid point, given the carried value of the previous point |
| Sampling.EmptyLogSamplesZero | simpy_helpers/Resource.py:19-26 | with no events every sample is 0 |
| Sampling.ZerosMatchSampledShape | simpy_helpers/Resource.py:85-89 | the zero series is the series of an empty log; it fails for the same frequencies as the sampler and has the sampler's length |
| Sampling.CarryForward | simpy_helpers/Resource.py:19-26 | at a grid point with no event the sample repeats the previous one, and the first sample is 0 |
| Sampling.NoEventSamplesZero | simpy_helpers/Resource.py:19-26 | when no event falls in slots 0..k the sample at k is the initial 0 |
| Sampling.SampleIsLatestEvent | simpy_helpers/Resource.py:19-26 | the sample at k is the value of the latest event, in slot then log order, among those in slots 0..k |
| Sampling.SampleValueFromLog | simpy_helpers/Resource.py:19-26 | every sample is 0 or the value of some event of the log |
| Sampling.PercentWithinBounds | simpy_helpers/Resource.py:74 | a count between 0 and the capacity gives a percentage between 0 and 100 |
| Sampling.UtilizationSeriesWithinBounds | simpy_helpers/Resource.py:72-75 | when every logged count is within the capacity, every utilization sample is between 0 and 100 |
| Resource.ResourceStats.constructor | simpy_helpers/Resource.py:47-54 | a new resource has its name and capacity and two empty logs |
| Resource.ResourceStats.Request | simpy_helpers/Resource.py:56-59 | returns the handle, appends exactly one `(now, count, request)` to the utilization log and one `(now, queue length, request)` to the queue log |
| Resource.ResourceStats.Release | simpy_helpers/Resource.py:61-64 | appends exactly one `(now, count, release)` to the utilization log; the queue log is unchanged |
| Resource.ResourceStats.AddResourceCheck | simpy_helpers/Resource.py:77-79 | appends exactly one entry of the given kind to each log |
| Resource.ResourceStats.QueueSizeOverTime | simpy_helpers/Resource.py:66-67 | the sampled queue-size log |
| Resource.ResourceStats.NumberBeingProcessedOverTime | simpy_helpers/Resource.py:69-70 | the sampled utilization log, as raw counts |
| Resource.ResourceStats.UtilizationOverTime | simpy_helpers/Resource.py:72-75 | the sampler applied to the utilization log with each count replaced by its percentage of the capacity; the stored log is not modified; with counts within capacity every sample is in 0..100 |
| Records.PairedSumIsDifferenceOfSums | simpy_helpers/Entity.py:147-159 | a zip-truncated sum of differences is the difference of the two lists' sums cut to the shorter length |
| Records.CompleteVisitsSplit | simpy_helpers/Entity.py:147-159 | with equal-length arrival, start and finish lists, waiting plus processing is the summed arrival-to-finish time |
| Records.SingleVisitSplit | simpy_helpers/Entity.py:147-159 | for one complete visit, waiting + processing = finish − arrival |
| Records.CompleteTotalsSplit | simpy_helpers/Entity.py:161-172 | with complete records, total waiting plus total processing is the total arrival-to-finish time over all visited resources |
| Records.MatchesAttributes | simpy_helpers/Entity.py:180-184 | the early-exit walk is true exactly when every filter key is present with an equal value |
| Tracking.Entity.constructor | simpy_helpers/Entity.py:12-35 | the entity keeps the mapping it is given and writes its priority there: the supplied one, else the class's, else 1; no times, no visits |
| Tracking.Entity.WithOwnAttributes | simpy_helpers/Entity.py:12-35 | the same, on a fresh mapping of the entity's own |
| Tracking.Entity.WaitForResource | simpy_helpers/Entity.py:92-104 | the record is created only on the first visit, which extends the visit order; one arrival `now` is appended; the handle carries the override priority if given, else the entity's own, and is stored; the resource logs one request; the registry keeps the first resource under its name |
| Tracking.Entity.ProcessAtResource | simpy_helpers/Entity.py:106-118 | appends exactly one start `now` and makes the resource log exactly one check; the delay is the service time |
| Tracking.Entity.ReleaseResource | simpy_helpers/Entity.py:120-128 | with no outstanding handle nothing changes; otherwise one finish `now` is appended, the resource logs one release and the handle is cleared |
| Tracking.Entity.Dispose | simpy_helpers/Entity.py:130-139 | the disposal time becomes `now` and is returned, so the entity is disposed; a repeat call re-stamps |
| Tracking.Entity.CalculateStatistics | simpy_helpers/Entity.py:161-172 | fails with `NotDisposed` and changes nothing before disposal; otherwise total = disposal − creation and the stored waiting and processing times are the sums over all visited resources |
| Tracking.Entity.GetTotalTime | simpy_helpers/Entity.py:48-57 | disposal − creation, or `NotDisposed` with the entity unchanged; once disposed, all three totals are stored as `_calculate_statistics` stores them |
| Tracking.Entity.GetTotalWaitingTime | simpy_helpers/Entity.py:59-68 | the sum of per-resource waiting times, or `NotDisposed` with the entity unchanged; once disposed, the three totals are stored |
| Tracking.Entity.GetTotalProcessingTime | simpy_helpers/Entity.py:76-84 | the sum of per-resource processing times, or `NotDisposed` with the entity unchanged; once disposed, the three totals are stored |
| Tracking.CompleteEntityTotals | simpy_helpers/Entity.py:161-172 | for a disposed entity with complete records, total waiting plus total processing is its total time spent at resources |
| Tracking.SharedDefaultIgnoresClassPriority | simpy_helpers/Entity.py:12-31 | two entities built on the shared default mapping, the second of a class with priority 0: the second gets the first one's stored priority 1 instead of its class's 0 |
| Tracking.OwnAttributesKeepClassPriority | simpy_helpers/Entity.py:24-31 | with mappings of their own, the first gets the default 1 and the second its class's 0 |
| Tracking.Disposed | simpy_helpers/Stats.py:110-111 | the disposed entities of the registry, and all of them |
| Tracking.Select | simpy_helpers/Stats.py:90-94 | the entities that match the filter, and all of them |
| Tracking.DisposedKeepsOrder | simpy_helpers/Stats.py:110-111 | the disposed selection of a concatenation is the concatenation of the selections, so registration order is kept |
| Tracking.SelectKeepsOrder | simpy_helpers/Stats.py:90-94 | the same for the attribute filter |
| Tracking.EmptyFilterSelectsAll | simpy_helpers/Stats.py:90-94 | an empty filter keeps every entity |
| Tracking.Visitors | simpy_helpers/Stats.py:100-108 | the entities that visited the resource, and all of them |
| Tracking.WaitingTimesFor | simpy_helpers/Stats.py:100-103 | one waiting time per visiting entity; the `None`s of the others are dropped |
| Tracking.WaitingTimesAnswerVisitors | simpy_helpers/Stats.py:100-103 | the i-th waiting time is the i-th visitor's own answer for the resource |
| Tracking.ProcessingTimesFor | simpy_helpers/Stats.py:105-108 | one processing time per visiting entity |
| Tracking.ProcessingTimesAnswerVisitors | simpy_helpers/Stats.py:105-108 | the i-th processing time is the i-th visitor's own answer for the resource |
| Tracking.TotalTimes | simpy_helpers/Stats.py:19-23 | one total time per entity, each being that entity's `GetTotalTime` |
| Tracking.TotalWaitingTimes | simpy_helpers/Stats.py:25-33 | one total waiting time per entity, for disposed entities with a creation time |
| Tracking.TotalProcessingTimes | simpy_helpers/Stats.py:35-43 | one total processing time per entity, for disposed entities with a creation time |
| Tracking.Summary.constructor | simpy_helpers/Stats.py:6 | before any run there is no current registry |
| Tracking.Stats.constructor | simpy_helpers/Stats.py:7-10 | a new registry is empty and becomes the current one |
| Tracking.Stats.AddResource | simpy_helpers/Stats.py:75-79 | the first resource registered under a name is kept |
| Tracking.Stats.AddEntity | simpy_helpers/Stats.py:81-83 | the entity is appended and nothing else changes |
| Tracking.Stats.FilterEntities | simpy_helpers/Stats.py:96-98 | the disposed entities that match the filter when one is given, and all of them |
| Tracking.Stats.GetEntities | simpy_helpers/Stats.py:14-17 | `NoRunYet` before a run, else the disposed entities in registration order |
| Tracking.Stats.GetTotalTimes | simpy_helpers/Stats.py:19-23 | `NoRunYet` before a run, else one total time per filtered entity |
| Tracking.Stats.GetWaitingTimes | simpy_helpers/Stats.py:25-33 | `NoRunYet`; per resource, the waiting times of the filtered visitors; without one, the totals of the filtered entities, each of which has a creation time |
| Tracking.Stats.GetProcessingTimes | simpy_helpers/Stats.py:35-43 | the same for processing times, under the same creation-time requirement |
| Tracking.Stats.QueueSizeOverTime | simpy_helpers/Stats.py:45-53 | `NoRunYet`; the registered resource's sampled queue log; an unregistered resource's zero series |
| Tracking.Stats.UtilizationOverTime | simpy_helpers/Stats.py:55-63 | the same for the utilization series |
| Tracking.Stats.NumberBeingProcessedOverTime | simpy_helpers/Stats.py:65-73 | the same for the raw counts |
| LegacyTracking.PadAppendsAtMostOne | build/lib/simpy_helpers/Entity.py:154-167 | fill-in leaves arrivals and the handle alone, does nothing without an outstanding request, and appends at most one `now` to start and to finish, only to a list shorter than the arrivals |
| LegacyTracking.PaddedRecordIsComplete | build/lib/simpy_helpers/Entity.py:159-167 | when start and finish lag arrivals by at most one, a padded record has three lists of equal length |
| LegacyTracking.PadAllIdempotent | build/lib/simpy_helpers/Entity.py:154-169 | under that invariant a second fill-in changes nothing |
| LegacyTracking.PadAllKeepsLag | build/lib/simpy_helpers/Entity.py:163 | fill-in preserves the at-most-one-behind invariant |
| LegacyTracking.ProtocolKeepsLag | build/lib/simpy_helpers/Entity.py:86-122 | visiting each resource in the order wait, process, release keeps every record at most one step behind: a new record is idle, waiting from idle gives waiting, processing from waiting gives in service, releasing from in service gives idle, and every phase satisfies the lag invariant |
| LegacyTracking.Entity.constructor | build/lib/simpy_helpers/Entity.py:12-36 | the entity keeps the mapping it is given and writes its priority and `disposed: False` there; it is not disposed |
| LegacyTracking.Entity.WithOwnAttributes | build/lib/simpy_helpers/Entity.py:12-36 | the same on a fresh mapping of the entity's own |
| LegacyTracking.Entity.WaitForResource | build/lib/simpy_helpers/Entity.py:86-98 | as in the current copy: record created once, one arrival, handle with the override or own priority, one request logged |
| LegacyTracking.Entity.ProcessAtResource | build/lib/simpy_helpers/Entity.py:100-112 | one start `now`, one check logged, the service time as delay |
| LegacyTracking.Entity.ReleaseResource | build/lib/simpy_helpers/Entity.py:114-122 | no-op without a handle; otherwise one finish, one release logged, handle cleared |
| LegacyTracking.Entity.Dispose | build/lib/simpy_helpers/Entity.py:124-134 | disposal time `now`, the mapping's `disposed` becomes true, and the entity reads as disposed |
| LegacyTracking.Entity.FillInForNonDisposed | build/lib/simpy_helpers/Entity.py:145-171 | every record is padded with `now` and the disposal time becomes `now`; the flag is left as it was |
| LegacyTracking.Entity.WaitingTimeFor | build/lib/simpy_helpers/Entity.py:176-184 | `None` exactly when the resource was never visited; otherwise the records are filled in unless disposed, and the answer is the zip-truncated waiting sum of the settled record |
| LegacyTracking.Entity.ProcessingTimeFor | build/lib/simpy_helpers/Entity.py:186-194 | the same for processing |
| LegacyTracking.Entity.SumVisitedTimes | build/lib/simpy_helpers/Entity.py:196-202 | under the lag invariant, the loop's sums are the waiting and processing totals over the settled records; the disposal time is stamped when the entity is not disposed and visited something |
| LegacyTracking.Entity.CalculateStatistics | build/lib/simpy_helpers/Entity.py:196-205 | the disposal time is stamped with `now` unless the entity is disposed or visited nothing; total = disposal − creation is stored; under the lag invariant the records are left settled and the stored waiting and processing times are the totals over them |
| LegacyTracking.Entity.GetTotalTime | build/lib/simpy_helpers/Entity.py:50-56 | disposal − creation, with no disposal check; the entity is left as `_calculate_statistics` leaves it |
| LegacyTracking.Entity.GetTotalWaitingTime | build/lib/simpy_helpers/Entity.py:58-64 | under the lag invariant, the total waiting time over the settled records; the entity is left as `_calculate_statistics` leaves it |
| LegacyTracking.Entity.GetTotalProcessingTime | build/lib/simpy_helpers/Entity.py:72-77 | under the lag invariant, the total processing time over the settled records; the entity is left as `_calculate_statistics` leaves it |
| LegacyTracking.Entity.Get | build/lib/simpy_helpers/Entity.py:50-77 | the accessor's answer on the state before the call (total time always, the sums under the lag invariant); the entity is left as `_calculate_statistics` leaves it |
| LegacyTracking.SharedDefaultDisposesBoth | build/lib/simpy_helpers/Entity.py:124-134 | two entities built on the shared default mapping: disposing the first makes the second read as disposed |
| LegacyTracking.OwnAttributesDisposeOne | build/lib/simpy_helpers/Entity.py:12-36 | with mappings of their own, disposing the first leaves the second live |
| LegacyTracking.Disposed | build/lib/simpy_helpers/Stats.py:126-127 | the disposed entities of the registry, and all of them |
| LegacyTracking.Select | build/lib/simpy_helpers/Stats.py:98-102 | a subsequence of the registry |
| LegacyTracking.SelectMatches | build/lib/simpy_helpers/Entity.py:213-217 | the selection holds exactly the entities whose mapping matches every key of the filter, `disposed` included |
| LegacyTracking.WithDefaultDisposed | build/lib/simpy_helpers/Stats.py:104-107 | the caller's keys and values are kept and `disposed` is added as true only when absent |
| LegacyTracking.DefaultFilterSelectsDisposed | build/lib/simpy_helpers/Stats.py:104-108 | with an empty filter the query selects exactly the disposed entities, in order |
| LegacyTracking.DisposedFalseSelectsLive | build/lib/simpy_helpers/Stats.py:104-108 | a caller's `disposed: False` overrides the default and selects exactly the live entities |
| LegacyTracking.SelectKeepsOrder | build/lib/simpy_helpers/Stats.py:98-102 | selection of a concatenation is the concatenation of selections |
| LegacyTracking.Visitors | build/lib/simpy_helpers/Stats.py:110-118 | a subsequence of entities that visited the resource |
| LegacyTracking.VisitorsComplete | build/lib/simpy_helpers/Stats.py:110-118 | every entity that visited the resource is among the visitors |
| LegacyTracking.RecordedAnswersFollowVisitors | build/lib/simpy_helpers/Stats.py:110-118 | after dropping `None`s there is one waiting and one processing time per visitor, in order, each from that visitor's record |
| LegacyTracking.ZipSum | build/lib/simpy_helpers/Stats.py:124 | the pairwise sum has the shorter length and adds element by element |
| LegacyTracking.AskWaiting | build/lib/simpy_helpers/Stats.py:110-113 | the waiting times of the visitors, `None`s dropped, each entity left filled in and stamped as its own query leaves it |
| LegacyTracking.AskProcessing | build/lib/simpy_helpers/Stats.py:115-118 | the same for processing times |
| LegacyTracking.SelectFromEntries | build/lib/simpy_helpers/Stats.py:98-102 | the selection depends only on the contents of the entities' mappings, so a query that leaves them alone selects the same entities again |
| LegacyTracking.VisitorsFromKeys | build/lib/simpy_helpers/Stats.py:110-118 | the visitors depend only on which resources each entity visited, so padding records leaves them as they were |
| LegacyTracking.SettledTwice | build/lib/simpy_helpers/Stats.py:120-124 | under the lag invariant, a second per-resource query of the same entity at the same time changes neither its records nor its disposal time |
| LegacyTracking.SecondAskSettles | build/lib/simpy_helpers/Stats.py:120-124 | the same for a whole selection: after the waiting query, the processing query leaves every record and disposal time as it found them |
| LegacyTracking.AskProcessingAfterWaiting | build/lib/simpy_helpers/Stats.py:115-124 | the processing answers of entities the waiting query has just answered; under the lag invariant the waiting answers still read off the records, and each entity is as its first query left it |
| LegacyTracking.AskTotals | build/lib/simpy_helpers/Stats.py:120-124 | one answer per visitor; under the lag invariant, the pairwise sum of the waiting and processing answers, the second query finding every record already filled in; entities outside the selection are unchanged |
| LegacyTracking.GetEach | build/lib/simpy_helpers/Stats.py:24-25 | one answer per entity, each that entity's accessor answer on the state before the walk; each entity is left as `_calculate_statistics` leaves it, the others unchanged |
| LegacyTracking.Summary.constructor | build/lib/simpy_helpers/Stats.py:6 | before any run there is no current registry |
| LegacyTracking.Stats.constructor | build/lib/simpy_helpers/Stats.py:7-10 | a new registry is empty and becomes the current one |
| LegacyTracking.Stats.AddResource | build/lib/simpy_helpers/Stats.py:83-87 | first-seen-wins |
| LegacyTracking.Stats.AddEntity | build/lib/simpy_helpers/Stats.py:89-91 | append only |
| LegacyTracking.Stats.FilterEntities | build/lib/simpy_helpers/Stats.py:104-108 | writes `disposed: True` into the caller's mapping when absent (and leaves it untouched otherwise), then selects the registered entities that match it |
| LegacyTracking.Stats.WaitingTimesForResource | build/lib/simpy_helpers/Stats.py:110-113 | the filter is defaulted in place; the answer is the waiting times of the selected visitors after their fill-in; each selected entity is filled in and stamped as its own query leaves it, the others unchanged |
| LegacyTracking.Stats.ProcessingTimesForResource | build/lib/simpy_helpers/Stats.py:115-118 | the same for processing times |
| LegacyTracking.Stats.TotalTimesForResource | build/lib/simpy_helpers/Stats.py:120-124 | one total per selected visitor; under the lag invariant the pairwise sum of waiting and processing times, each selected entity left as one query leaves it; the others unchanged |
| LegacyTracking.Stats.AnswersFor | build/lib/simpy_helpers/Stats.py:24-25 | the filter is defaulted in place; one answer per selected entity, each that entity's accessor answer before the query; each selected entity left as `_calculate_statistics` leaves it, the others unchanged |
| LegacyTracking.Stats.GetEntities | build/lib/simpy_helpers/Stats.py:14-17 | `NoRunYet`, else the disposed entities in order |
| LegacyTracking.Stats.GetTotalTimes | build/lib/simpy_helpers/Stats.py:19-25 | `NoRunYet` with the filter untouched; otherwise the filter is defaulted in place and the answer is the per-resource totals or the per-entity total times; only the selected entities' records, disposal times and stored totals change, as the queries above state, and the records stay sound for the next query |
| LegacyTracking.Stats.GetWaitingTimes | build/lib/simpy_helpers/Stats.py:27-35 | the same for waiting times |
| LegacyTracking.Stats.GetProcessingTimes | build/lib/simpy_helpers/Stats.py:37-45 | the same for processing times |
| LegacySource.Decimal | build/lib/simpy_helpers/Source.py:28 | the decimal text of a count: non-empty, digits only, no leading zero |
| LegacySource.DecimalRoundTrip | build/lib/simpy_helpers/Source.py:28 | reading the decimal text back gives the count |
| LegacySource.EntityNamesDiffer | build/lib/simpy_helpers/Source.py:28 | entities with different counts get different names |
| LegacySource.Delays | build/lib/simpy_helpers/Source.py:61-70 | the delay stream: `first_creation` first when given, then the draws of the inter-arrival function |
| LegacySource.Source.constructor | build/lib/simpy_helpers/Source.py:8-15 | count 0, nothing drawn or emitted |
| LegacySource.Source.Create | build/lib/simpy_helpers/Source.py:9-10 | `MissingInterarrival` without a usable inter-arrival function (absent, or set to `None`), else a fresh source |
| LegacySource.Source.NextEntity | build/lib/simpy_helpers/Source.py:17-31 | the next delay comes from the stream; the count rises by one per draw; past the number it stops; otherwise the entity gets creation time `now + delay`, the name `"<Class> k"` and its class as `type`, and is registered before it is returned; at most `number` entities are emitted |
| LegacySource.Source.GetBuildCount | build/lib/simpy_helpers/Source.py:42-46 | the emitted entities plus one once the source has stopped |
| LegacySource.Source.InitializeStats | build/lib/simpy_helpers/Source.py:53-54 | a fresh empty registry becomes the current one |
| LegacySource.BuildCountOvershoots | build/lib/simpy_helpers/Source.py:18-23 | with number 1, one entity is emitted but the build count reads 2 |
| LegacySource.CappedSource.NextEntity | build/lib/simpy_helpers/Source.py:17-31 | stops before drawing once `number` entities are out, so count equals the number emitted |
| LegacySource.CappedSource.GetBuildCount | build/lib/simpy_helpers/Source.py:42-46 | exactly the number emitted, never above `number` |
| LegacySource.CappedBuildCountExact | build/lib/simpy_helpers/Source.py:42-46 | with number 1, one entity is emitted and the build count reads 1 |

## Left out

- The SimPy engine is not modelled: `env.timeout`, `env.process`, process callbacks, and `PriorityResource` queueing and grant order. `now`, `count`, `len(queue)`, `capacity`, request handles and service times are parameters.
- numpy floats are not modelled. `np.arange`/`np.around` become integer ticks with round-half-to-even, and `round(count / capacity, 2)` becomes an integer percentage. Binary floating-point effects of `np.arange` near `now` are not captured.
- `process_at_resource` probes the arity of the user's `service_time` (try/except `TypeError`). The model takes the service time as a parameter.
- `Source.start` is not modelled. It runs its driving loop, spawns each entity's process and appends automatic disposal as a callback; this is cooperative-concurrency plumbing. `InitializeStats` is its only modelled step.
- The user's `interarrival_time` and `build_entity` are parameters of `NextEntity`: the draw and the built entity.
- An Entity class without a usable `process` method is refused by the constructor check at simpy_helpers/Entity.py:19-20 (and build/lib/simpy_helpers/Entity.py likewise). The base class defines no `process`, so a subclass that omits it fails the `is None` guard itself with `AttributeError`; only a subclass that sets `process = None` gets `NotImplementedError`. The model has no user subclasses, because the engine callbacks are not modelled, so this check is left out and the constructors always succeed.
- A Resource class without a usable `service_time` function is refused in the same two ways at simpy_helpers/Resource.py:49-50: `AttributeError` when the function is absent, `NotImplementedError` when it is set to `None`. It is left out for the same reason; the service time is a parameter of `ProcessAtResource`.
- LegacySource.Source.Create: `MissingInterarrival` stands for either exception of build/lib/simpy_helpers/Source.py:9-10, the `AttributeError` of a class without `interarrival_time` and the `NotImplementedError` of one that sets it to `None`; the model does not tell them apart.
- Tracking.Stats.GetTotalTimes: modelled as a query that changes nothing. In the source each `get_total_time` call also stores the entity's three totals (simpy_helpers/Stats.py:23); the model does not write them. Tracking.Entity.GetTotalTime states that store for one entity.
- Tracking.Stats.GetWaitingTimes: the same; the store happens at simpy_helpers/Stats.py:33 when no resource is given.
- Tracking.Stats.GetProcessingTimes: the same; the store happens at simpy_helpers/Stats.py:43 when no resource is given.
- `Debug.py` is console output, and `setup.py` is packaging. Both are left out.
- `__str__`, `now`, `wait`, `set_attribute`, `did_visit_resource` and `container_level_over_time` are pass-throughs without logic and are left out.
- The legacy Stats time-series queries (build/lib/simpy_helpers/Stats.py:47-75) are the current copy's line for line. They are modelled once, in `Tracking.Stats`.
- Each crash the source does not guard against is modelled as a precondition instead of an error path:
  - arithmetic on a `None` creation or disposal time;
  - a `KeyError` when releasing or processing at an unvisited resource;
  - a missing `priority` key when no override is given;
  - queries made while `Stats.summary` is unset;
  - `wait_for_resource` before any run: its call to `_add_resource` (simpy_helpers/Stats.py:76-79, build/lib/simpy_helpers/Stats.py:84-87) reads `Stats.summary`, so Tracking.Entity.WaitForResource and LegacyTracking.Entity.WaitForResource require a current summary;
  - waiting or processing times of a disposed entity without a creation time (the `total_time` arithmetic at simpy_helpers/Entity.py:170 raises first), so Tracking.TotalWaitingTimes, Tracking.TotalProcessingTimes, Tracking.Stats.GetWaitingTimes and Tracking.Stats.GetProcessingTimes require a creation time for each disposed entity they read.
- LegacyTracking.Entity.IsDisposed: a mapping without `disposed` reads as not disposed, where the source would raise `KeyError`. The source's constructor always sets the key.
- LegacyTracking.Entity.SumVisitedTimes: the sums are stated only when every record's start and finish lists are at most one behind its arrivals, as the source comment at build/lib/simpy_helpers/Entity.py:163 asserts. Without that, each per-resource query pads again, and the result depends on how often it pads.
- LegacyTracking.Entity.CalculateStatistics: the waiting and processing values are stated only under the same at-most-one-behind invariant.
- LegacyTracking.Entity.GetTotalWaitingTime: stated only under the same invariant.
- LegacyTracking.Entity.GetTotalProcessingTime: stated only under the same invariant.
- LegacyTracking.Entity.Get: the waiting and processing answers are stated only under the same invariant.
- LegacyTracking.GetEach: per-entity answers for waiting and processing are stated only under the same invariant.
- LegacyTracking.AskTotals: the pairwise sum is stated only under the same invariant.
- LegacyTracking.Stats.TotalTimesForResource: the same. Its first, unused `_filter_entities` call is folded into the two that follow; with the filter already defaulted it selects the same entities.
- LegacyTracking.Stats.AnswersFor: stated under the same invariant. It requires the filter mapping not to be an entity's own mapping.
- LegacyTracking.Stats.GetTotalTimes: inherits both restrictions above.
- LegacyTracking.Stats.GetWaitingTimes: inherits both restrictions above.
- LegacyTracking.Stats.GetProcessingTimes: inherits both restrictions above.
- The legacy queries require the registered entities to be distinct objects. Registering the same entity twice would make one query fill it in twice.
- The persistence of the default filter `attributes={}` across legacy calls follows from `FilterEntities` writing into the mapping it is given. No lemma walks through a sequence of such calls.
- The helpers `TimesFor`, `AddTimesFor`, `SumStep`, `StoreStatistics`, `AskOneWaiting`, `AskOneProcessing`, `AskWaitingSelected`, `AskProcessingSelected`, `AskBoth`, `AnswerSelected`, `GetOne`, `SampleAt` and `Answer` split one loop or comprehension of the source into steps. They carry no separate promise of the source.
- The helpers `RoundTimeIsGridTime`, `SelectFirst`, `VisitorsFirst`, `SelectAmong`, `VisitorsAmong`, `WaitingAmong`, `WaitingFromVisits`, `SecondAskSettlesInPlace`, `VisitsOf`, `DisposalsOf`, `DisposedOf` and `EntriesOf` restate a definition one step at a time, or on a copy of the entities' state. They carry no separate promise of the source.

## Findings

| source | as written | input that shows it | evidently intended | confidence | as-written member | corrected member |
|---|---|---|---|---|---|---|
| simpy_helpers/Entity.py:12-31 | the default `attributes={}` is one mapping shared by every entity built without attributes, so the first entity's stored priority is found by the next | an entity of a class without a priority, then one of a class with priority 0, both built without attributes | the second entity's priority is its class's 0 | not executed | Tracking.SharedDefaultIgnoresClassPriority | Tracking.OwnAttributesKeepClassPriority |
| build/lib/simpy_helpers/Entity.py:12-36, 124-134 | the shared default mapping also holds `disposed`, so disposing one entity marks every entity built without attributes as disposed | two entities built without attributes, the first disposed at time 10 | only the disposed entity reads as disposed | not executed | LegacyTracking.SharedDefaultDisposesBoth | LegacyTracking.OwnAttributesDisposeOne |
| build/lib/simpy_helpers/Source.py:18-23, 42-46 | the count is incremented before the cut-off test, so the stopping draw is counted and `get_build_count` reports one more than was built | `number=1`, generator resumed twice | the build count equals the number of entities built | not executed | LegacySource.BuildCountOvershoots | LegacySource.CappedBuildCountExact |
