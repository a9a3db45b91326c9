/** The step-function sampler of ResourceStatsMixin: it turns a resource's
    sparse, irregularly timed event log into a series sampled on a regular
    grid (`_over_time`, `_rounded_event_list`, `_zeros`).

    Time is counted in integer ticks of one hundredth of a simulated time
    unit, so the three supported frequencies 0.01, 0.1 and 1 are steps of 1,
    10 and 100 ticks, and rounding to 2, 1 or 0 decimals is rounding to a
    multiple of that step. */
module Sampling {
  import opened Common

  /** The supported sample frequencies 0.01, 0.1 and 1 (VALID_SAMPLE_FREQUENCIES). */
  datatype Frequency = Hundredth | Tenth | Whole

  /** Grid step in ticks, which is also the rounding unit: DECIMAL_MAP sends
      0.01 to 2 decimals, 0.1 to 1 decimal and 1 to 0 decimals. */
  function Unit(f: Frequency): nat {
    match f
    case Hundredth => 1
    case Tenth => 10
    case Whole => 100
  }

  /** The check both `_over_time` and `_zeros` make before anything else. */
  function ParseFrequency(sampleFrequency: real): (r: Result<Frequency>)
    ensures r.Ok? <==> sampleFrequency == 0.01 || sampleFrequency == 0.1 || sampleFrequency == 1.0
    ensures r.Ok? ==> Unit(r.value) as real == 100.0 * sampleFrequency
    ensures r.Err? ==> r.error == UnsupportedFrequency
  {
    if sampleFrequency == 0.01 then Ok(Hundredth)
    else if sampleFrequency == 0.1 then Ok(Tenth)
    else if sampleFrequency == 1.0 then Ok(Whole)
    else Err(UnsupportedFrequency)
  }

  datatype EventKind = RequestEvent | StartEvent | ReleaseEvent

  /** One `(time, value, kind)` triple of a resource log; time in ticks. */
  datatype Event = Event(time: int, value: int, kind: EventKind)

  /** The `(value, kind)` pair a bucket keeps for an event. */
  datatype Entry = Entry(value: int, kind: EventKind)

  /** `np.around` on n / d: the nearest integer, halves to even. */
  function RoundHalfEven(n: int, d: nat): int
    requires d > 0
  {
    var q, m := n / d, n % d;
    if 2 * m < d then q
    else if 2 * m > d then q + 1
    else if q % 2 == 0 then q
    else q + 1
  }

  /** RoundHalfEven(n, d) * d is a multiple of d nearest to n, and on a tie
      the even quotient is chosen. */
  lemma RoundHalfEvenIsNearest(n: int, d: nat)
    requires d > 0
    ensures var r := RoundHalfEven(n, d); -(d as int) <= 2 * (n - r * d) <= d
    ensures var r := RoundHalfEven(n, d); (2 * (n - r * d) == d || 2 * (n - r * d) == -(d as int)) ==> r % 2 == 0
  {
    var q, m := n / d, n % d;
    assert n == q * d + m;
    assert (q + 1) * d == q * d + d;
    var r := RoundHalfEven(n, d);
    if r == q {
      assert n - r * d == m;
    } else {
      assert r == q + 1;
      assert n - r * d == m - d;
    }
  }

  /** Index of the grid point a time rounds to. */
  function Slot(t: int, f: Frequency): int {
    RoundHalfEven(t, Unit(f))
  }

  /** `np.around(time, decimals)`, in ticks. */
  function RoundTime(t: int, f: Frequency): int {
    Slot(t, f) * Unit(f)
  }

  /** The k-th grid point `k * sample_frequency`, in ticks. */
  function GridTime(k: nat, f: Frequency): int {
    k * Unit(f)
  }

  lemma RoundTimeIsGridTime(t: int, f: Frequency, k: nat)
    ensures RoundTime(t, f) == GridTime(k, f) <==> Slot(t, f) == k
  {
    match f
    case Hundredth =>
    case Tenth =>
    case Whole =>
  }

  /** The bucket of `_rounded_event_list` under `key`: the events of the log
      whose rounded time is `key`, in log order. */
  function Bucket(log: seq<Event>, f: Frequency, key: int): seq<Entry> {
    if log == [] then []
    else
      var e := log[|log| - 1];
      Bucket(log[..|log| - 1], f, key) + (if RoundTime(e.time, f) == key then [Entry(e.value, e.kind)] else [])
  }

  /** `_rounded_event_list`: group the log by rounded time. */
  method RoundedEventList(log: seq<Event>, f: Frequency) returns (buckets: map<int, seq<Entry>>)
    ensures forall key :: key in buckets <==> Bucket(log, f, key) != []
    ensures forall key :: key in buckets ==> buckets[key] == Bucket(log, f, key)
  {
    buckets := map[];
    for i := 0 to |log|
      invariant forall key :: key in buckets <==> Bucket(log[..i], f, key) != []
      invariant forall key :: key in buckets ==> buckets[key] == Bucket(log[..i], f, key)
    {
      var e := log[i];
      var roundedTime := RoundTime(e.time, f);
      assert log[..i + 1][..i] == log[..i];
      if roundedTime in buckets {
        buckets := buckets[roundedTime := buckets[roundedTime] + [Entry(e.value, e.kind)]];
      } else {
        buckets := buckets[roundedTime := [Entry(e.value, e.kind)]];
      }
    }
    assert log[..|log|] == log;
  }

  /** Bucket order is log order: the buckets of a concatenation are the
      buckets of its parts, one after the other. */
  lemma {:induction false} BucketKeepsLogOrder(a: seq<Event>, b: seq<Event>, f: Frequency, key: int)
    ensures Bucket(a + b, f, key) == Bucket(a, f, key) + Bucket(b, f, key)
  {
    if b != [] {
      var ab := a + b;
      assert ab[..|ab| - 1] == a + b[..|b| - 1];
      assert ab[|ab| - 1] == b[|b| - 1];
      BucketKeepsLogOrder(a, b[..|b| - 1], f, key);
    } else {
      assert a + b == a;
    }
  }

  /** An event whose rounded time is `key` lands in that bucket. */
  lemma {:induction false} EventInBucket(log: seq<Event>, f: Frequency, key: int, i: int)
    requires 0 <= i < |log| && RoundTime(log[i].time, f) == key
    ensures Entry(log[i].value, log[i].kind) in Bucket(log, f, key)
  {
    if i < |log| - 1 {
      EventInBucket(log[..|log| - 1], f, key, i);
    }
  }

  /** Every entry of a bucket comes from an event of the log with that
      rounded time. */
  lemma {:induction false} BucketFromLog(log: seq<Event>, f: Frequency, key: int, x: Entry)
    requires x in Bucket(log, f, key)
    ensures exists i :: 0 <= i < |log| && RoundTime(log[i].time, f) == key && Entry(log[i].value, log[i].kind) == x
  {
    var init := log[..|log| - 1];
    var e := log[|log| - 1];
    if x in Bucket(init, f, key) {
      BucketFromLog(init, f, key, x);
      var i :| 0 <= i < |init| && RoundTime(init[i].time, f) == key && Entry(init[i].value, init[i].kind) == x;
      assert log[i] == init[i];
    } else {
      assert RoundTime(e.time, f) == key && Entry(e.value, e.kind) == x;
    }
  }

  /** Last wins: the last entry of a bucket is the last event, in log order,
      whose rounded time is the bucket's key. */
  lemma {:induction false} LastEventWins(log: seq<Event>, f: Frequency, key: int, i: int)
    requires 0 <= i < |log| && RoundTime(log[i].time, f) == key
    requires forall j :: i < j < |log| ==> RoundTime(log[j].time, f) != key
    ensures Bucket(log, f, key) != []
    ensures Bucket(log, f, key)[|Bucket(log, f, key)| - 1] == Entry(log[i].value, log[i].kind)
  {
    var n := |log|;
    if i < n - 1 {
      var init := log[..n - 1];
      assert RoundTime(log[n - 1].time, f) != key;
      forall j | i < j < |init| ensures RoundTime(init[j].time, f) != key {
        assert init[j] == log[j];
      }
      LastEventWins(init, f, key, i);
    }
  }

  /** Number of occurrences of x in keys. */
  function Occurrences(keys: seq<int>, x: int): nat {
    if keys == [] then 0 else (if keys[0] == x then 1 else 0) + Occurrences(keys[1..], x)
  }

  /** Sum of the sizes of the buckets listed in keys. */
  function SizeOver(log: seq<Event>, f: Frequency, keys: seq<int>): nat {
    if keys == [] then 0 else |Bucket(log, f, keys[0])| + SizeOver(log, f, keys[1..])
  }

  lemma {:induction false} OccursOnce(keys: seq<int>, x: int)
    requires forall i, j :: 0 <= i < j < |keys| ==> keys[i] != keys[j]
    requires x in keys
    ensures Occurrences(keys, x) == 1
  {
    if keys[0] == x {
      NotOccurring(keys[1..], x);
    } else {
      OccursOnce(keys[1..], x);
    }
  }

  lemma {:induction false} NotOccurring(keys: seq<int>, x: int)
    requires x !in keys
    ensures Occurrences(keys, x) == 0
  {
    if keys != [] {
      NotOccurring(keys[1..], x);
    }
  }

  lemma {:induction false} SizeOverSnoc(log: seq<Event>, f: Frequency, keys: seq<int>)
    requires log != []
    ensures SizeOver(log, f, keys)
         == SizeOver(log[..|log| - 1], f, keys) + Occurrences(keys, RoundTime(log[|log| - 1].time, f))
  {
    if keys != [] {
      SizeOverSnoc(log, f, keys[1..]);
    }
  }

  /** No event is lost: over any duplicate-free list of keys that covers every
      rounded time of the log, the bucket sizes add up to the log's length. */
  lemma {:induction false} NoEventLost(log: seq<Event>, f: Frequency, keys: seq<int>)
    requires forall i, j :: 0 <= i < j < |keys| ==> keys[i] != keys[j]
    requires forall i :: 0 <= i < |log| ==> RoundTime(log[i].time, f) in keys
    ensures SizeOver(log, f, keys) == |log|
  {
    if log == [] {
      EmptySizeOver(f, keys);
    } else {
      var init := log[..|log| - 1];
      forall i | 0 <= i < |init| ensures RoundTime(init[i].time, f) in keys {
        assert init[i] == log[i];
      }
      NoEventLost(init, f, keys);
      SizeOverSnoc(log, f, keys);
      OccursOnce(keys, RoundTime(log[|log| - 1].time, f));
    }
  }

  lemma {:induction false} EmptySizeOver(f: Frequency, keys: seq<int>)
    ensures SizeOver([], f, keys) == 0
  {
    if keys != [] {
      EmptySizeOver(f, keys[1..]);
    }
  }

  /** The value the sampled series takes at grid point k: the value of the
      last event in the bucket of that point, else the previous value,
      starting from 0. */
  function ValueAt(log: seq<Event>, f: Frequency, k: nat): int {
    var b := Bucket(log, f, GridTime(k, f));
    if b != [] then b[|b| - 1].value
    else if k == 0 then 0
    else ValueAt(log, f, k - 1)
  }

  /** Number of points of `np.arange(0, now, sample_frequency)`. */
  function GridCount(now: int, f: Frequency): nat {
    if now <= 0 then 0 else (now - 1) / Unit(f) + 1
  }

  /** The grid is exactly the points k * step with 0 <= k * step < now. */
  lemma GridCountIsGridSize(now: int, f: Frequency)
    ensures forall k: nat :: k < GridCount(now, f) <==> GridTime(k, f) < now
  {
    match f
    case Hundredth =>
    case Tenth =>
    case Whole =>
  }

  /** The sampled series: one value per grid point. */
  function Sampled(log: seq<Event>, f: Frequency, now: int): seq<int> {
    seq(GridCount(now, f), k requires 0 <= k => ValueAt(log, f, k))
  }

  /** What `_over_time` returns for a log, a current time and a raw frequency. */
  function SampleLog(log: seq<Event>, now: int, sampleFrequency: real): Result<seq<int>> {
    match ParseFrequency(sampleFrequency)
    case Err(e) => Err(e)
    case Ok(f) => Ok(Sampled(log, f, now))
  }

  /** `_over_time`: walk the grid, carrying the last seen value forward. */
  method OverTime(now: int, log: seq<Event>, sampleFrequency: real) returns (r: Result<seq<int>>)
    ensures r == SampleLog(log, now, sampleFrequency)
  {
    var parsed := ParseFrequency(sampleFrequency);
    if parsed.Err? {
      return Err(UnsupportedFrequency);
    }
    var f := parsed.value;
    var buckets := RoundedEventList(log, f);
    var currentSize := 0;
    var series := [];
    var n := GridCount(now, f);
    for k := 0 to n
      invariant |series| == k
      invariant forall j :: 0 <= j < k ==> series[j] == ValueAt(log, f, j)
      invariant currentSize == if k == 0 then 0 else ValueAt(log, f, k - 1)
    {
      currentSize := SampleAt(log, f, buckets, k, currentSize);
      series := series + [currentSize];
    }
    assert series == Sampled(log, f, now);
    return Ok(series);
  }

  /** One grid point of that walk: the last value of the point's bucket if
      it has one, else the value carried from the previous point. */
  method SampleAt(log: seq<Event>, f: Frequency, buckets: map<int, seq<Entry>>, k: nat, carried: int) returns (v: int)
    requires forall key :: key in buckets <==> Bucket(log, f, key) != []
    requires forall key :: key in buckets ==> buckets[key] == Bucket(log, f, key)
    requires carried == if k == 0 then 0 else ValueAt(log, f, k - 1)
    ensures v == ValueAt(log, f, k)
  {
    var i := GridTime(k, f);
    v := carried;
    if i in buckets {
      var bucket := buckets[i];
      v := bucket[|bucket| - 1].value;
    }
  }

  /** `_zeros`: the all-zero series of the same grid. */
  function Zeros(now: int, sampleFrequency: real): Result<seq<int>> {
    match ParseFrequency(sampleFrequency)
    case Err(e) => Err(e)
    case Ok(f) => Ok(seq(GridCount(now, f), _ => 0))
  }

  lemma {:induction false} EmptyLogSamplesZero(f: Frequency, k: nat)
    ensures ValueAt([], f, k) == 0
  {
    if k > 0 {
      EmptyLogSamplesZero(f, k - 1);
    }
  }

  /** The zero series is what the sampler yields for a resource with no
      events, and it has the error case and the length of every sample taken
      with the same current time and frequency. */
  lemma ZerosMatchSampledShape(log: seq<Event>, now: int, sampleFrequency: real)
    ensures Zeros(now, sampleFrequency) == SampleLog([], now, sampleFrequency)
    ensures Zeros(now, sampleFrequency).Ok? <==> SampleLog(log, now, sampleFrequency).Ok?
    ensures Zeros(now, sampleFrequency).Ok? ==>
              |Zeros(now, sampleFrequency).value| == |SampleLog(log, now, sampleFrequency).value|
  {
    var parsed := ParseFrequency(sampleFrequency);
    if parsed.Ok? {
      var f := parsed.value;
      forall k | 0 <= k < GridCount(now, f) ensures ValueAt([], f, k) == 0 {
        EmptyLogSamplesZero(f, k);
      }
      assert Sampled([], f, now) == seq(GridCount(now, f), _ => 0);
    }
  }

  /** Carry-forward: a grid point no event rounds to repeats the previous
      value, and the series starts at 0. */
  lemma CarryForward(log: seq<Event>, f: Frequency, k: nat)
    requires forall i :: 0 <= i < |log| ==> Slot(log[i].time, f) != k
    ensures ValueAt(log, f, k) == if k == 0 then 0 else ValueAt(log, f, k - 1)
  {
    if Bucket(log, f, GridTime(k, f)) != [] {
      var x := Bucket(log, f, GridTime(k, f))[0];
      BucketFromLog(log, f, GridTime(k, f), x);
      var i :| 0 <= i < |log| && RoundTime(log[i].time, f) == GridTime(k, f) && log[i].value == x.value;
      RoundTimeIsGridTime(log[i].time, f, k);
      assert false;
    }
  }

  /** Event i is the latest event at or before grid point k: it rounds into
      [0, k], and every other event that does rounds earlier, or to the same
      point but earlier in the log. */
  predicate LatestAtOrBefore(log: seq<Event>, f: Frequency, k: nat, i: int) {
    && 0 <= i < |log|
    && 0 <= Slot(log[i].time, f) <= k
    && forall j :: 0 <= j < |log| && 0 <= Slot(log[j].time, f) <= k ==>
         Slot(log[j].time, f) < Slot(log[i].time, f)
         || (Slot(log[j].time, f) == Slot(log[i].time, f) && j <= i)
  }

  /** The series starts at 0: with no event rounded into [0, k], the sample
      at grid point k is 0. */
  lemma {:induction false} NoEventSamplesZero(log: seq<Event>, f: Frequency, k: nat)
    requires forall j :: 0 <= j < |log| ==> !(0 <= Slot(log[j].time, f) <= k)
    ensures ValueAt(log, f, k) == 0
  {
    if Bucket(log, f, GridTime(k, f)) != [] {
      var j := SomeEventAtSlot(log, f, k);
      assert false;
    } else if k > 0 {
      NoEventSamplesZero(log, f, k - 1);
    }
  }

  /** The series is a step function of the log: at grid point k it holds the
      value of the latest event rounded into [0, k]. */
  lemma {:induction false} SampleIsLatestEvent(log: seq<Event>, f: Frequency, k: nat, i: int)
    requires LatestAtOrBefore(log, f, k, i)
    ensures ValueAt(log, f, k) == log[i].value
  {
    if Bucket(log, f, GridTime(k, f)) != [] {
      var j0 := SomeEventAtSlot(log, f, k);
      LatestIsLastOfBucket(log, f, k, i, j0);
    } else {
      NoEventAtSlot(log, f, k);
      assert Slot(log[i].time, f) != k;
      LatestStepsBack(log, f, k, i);
      SampleIsLatestEvent(log, f, k - 1, i);
    }
  }

  /** With no event at slot k, the latest event at or before k is also the
      latest at or before k - 1. */
  lemma LatestStepsBack(log: seq<Event>, f: Frequency, k: nat, i: int)
    requires k > 0
    requires forall j :: 0 <= j < |log| ==> Slot(log[j].time, f) != k
    requires LatestAtOrBefore(log, f, k, i)
    ensures LatestAtOrBefore(log, f, k - 1, i)
  {
  }

  /** A non-empty bucket at grid point k holds an event whose slot is k. */
  lemma SomeEventAtSlot(log: seq<Event>, f: Frequency, k: nat) returns (j: int)
    requires Bucket(log, f, GridTime(k, f)) != []
    ensures 0 <= j < |log| && Slot(log[j].time, f) == k
  {
    var x := Bucket(log, f, GridTime(k, f))[0];
    BucketFromLog(log, f, GridTime(k, f), x);
    j :| 0 <= j < |log| && RoundTime(log[j].time, f) == GridTime(k, f) && log[j].value == x.value;
    RoundTimeIsGridTime(log[j].time, f, k);
  }

  /** An empty bucket at grid point k means no event has slot k. */
  lemma NoEventAtSlot(log: seq<Event>, f: Frequency, k: nat)
    requires Bucket(log, f, GridTime(k, f)) == []
    ensures forall j :: 0 <= j < |log| ==> Slot(log[j].time, f) != k
  {
    forall j | 0 <= j < |log| ensures Slot(log[j].time, f) != k {
      if Slot(log[j].time, f) == k {
        RoundTimeIsGridTime(log[j].time, f, k);
        EventInBucket(log, f, GridTime(k, f), j);
      }
    }
  }

  /** When some event has slot k, the latest event at or before k is the
      last one of the bucket at grid point k. */
  lemma LatestIsLastOfBucket(log: seq<Event>, f: Frequency, k: nat, i: int, j0: int)
    requires 0 <= j0 < |log| && Slot(log[j0].time, f) == k
    requires LatestAtOrBefore(log, f, k, i)
    ensures ValueAt(log, f, k) == log[i].value
  {
    var key := GridTime(k, f);
    assert Slot(log[i].time, f) == k;
    RoundTimeIsGridTime(log[i].time, f, k);
    forall j | i < j < |log| ensures RoundTime(log[j].time, f) != key {
      RoundTimeIsGridTime(log[j].time, f, k);
    }
    LastEventWins(log, f, key, i);
  }

  /** The series invents no values: each sample is 0 or the value of some
      event of the log. */
  lemma {:induction false} SampleValueFromLog(log: seq<Event>, f: Frequency, k: nat)
    ensures ValueAt(log, f, k) == 0 || exists i :: 0 <= i < |log| && ValueAt(log, f, k) == log[i].value
  {
    var b := Bucket(log, f, GridTime(k, f));
    if b != [] {
      BucketFromLog(log, f, GridTime(k, f), b[|b| - 1]);
    } else if k > 0 {
      SampleValueFromLog(log, f, k - 1);
    }
  }

  /** `round(count / capacity, 2)`, as an integer percentage. */
  function Percent(count: int, capacity: nat): int
    requires capacity > 0
  {
    RoundHalfEven(100 * count, capacity)
  }

  /** The log `utilization_over_time` samples: every value replaced by its
      share of the capacity. */
  function UtilizationLog(log: seq<Event>, capacity: nat): seq<Event>
    requires capacity > 0
  {
    seq(|log|, i requires 0 <= i < |log| => Event(log[i].time, Percent(log[i].value, capacity), log[i].kind))
  }

  /** A count between 0 and the capacity is a percentage between 0 and 100. */
  lemma PercentWithinBounds(count: int, capacity: nat)
    requires capacity > 0 && 0 <= count <= capacity
    ensures 0 <= Percent(count, capacity) <= 100
  {
    var r := Percent(count, capacity);
    RoundHalfEvenIsNearest(100 * count, capacity);
    if r > 100 {
      MultiplyMonotone(101, r, capacity);
    } else if r < 0 {
      MultiplyMonotone(r, -1, capacity);
    }
  }

  lemma MultiplyMonotone(a: int, b: int, c: nat)
    requires a <= b
    ensures a * c <= b * c
  {
    assert b * c - a * c == (b - a) * c;
  }

  /** A utilization series stays within 0..100 percent when every logged
      count is between 0 and the capacity. */
  lemma UtilizationSeriesWithinBounds(log: seq<Event>, capacity: nat, f: Frequency, now: int)
    requires capacity > 0
    requires forall i :: 0 <= i < |log| ==> 0 <= log[i].value <= capacity
    ensures forall x :: x in Sampled(UtilizationLog(log, capacity), f, now) ==> 0 <= x <= 100
  {
    var u := UtilizationLog(log, capacity);
    forall x | x in Sampled(u, f, now) ensures 0 <= x <= 100 {
      var k :| 0 <= k < GridCount(now, f) && Sampled(u, f, now)[k] == x;
      SampleValueFromLog(u, f, k);
      if x != 0 {
        var i :| 0 <= i < |u| && x == u[i].value;
        PercentWithinBounds(log[i].value, capacity);
      }
    }
  }
}
