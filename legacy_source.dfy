/** The legacy Source: a generator that draws inter-arrival delays (the
    first-creation override first, then the user's `interarrival_time`),
    counts them, names and registers each entity it builds, and stops once
    the count passes the requested number. The engine that resumes the
    generator and the user code behind `interarrival_time` and
    `build_entity` are outside the model: each resumption is one call of
    `NextEntity`, given the value `interarrival_time()` would return and the
    entity `build_entity()` would return. */
module LegacySource {
  import opened Common
  import opened LegacyTracking

  /** The decimal digit for d. */
  function DigitChar(d: nat): char
    requires d < 10
  {
    ['0', '1', '2', '3', '4', '5', '6', '7', '8', '9'][d]
  }

  predicate IsDigit(c: char) {
    '0' <= c <= '9'
  }

  /** `f"{n}"` for a natural number: its decimal digits, most significant
      first, with no leading zero. */
  function Decimal(n: nat): (s: string)
    ensures |s| >= 1
    ensures forall i :: 0 <= i < |s| ==> IsDigit(s[i])
    ensures |s| > 1 ==> s[0] != '0'
  {
    if n < 10 then [DigitChar(n)] else Decimal(n / 10) + [DigitChar(n % 10)]
  }

  /** The number a string of decimal digits denotes. */
  function DecimalValue(s: string): nat
    requires forall i :: 0 <= i < |s| ==> IsDigit(s[i])
  {
    if s == [] then 0
    else
      var last := s[|s| - 1];
      assert IsDigit(last);
      10 * DecimalValue(s[..|s| - 1]) + (last as int - '0' as int)
  }

  /** Reading the digits back gives the number, so distinct counts give
      distinct names. */
  lemma {:induction false} DecimalRoundTrip(n: nat)
    ensures DecimalValue(Decimal(n)) == n
  {
    var s := Decimal(n);
    var d := n % 10;
    assert DigitChar(d) as int - '0' as int == d by {
      assert d == 0 || d == 1 || d == 2 || d == 3 || d == 4 || d == 5 || d == 6 || d == 7 || d == 8 || d == 9;
    }
    if n >= 10 {
      DecimalRoundTrip(n / 10);
      assert s[..|s| - 1] == Decimal(n / 10);
      assert s[|s| - 1] == DigitChar(d);
      assert n == 10 * (n / 10) + d;
    }
  }

  /** `f"{entity.__class__.__name__} {count}"`. */
  function EntityName(className: string, count: nat): string {
    className + " " + Decimal(count)
  }

  /** Two entities of one class built at different counts get different
      names. */
  lemma EntityNamesDiffer(className: string, i: nat, j: nat)
    requires i != j
    ensures EntityName(className, i) != EntityName(className, j)
  {
    if EntityName(className, i) == EntityName(className, j) {
      var prefix := |className| + 1;
      assert Decimal(i) == EntityName(className, i)[prefix..];
      assert Decimal(j) == EntityName(className, j)[prefix..];
      DecimalRoundTrip(i);
      DecimalRoundTrip(j);
    }
  }

  /** The delays the generator hands out, given the values the user's
      `interarrival_time` returned: `first_creation` first when there is
      one, then those values in order. */
  function Delays(firstCreation: Option<int>, draws: seq<int>): (r: seq<int>)
    ensures |r| == |draws| + (if firstCreation.Some? then 1 else 0)
    ensures firstCreation.Some? ==> r[0] == firstCreation.value && r[1..] == draws
    ensures firstCreation.None? ==> r == draws
  {
    if firstCreation.Some? then [firstCreation.value] + draws else draws
  }

  /** Whether `count` has passed `number` (None stands for infinity). */
  predicate Passed(count: nat, number: Option<nat>) {
    number.Some? && count > number.value
  }

  class Source {
    const firstCreation: Option<int>
    const number: Option<nat>
    var count: nat
    /** The delay generator has not yet handed out `first_creation`. */
    var firstPending: bool
    /** The generator has stopped: a further resumption yields nothing. */
    var exhausted: bool
    /** The delays drawn so far, and the values `interarrival_time` gave. */
    ghost var drawn: seq<int>
    ghost var draws: seq<int>
    /** The entities yielded so far, in order. */
    ghost var emitted: seq<Entity>

    ghost predicate Valid()
      reads this
    {
      && (drawn == Delays(firstCreation, draws) || (firstCreation.Some? && draws == [] && drawn == []))
      && count == |drawn|
      && (firstPending <==> firstCreation.Some? && drawn == [])
      && |emitted| == count - (if exhausted then 1 else 0)
      && (exhausted <==> Passed(count, number))
      && (number.Some? ==> count <= number.value + 1)
    }

    constructor (firstCreation: Option<int>, number: Option<nat>)
      ensures this.firstCreation == firstCreation && this.number == number
      ensures count == 0 && !exhausted && emitted == [] && drawn == []
      ensures Valid()
    {
      this.firstCreation := firstCreation;
      this.number := number;
      count := 0;
      firstPending := firstCreation.Some?;
      exhausted := false;
      drawn := [];
      draws := [];
      emitted := [];
    }

    /** `__init__`: refused when the source class has no usable
        `interarrival_time` (the attribute is absent, so the `is None` guard
        raises `AttributeError`, or it is set to `None`, which raises
        `NotImplementedError`); otherwise the count starts at 0. */
    static method Create(hasInterarrival: bool, firstCreation: Option<int>, number: Option<nat>)
      returns (r: Result<Source>)
      ensures !hasInterarrival ==> r == Err(MissingInterarrival)
      ensures hasInterarrival ==>
                && r.Ok? && fresh(r.value) && r.value.Valid()
                && r.value.firstCreation == firstCreation && r.value.number == number
                && r.value.count == 0 && r.value.emitted == []
    {
      if !hasInterarrival {
        return Err(MissingInterarrival);
      }
      var s := new Source(firstCreation, number);
      return Ok(s);
    }

    /** One resumption of `next_entity`: take the next delay, count it, stop
        if the count has passed `number`, else stamp, name, type and register
        the entity and yield it with its delay. `draw` is what
        `interarrival_time()` returns if it is called; `built` is what
        `build_entity()` returns. */
    method NextEntity(stats: Stats, now: int, draw: int, built: Entity, className: string)
      returns (out: Option<(int, Entity)>)
      requires Valid()
      modifies this`count, this`firstPending, this`exhausted, this`drawn, this`draws, this`emitted
      modifies built`name, built`creationTime, built.attributes, stats`entities
      ensures Valid()
      ensures old(exhausted) ==>
                out == None && unchanged(this) && unchanged(built, built.attributes) && stats.entities == old(stats.entities)
      ensures !old(exhausted) ==>
                var delay := if old(firstPending) then firstCreation.value else draw;
                && drawn == old(drawn) + [delay]
                && count == old(count) + 1
                && (Passed(count, number) ==>
                      && out == None && exhausted && emitted == old(emitted) && stats.entities == old(stats.entities)
                      && unchanged(built, built.attributes))
                && (!Passed(count, number) ==>
                      && out == Some((delay, built))
                      && emitted == old(emitted) + [built]
                      && built.creationTime == Some(now + delay)
                      && built.name == Some(EntityName(className, count))
                      && built.attributes.entries == old(built.attributes.entries)["type" := ClassRef(className)]
                      && stats.entities == old(stats.entities) + [built])
      ensures |emitted| <= count
      ensures number.Some? ==> |emitted| <= number.value
    {
      if exhausted {
        return None;
      }
      var delay;
      if firstPending {
        delay := firstCreation.value;
        firstPending := false;
      } else {
        delay := draw;
        draws := draws + [draw];
      }
      drawn := drawn + [delay];
      count := count + 1;
      if number.Some? && count > number.value {
        exhausted := true;
        return None;
      }
      built.creationTime := Some(now + delay);
      built.name := Some(EntityName(className, count));
      built.attributes.entries := built.attributes.entries["type" := ClassRef(className)];
      stats.AddEntity(built);
      emitted := emitted + [built];
      out := Some((delay, built));
    }

    /** `get_build_count`. */
    method GetBuildCount() returns (r: nat)
      requires Valid()
      ensures r == |emitted| + (if exhausted then 1 else 0)
    {
      r := count;
    }

    /** `_initialize_stats`: a fresh registry becomes the current one. */
    static method InitializeStats(summary: Summary) returns (stats: Stats)
      modifies summary
      ensures fresh(stats) && summary.current == stats && stats.entities == [] && stats.resources == map[]
    {
      stats := new Stats(summary);
    }
  }

  /** With `number` 1 the source is resumed twice: the second resumption
      draws and counts a delay, then stops without building, so the build
      count reads 2 after one entity was built. */
  method BuildCountOvershoots() returns (built: nat, count: nat)
    ensures built == 1 && count == 2
  {
    var summary := new Summary();
    var stats := new Stats(summary);
    var source := new Source(None, Some(1));
    var first := new Entity.WithOwnAttributes(map[], None);
    var second := new Entity.WithOwnAttributes(map[], None);
    var _ := source.NextEntity(stats, 0, 5, first, "Customer");
    var _ := source.NextEntity(stats, 5, 5, second, "Customer");
    built := |stats.entities|;
    count := source.GetBuildCount();
  }

  /** The source as evidently intended: it stops before drawing once
      `number` entities are built, so the count is the number built. */
  class CappedSource {
    const firstCreation: Option<int>
    const number: Option<nat>
    var count: nat
    var firstPending: bool
    var exhausted: bool
    ghost var drawn: seq<int>
    ghost var emitted: seq<Entity>

    ghost predicate Valid()
      reads this
    {
      && count == |drawn| == |emitted|
      && (firstPending <==> firstCreation.Some? && drawn == [])
      && (firstCreation.Some? && drawn != [] ==> drawn[0] == firstCreation.value)
      && (number.Some? ==> count <= number.value)
      && (exhausted ==> number.Some? && count == number.value)
    }

    constructor (firstCreation: Option<int>, number: Option<nat>)
      ensures this.firstCreation == firstCreation && this.number == number
      ensures count == 0 && !exhausted && emitted == [] && drawn == []
      ensures Valid()
    {
      this.firstCreation := firstCreation;
      this.number := number;
      count := 0;
      firstPending := firstCreation.Some?;
      exhausted := false;
      drawn := [];
      emitted := [];
    }

    /** Stop before drawing when `number` entities are built; otherwise as
        `Source.NextEntity`. */
    method NextEntity(stats: Stats, now: int, draw: int, built: Entity, className: string)
      returns (out: Option<(int, Entity)>)
      requires Valid()
      modifies this`count, this`firstPending, this`exhausted, this`drawn, this`emitted
      modifies built`name, built`creationTime, built.attributes, stats`entities
      ensures Valid()
      ensures Passed(old(count) + 1, number) ==>
                out == None && exhausted && count == old(count) && emitted == old(emitted)
                && stats.entities == old(stats.entities) && unchanged(built, built.attributes)
      ensures !Passed(old(count) + 1, number) ==>
                var delay := if old(firstPending) then firstCreation.value else draw;
                && drawn == old(drawn) + [delay]
                && count == old(count) + 1
                && out == Some((delay, built))
                && emitted == old(emitted) + [built]
                && built.creationTime == Some(now + delay)
                && built.name == Some(EntityName(className, count))
                && built.attributes.entries == old(built.attributes.entries)["type" := ClassRef(className)]
                && stats.entities == old(stats.entities) + [built]
    {
      if number.Some? && count >= number.value {
        exhausted := true;
        return None;
      }
      var delay;
      if firstPending {
        delay := firstCreation.value;
        firstPending := false;
      } else {
        delay := draw;
      }
      drawn := drawn + [delay];
      count := count + 1;
      built.creationTime := Some(now + delay);
      built.name := Some(EntityName(className, count));
      built.attributes.entries := built.attributes.entries["type" := ClassRef(className)];
      stats.AddEntity(built);
      emitted := emitted + [built];
      out := Some((delay, built));
    }

    /** The build count is the number of entities built. */
    method GetBuildCount() returns (r: nat)
      requires Valid()
      ensures r == |emitted|
      ensures number.Some? ==> r <= number.value
    {
      r := count;
    }
  }

  /** The same two resumptions on the corrected source: one entity built,
      build count 1. */
  method CappedBuildCountExact() returns (built: nat, count: nat)
    ensures built == 1 && count == 1
  {
    var summary := new Summary();
    var stats := new Stats(summary);
    var source := new CappedSource(None, Some(1));
    var first := new Entity.WithOwnAttributes(map[], None);
    var second := new Entity.WithOwnAttributes(map[], None);
    var _ := source.NextEntity(stats, 0, 5, first, "Customer");
    var _ := source.NextEntity(stats, 5, 5, second, "Customer");
    built := |stats.entities|;
    count := source.GetBuildCount();
  }
}
