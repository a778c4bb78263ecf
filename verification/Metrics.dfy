/** Latency histograms: recording, cumulative readers, and both split into separate atomic steps. */
module Metrics {
  import opened Prelude

  const ARRIVAL_BOUNDARIES: seq<real> :=
    [5.0, 10.0, 20.0, 350.0, 380.0, 400.0, 420.0, 450.0, 500.0, 750.0, 780.0, 800.0, 820.0, 850.0, 1000.0]

  const ROUND_TRIP_BOUNDARIES: seq<real> :=
    [1.0, 2.0, 4.0, 7.0, 8.0, 9.0, 10.0, 15.0, 20.0, 50.0, 500.0]

  predicate Increasing(bounds: seq<real>) {
    forall i, j :: 0 <= i < j < |bounds| ==> bounds[i] < bounds[j]
  }

  lemma BoundariesIncrease()
    ensures |ARRIVAL_BOUNDARIES| == 15 && Increasing(ARRIVAL_BOUNDARIES)
    ensures |ROUND_TRIP_BOUNDARIES| == 11 && Increasing(ROUND_TRIP_BOUNDARIES)
    ensures ARRIVAL_BOUNDARIES[14] == 1000.0 && ROUND_TRIP_BOUNDARIES[10] == 500.0
  {
  }

  // ----- what the buckets should hold -----------------------------------------------------

  /** Number of observations at or below a bound. */
  function CountAtMost(seen: seq<real>, bound: real): (n: nat)
    ensures n <= |seen|
  {
    if seen == [] then 0
    else CountAtMost(seen[..|seen| - 1], bound) + (if seen[|seen| - 1] <= bound then 1 else 0)
  }

  /** Bucket i holds the observations above the previous bound and at most its own; the last
      bucket also holds everything above all bounds. */
  predicate Belongs(bounds: seq<real>, ms: real, i: nat)
    requires i < |bounds|
  {
    (i > 0 ==> ms > bounds[i - 1]) && (i < |bounds| - 1 ==> ms <= bounds[i])
  }

  function CountIn(seen: seq<real>, bounds: seq<real>, i: nat): nat
    requires i < |bounds|
  {
    if seen == [] then 0
    else CountIn(seen[..|seen| - 1], bounds, i) + (if Belongs(bounds, seen[|seen| - 1], i) then 1 else 0)
  }

  /** Sum of the first k bucket counts. */
  function Cumulative(seen: seq<real>, bounds: seq<real>, k: nat): nat
    requires k <= |bounds|
  {
    if k == 0 then 0 else Cumulative(seen, bounds, k - 1) + CountIn(seen, bounds, k - 1)
  }

  lemma {:induction false} CumulativeSnoc(seen: seq<real>, ms: real, bounds: seq<real>, k: nat)
    requires 0 < k <= |bounds| && Increasing(bounds)
    ensures Cumulative(seen + [ms], bounds, k)
         == Cumulative(seen, bounds, k) + (if k == |bounds| || ms <= bounds[k - 1] then 1 else 0)
  {
    assert (seen + [ms])[..|seen|] == seen;
    if k > 1 {
      CumulativeSnoc(seen, ms, bounds, k - 1);
    } else {
      assert Cumulative(seen + [ms], bounds, 0) == Cumulative(seen, bounds, 0) == 0;
    }
  }

  /** The cumulative count of every bucket but the last is the number of observations at most
      its bound, and that of the last is the number of observations. */
  lemma {:induction false} CumulativeCounts(seen: seq<real>, bounds: seq<real>, k: nat)
    requires 0 < k <= |bounds| && Increasing(bounds)
    ensures Cumulative(seen, bounds, k) == if k == |bounds| then |seen| else CountAtMost(seen, bounds[k - 1])
    decreases |seen|
  {
    if seen == [] {
      EmptyCumulative(bounds, k);
    } else {
      var init := seen[..|seen| - 1];
      CumulativeCounts(init, bounds, k);
      CumulativeSnoc(init, seen[|seen| - 1], bounds, k);
      assert init + [seen[|seen| - 1]] == seen;
    }
  }

  /** The counts a cumulative reader exposes never decrease from one bound to the next. */
  lemma {:induction false} CountAtMostMonotone(seen: seq<real>, low: real, high: real)
    requires low <= high
    ensures CountAtMost(seen, low) <= CountAtMost(seen, high) <= |seen|
  {
    if seen != [] {
      CountAtMostMonotone(seen[..|seen| - 1], low, high);
    }
  }

  lemma EmptyCumulative(bounds: seq<real>, k: nat)
    requires k <= |bounds|
    ensures Cumulative([], bounds, k) == 0
  {
  }

  /** What the two exposed tables count, bound by bound, whatever was observed. */
  lemma ArrivalTable(seen: seq<real>, k: nat)
    requires 0 < k <= 15
    ensures Cumulative(seen, ARRIVAL_BOUNDARIES, k)
         == match k
            case 1 => CountAtMost(seen, 5.0)
            case 2 => CountAtMost(seen, 10.0)
            case 3 => CountAtMost(seen, 20.0)
            case 4 => CountAtMost(seen, 350.0)
            case 5 => CountAtMost(seen, 380.0)
            case 6 => CountAtMost(seen, 400.0)
            case 7 => CountAtMost(seen, 420.0)
            case 8 => CountAtMost(seen, 450.0)
            case 9 => CountAtMost(seen, 500.0)
            case 10 => CountAtMost(seen, 750.0)
            case 11 => CountAtMost(seen, 780.0)
            case 12 => CountAtMost(seen, 800.0)
            case 13 => CountAtMost(seen, 820.0)
            case 14 => CountAtMost(seen, 850.0)
            case _ => |seen|
  {
    BoundariesIncrease();
    CumulativeCounts(seen, ARRIVAL_BOUNDARIES, k);
    hide Cumulative, CountAtMost;
  }

  lemma RoundTripTable(seen: seq<real>, k: nat)
    requires 0 < k <= 11
    ensures Cumulative(seen, ROUND_TRIP_BOUNDARIES, k)
         == match k
            case 1 => CountAtMost(seen, 1.0)
            case 2 => CountAtMost(seen, 2.0)
            case 3 => CountAtMost(seen, 4.0)
            case 4 => CountAtMost(seen, 7.0)
            case 5 => CountAtMost(seen, 8.0)
            case 6 => CountAtMost(seen, 9.0)
            case 7 => CountAtMost(seen, 10.0)
            case 8 => CountAtMost(seen, 15.0)
            case 9 => CountAtMost(seen, 20.0)
            case 10 => CountAtMost(seen, 50.0)
            case _ => |seen|
  {
    BoundariesIncrease();
    CumulativeCounts(seen, ROUND_TRIP_BOUNDARIES, k);
    hide Cumulative, CountAtMost;
  }

  /** Sum of the latencies as the histogram accumulates them. */
  function SumMicros(micros: real -> nat, seen: seq<real>): nat {
    if seen == [] then 0 else SumMicros(micros, seen[..|seen| - 1]) + micros(seen[|seen| - 1])
  }

  function Total(seen: seq<real>): real {
    if seen == [] then 0.0 else Total(seen[..|seen| - 1]) + seen[|seen| - 1]
  }

  /** The conversion of milliseconds to an unsigned number of microseconds rounds down; what it
      makes of a negative is up to the processor. */
  ghost predicate RoundsDown(micros: real -> nat) {
    forall ms :: ms >= 0.0 ==> micros(ms) == (ms * 1000.0).Floor
  }

  /** The accumulated sum of n non-negative latencies falls short of the true sum by less than one
      microsecond each. */
  lemma {:induction false} SumShort(micros: real -> nat, seen: seq<real>)
    requires RoundsDown(micros) && forall i :: 0 <= i < |seen| ==> seen[i] >= 0.0
    ensures SumMicros(micros, seen) as real <= 1000.0 * Total(seen) <= (SumMicros(micros, seen) + |seen|) as real
    ensures seen != [] ==> 1000.0 * Total(seen) < (SumMicros(micros, seen) + |seen|) as real
  {
    if seen != [] {
      SumShort(micros, seen[..|seen| - 1]);
      var ms := seen[|seen| - 1];
      assert micros(ms) as real <= ms * 1000.0 < (micros(ms) + 1) as real;
    }
  }

  // ----- the histogram ------------------------------------------------------------------------

  class Histogram {
    const boundaries: seq<real>
    const micros: real -> nat
    var sum: nat
    const buckets: array<nat>
    var count: nat
    ghost var seen: seq<real>

    ghost predicate Valid()
      reads this, buckets
    {
      && |boundaries| > 0 && Increasing(boundaries)
      && buckets.Length == |boundaries|
      && count == |seen| && sum == SumMicros(micros, seen)
      && forall i :: 0 <= i < |boundaries| ==> buckets[i] == CountIn(seen, boundaries, i)
    }

    constructor (boundaries: seq<real>, micros: real -> nat)
      requires |boundaries| > 0 && Increasing(boundaries)
      ensures Valid() && fresh(buckets) && this.boundaries == boundaries && this.micros == micros && seen == []
    {
      this.boundaries, this.micros := boundaries, micros;
      sum := 0;
      buckets := new nat[|boundaries|](_ => 0);
      count := 0;
      seen := [];
    }

    /** One more observation; no other observation moves. */
    method Record(ms: real)
      requires Valid()
      modifies this, buckets
      ensures Valid() && seen == old(seen) + [ms]
    {
      sum := sum + micros(ms);
      count := count + 1;
      seen := seen + [ms];
      assert seen[..|seen| - 1] == old(seen);
      for i := 0 to |boundaries|
        invariant count == |seen| && seen == old(seen) + [ms] && sum == SumMicros(micros, seen)
        invariant forall j :: 0 <= j < i ==> ms > boundaries[j]
        invariant forall j :: 0 <= j < |boundaries| ==> buckets[j] == old(buckets[j])
      {
        if ms <= boundaries[i] {
          buckets[i] := buckets[i] + 1;
          return;
        }
      }
      buckets[|boundaries| - 1] := buckets[|boundaries| - 1] + 1; // overflow
    }

    /** Cumulative counts keyed by upper bound, the total, and the sum in milliseconds. */
    method CumulativeBuckets() returns (cumulative: map<real, nat>, total: nat, sumMs: real)
      requires Valid()
      ensures total == |seen| && sumMs == SumMicros(micros, seen) as real / 1000.0
      ensures forall b :: b in cumulative <==> b in boundaries
      ensures forall i :: 0 <= i < |boundaries| ==>
        boundaries[i] in cumulative &&
        cumulative[boundaries[i]] == if i == |boundaries| - 1 then total else CountAtMost(seen, boundaries[i])
    {
      hide SumMicros, CountAtMost, CountIn;
      total := count;
      sumMs := sum as real / 1000.0;
      cumulative := map[];
      var running := 0;
      for i := 0 to |boundaries|
        invariant running == Cumulative(seen, boundaries, i)
        invariant forall b :: b in cumulative <==> b in boundaries[..i]
        invariant forall j :: 0 <= j < i ==>
          boundaries[j] in cumulative && cumulative[boundaries[j]] == Cumulative(seen, boundaries, j + 1)
      {
        running := running + buckets[i];
        cumulative := cumulative[boundaries[i] := running];
      }
      assert boundaries[..|boundaries|] == boundaries;
      ExposedCounts(cumulative, seen, boundaries);
    }
  }

  lemma ExposedCounts(cumulative: map<real, nat>, seen: seq<real>, bounds: seq<real>)
    requires Increasing(bounds)
    requires forall j :: 0 <= j < |bounds| ==>
               bounds[j] in cumulative && cumulative[bounds[j]] == Cumulative(seen, bounds, j + 1)
    ensures forall i :: 0 <= i < |bounds| ==>
              cumulative[bounds[i]] == if i == |bounds| - 1 then |seen| else CountAtMost(seen, bounds[i])
  {
    hide Cumulative, CountAtMost, Increasing;
    forall i | 0 <= i < |bounds|
      ensures cumulative[bounds[i]] == if i == |bounds| - 1 then |seen| else CountAtMost(seen, bounds[i])
    {
      CumulativeCounts(seen, bounds, i + 1);
    }
  }

  // ----- recording and reading as separate atomic steps -----------------------------------------------

  /** A reader that has loaded the count and the first `next` buckets. The books: goroutines between
      their two adds when it loaded the count, the adds to the count and to a bucket since, and
      those of the latter that it has still seen. */
  datatype Reader =
    | Away
    | Reading(total: nat, next: nat, running: nat, inFlight: nat, counts: nat, adds: nat, late: nat)

  /** Counters while several goroutines record: `counted` holds the observations whose count has
      been added and whose bucket has not; `seen` those whose bucket has. */
  datatype Recording = Recording(
    count: nat,
    buckets: seq<nat>,
    counted: multiset<real>,
    seen: seq<real>,
    reader: Reader)

  datatype RecordStep = AddCount(ms: real) | AddBucket(ms: real) | LoadCount | LoadBucket

  /** The bucket a recording goroutine picks. */
  function Slot(bounds: seq<real>, ms: real, from: nat): (i: nat)
    requires from < |bounds|
    ensures from <= i < |bounds|
    decreases |bounds| - from
  {
    if ms <= bounds[from] || from == |bounds| - 1 then from else Slot(bounds, ms, from + 1)
  }

  function CountSeen(reader: Reader): Reader {
    if reader.Away? then Away else reader.(counts := reader.counts + 1)
  }

  function BucketSeen(reader: Reader, i: nat): Reader {
    if reader.Away? then Away
    else reader.(adds := reader.adds + 1, late := if i >= reader.next then reader.late + 1 else reader.late)
  }

  function DoRecord(bounds: seq<real>, r: Recording, step: RecordStep): Option<Recording>
    requires |bounds| > 0
  {
    match step
    case AddCount(ms) =>
      Some(r.(count := r.count + 1, counted := r.counted + multiset{ms}, reader := CountSeen(r.reader)))
    case AddBucket(ms) =>
      var i := Slot(bounds, ms, 0);
      if ms !in r.counted || i >= |r.buckets| then None
      else Some(r.(buckets := r.buckets[i := r.buckets[i] + 1],
                   counted := r.counted - multiset{ms},
                   seen := r.seen + [ms],
                   reader := BucketSeen(r.reader, i)))
    case LoadCount => Some(r.(reader := Reading(r.count, 0, 0, |r.counted|, 0, 0, 0)))
    case LoadBucket =>
      if r.reader.Away? || r.reader.next >= |r.buckets| then None
      else
        var running := r.reader.running + r.buckets[r.reader.next];
        Some(r.(reader := r.reader.(next := r.reader.next + 1, running := running)))
  }

  /** Runs the steps taken so far: a goroutine adds to its bucket only after adding to the count; the
      reader loads the count and then the buckets in order. */
  function RunRecording(bounds: seq<real>, steps: seq<RecordStep>): Option<Recording>
    requires |bounds| > 0
  {
    if steps == [] then Some(Recording(0, seq(|bounds|, _ => 0), multiset{}, [], Away))
    else
      match RunRecording(bounds, steps[..|steps| - 1])
      case None => None
      case Some(r) => DoRecord(bounds, r, steps[|steps| - 1])
  }

  function SumFrom(s: seq<nat>, k: nat): nat
    requires k <= |s|
    decreases |s| - k
  {
    if k == |s| then 0 else s[k] + SumFrom(s, k + 1)
  }

  function Sum(s: seq<nat>): nat {
    SumFrom(s, 0)
  }

  lemma {:induction false} SumUpdate(s: seq<nat>, i: nat, k: nat)
    requires i < |s| && k <= |s|
    ensures SumFrom(s[i := s[i] + 1], k) == SumFrom(s, k) + (if i >= k then 1 else 0)
    decreases |s| - k
  {
    if k < |s| {
      SumUpdate(s, i, k + 1);
    }
  }

  lemma {:induction false} SumZeros(n: nat, k: nat)
    requires k <= n
    ensures SumFrom(seq(n, _ => 0), k) == 0
    decreases n - k
  {
    if k < n {
      SumZeros(n, k + 1);
    }
  }

  lemma SlotBelongs(bounds: seq<real>, ms: real, from: nat)
    requires from < |bounds| && Increasing(bounds)
    requires from > 0 ==> ms > bounds[from - 1]
    ensures Belongs(bounds, ms, Slot(bounds, ms, from))
    ensures forall i :: 0 <= i < |bounds| ==> (Belongs(bounds, ms, i) <==> i == Slot(bounds, ms, from))
    decreases |bounds| - from
  {
    if ms <= bounds[from] || from == |bounds| - 1 {
    } else {
      SlotBelongs(bounds, ms, from + 1);
    }
  }

  ghost predicate Tallied(bounds: seq<real>, r: Recording) {
    && |r.buckets| == |bounds|
    && r.count == Sum(r.buckets) + |r.counted|
    && (forall i :: 0 <= i < |bounds| ==> r.buckets[i] == CountIn(r.seen, bounds, i))
  }

  /** What the reader has summed and what it has still to load make up the total it loaded, less the
      goroutines then between their adds, plus the adds it comes in time to see. */
  ghost predicate ReaderTallied(r: Recording) {
    r.reader.Reading? ==>
      && r.reader.next <= |r.buckets|
      && r.reader.running + SumFrom(r.buckets, r.reader.next) + r.reader.inFlight == r.reader.total + r.reader.late
      && r.reader.inFlight + r.reader.counts == |r.counted| + r.reader.adds
      && r.reader.late <= r.reader.adds
  }

  lemma RecordKeeps(bounds: seq<real>, r: Recording, step: RecordStep)
    requires |bounds| > 0 && Increasing(bounds) && Tallied(bounds, r) && DoRecord(bounds, r, step).Some?
    ensures Tallied(bounds, DoRecord(bounds, r, step).value)
  {
    if step.AddBucket? {
      SlotBelongs(bounds, step.ms, 0);
      SumUpdate(r.buckets, Slot(bounds, step.ms, 0), 0);
      assert (r.seen + [step.ms])[..|r.seen|] == r.seen;
    }
    hide Slot, Belongs;
  }

  lemma ReaderKeeps(bounds: seq<real>, r: Recording, step: RecordStep)
    requires |bounds| > 0 && ReaderTallied(r) && DoRecord(bounds, r, step).Some?
    requires r.count == Sum(r.buckets) + |r.counted|
    ensures ReaderTallied(DoRecord(bounds, r, step).value)
  {
    if step.AddBucket? && r.reader.Reading? {
      SumUpdate(r.buckets, Slot(bounds, step.ms, 0), r.reader.next);
    }
    hide Slot;
  }

  lemma {:induction false} RecordingTallied(bounds: seq<real>, steps: seq<RecordStep>)
    requires |bounds| > 0 && Increasing(bounds) && RunRecording(bounds, steps).Some?
    ensures Tallied(bounds, RunRecording(bounds, steps).value) && ReaderTallied(RunRecording(bounds, steps).value)
    decreases |steps|
  {
    if steps == [] {
      SumZeros(|bounds|, 0);
    } else {
      RecordingTallied(bounds, steps[..|steps| - 1]);
      RecordKeeps(bounds, RunRecording(bounds, steps[..|steps| - 1]).value, steps[|steps| - 1]);
      ReaderKeeps(bounds, RunRecording(bounds, steps[..|steps| - 1]).value, steps[|steps| - 1]);
    }
  }

  /** At every point of every interleaving the count exceeds the bucket sum by exactly the
      goroutines between their two adds, so the bucket sum never exceeds the count; and each
      bucket holds exactly the finished observations that belong to it. */
  lemma RecordingInvariant(bounds: seq<real>, steps: seq<RecordStep>)
    requires |bounds| > 0 && Increasing(bounds) && RunRecording(bounds, steps).Some?
    ensures var r := RunRecording(bounds, steps).value;
            && r.count == Sum(r.buckets) + |r.counted|
            && |r.buckets| == |bounds|
            && (forall i :: 0 <= i < |bounds| ==> r.buckets[i] == CountIn(r.seen, bounds, i))
  {
    RecordingTallied(bounds, steps);
  }

  /** A reader that loads the count and then every bucket while goroutines record exposes a last
      cumulative bucket that differs from the exposed total by exactly the bucket adds it came in
      time to see less the goroutines between their adds when it loaded the count: below the total
      by at most the latter, above it by at most the observations begun since. */
  lemma ReaderDrift(bounds: seq<real>, steps: seq<RecordStep>)
    requires |bounds| > 0 && Increasing(bounds) && RunRecording(bounds, steps).Some?
    requires var reader := RunRecording(bounds, steps).value.reader; reader.Reading? && reader.next == |bounds|
    ensures var reader := RunRecording(bounds, steps).value.reader;
            && reader.running - reader.total == reader.late - reader.inFlight
            && reader.total - reader.inFlight <= reader.running <= reader.total + reader.counts
            && (reader.running > reader.total <==> reader.late > reader.inFlight)
  {
    RecordingTallied(bounds, steps);
  }

  lemma OneMore(bounds: seq<real>, steps: seq<RecordStep>, r: Recording, step: RecordStep)
    requires |bounds| > 0 && RunRecording(bounds, steps) == Some(r)
    ensures RunRecording(bounds, steps + [step]) == DoRecord(bounds, r, step)
  {
    assert (steps + [step])[..|steps|] == steps;
  }

  /** It can be above: the count is loaded, one observation is recorded, the bucket is loaded. */
  lemma LastBucketAboveTotal(ms: real) returns (steps: seq<RecordStep>)
    ensures RunRecording([1.0], steps).Some?
    ensures var reader := RunRecording([1.0], steps).value.reader;
            reader.Reading? && reader.next == 1 && reader.total == 0 && reader.running == 1
  {
    var zeros: seq<nat> := seq(1, _ => 0);
    var r0 := Recording(0, zeros, multiset{}, [], Away);
    var r1 := r0.(reader := Reading(0, 0, 0, 0, 0, 0, 0));
    var r2 := DoRecord([1.0], r1, AddCount(ms)).value;
    var r3 := DoRecord([1.0], r2, AddBucket(ms)).value;
    assert RunRecording([1.0], []) == Some(r0);
    hide RunRecording;
    OneMore([1.0], [], r0, LoadCount);
    OneMore([1.0], [] + [LoadCount], r1, AddCount(ms));
    OneMore([1.0], [] + [LoadCount] + [AddCount(ms)], r2, AddBucket(ms));
    steps := [] + [LoadCount] + [AddCount(ms)] + [AddBucket(ms)];
    OneMore([1.0], steps, r3, LoadBucket);
    steps := steps + [LoadBucket];
  }
}
