/** The spectrum view model (spectrum-view-model.js): binary search on the frequency axis, the
    min/max envelope drawn per pixel, the peak of a range, and the sample under the cursor. */
module Envelope {
  import opened Prelude
  import opened Division
  import opened FrequencyAxis

  /** A displayed frame; the adapter delivers as many powers as frequencies, in ascending order. */
  datatype Frame = Frame(frequencies: seq<real>, powers: seq<Power>)

  predicate Ascending(values: seq<real>) {
    forall i, j :: 0 <= i < j < |values| ==> values[i] <= values[j]
  }

  ghost predicate Proper(f: Frame) {
    |f.powers| == |f.frequencies| && Ascending(f.frequencies)
  }

  /** `k` separates the values below `target` from the others. */
  ghost predicate Separates(values: seq<real>, target: real, k: int) {
    && 0 <= k <= |values|
    && (forall i :: 0 <= i < k ==> values[i] < target)
    && (forall i :: k <= i < |values| ==> values[i] >= target)
  }

  /** The number of leading values below `target`. */
  function Position(values: seq<real>, target: real): (k: nat)
    ensures k <= |values|
  {
    if values != [] && values[0] < target then 1 + Position(values[1..], target) else 0
  }

  /** In ascending values only that position separates. */
  lemma {:induction false} PositionSeparates(values: seq<real>, target: real, k: nat)
    requires Ascending(values)
    ensures Separates(values, target, k) <==> k == Position(values, target)
    decreases |values|
  {
    if values != [] && values[0] < target {
      var rest := values[1..];
      assert Ascending(rest);
      if k > 0 {
        PositionSeparates(rest, target, k - 1);
        assert Separates(values, target, k) <==> Separates(rest, target, k - 1) by {
          assert forall i :: 0 <= i < |rest| ==> rest[i] == values[i + 1];
          assert forall i :: 0 < i < |values| ==> values[i] == rest[i - 1];
        }
      }
    }
  }

  method LowerBound(values: seq<real>, target: real) returns (low: nat)
    requires Ascending(values)
    ensures Separates(values, target, low) && low == Position(values, target)
  {
    low := 0;
    var high := |values|;
    while low < high
      invariant low <= high <= |values|
      invariant forall i :: 0 <= i < low ==> values[i] < target
      invariant forall i :: high <= i < |values| ==> values[i] >= target
    {
      var mid := (low + high) / 2;
      if values[mid] < target {
        low := mid + 1;
      } else {
        high := mid;
      }
    }
    PositionSeparates(values, target, low);
  }

  // --- Extreme samples of an index range ---

  ghost predicate AnyFinite(p: seq<Power>, first: nat, stop: nat)
    requires stop <= |p|
  {
    exists i :: first <= i < stop && p[i].Dbm?
  }

  /** `m` is the first of the largest finite samples in first..stop. */
  ghost predicate IsPeak(p: seq<Power>, first: nat, stop: nat, m: int)
    requires stop <= |p|
  {
    && first <= m < stop && p[m].Dbm?
    && (forall i :: first <= i < stop && p[i].Dbm? ==> p[i].value <= p[m].value)
    && (forall i :: first <= i < m && p[i].Dbm? ==> p[i].value < p[m].value)
  }

  /** `m` is the first of the smallest finite samples in first..stop. */
  ghost predicate IsFloor(p: seq<Power>, first: nat, stop: nat, m: int)
    requires stop <= |p|
  {
    && first <= m < stop && p[m].Dbm?
    && (forall i :: first <= i < stop && p[i].Dbm? ==> p[m].value <= p[i].value)
    && (forall i :: first <= i < m && p[i].Dbm? ==> p[m].value < p[i].value)
  }

  /** What the scanning loops compute, -1 when no sample is finite. */
  function PeakIndex(p: seq<Power>, first: nat, stop: nat): (m: int)
    requires first <= stop <= |p|
    ensures m == -1 <==> !AnyFinite(p, first, stop)
    ensures m != -1 ==> IsPeak(p, first, stop, m)
    decreases stop
  {
    if first == stop then -1
    else
      var m := PeakIndex(p, first, stop - 1);
      if p[stop - 1].Dbm? && (m < 0 || p[stop - 1].value > p[m].value) then stop - 1 else m
  }

  function FloorIndex(p: seq<Power>, first: nat, stop: nat): (m: int)
    requires first <= stop <= |p|
    ensures m == -1 <==> !AnyFinite(p, first, stop)
    ensures m != -1 ==> IsFloor(p, first, stop, m)
    decreases stop
  {
    if first == stop then -1
    else
      var m := FloorIndex(p, first, stop - 1);
      if p[stop - 1].Dbm? && (m < 0 || p[stop - 1].value < p[m].value) then stop - 1 else m
  }

  // --- Buckets ---

  /** The index at which bucket `b` of `k` begins, when `n` samples from `start` on are shared out. */
  function Edge(start: nat, n: nat, k: nat, b: nat): nat
    requires k > 0
  {
    start + n * b / k
  }

  lemma ShiftedQuotient(x: nat, k: nat, d: nat)
    requires k > 0 && d >= k
    ensures (x + d) / k >= x / k + 1
  {
    QuotientBound(x / k, x, k);
    QuotientBound(x / k + 1, x + d, k);
    assert (x / k + 1) * k == x / k * k + k;
  }

  /** Every bucket holds at least one sample, so the guard `max(first + 1, stop)` never matters. */
  lemma EdgesIncrease(start: nat, n: nat, k: nat, b: nat)
    requires 0 < k <= n
    ensures Edge(start, n, k, b) < Edge(start, n, k, b + 1)
  {
    assert n * (b + 1) == n * b + n;
    ShiftedQuotient(n * b, k, n);
  }

  /** The first bucket begins at `start` and the last one ends at `start + n`. */
  lemma EdgesSpan(start: nat, n: nat, k: nat)
    requires k > 0
    ensures Edge(start, n, k, 0) == start && Edge(start, n, k, k) == start + n
  {
    assert n * 0 == 0;
    QuotientIs(n * k, k, n);
  }

  lemma {:induction false} EdgesBounded(start: nat, n: nat, k: nat, b: nat)
    requires 0 < k <= n && b <= k
    ensures start <= Edge(start, n, k, b) <= start + n
    decreases k - b
  {
    EdgesSpan(start, n, k);
    if b < k {
      EdgesIncrease(start, n, k, b);
      EdgesBounded(start, n, k, b + 1);
    }
  }

  /** Partition: each index of the range lies in exactly one bucket. */
  lemma {:induction false} BucketOf(start: nat, n: nat, k: nat, i: nat, upTo: nat) returns (b: nat)
    requires 0 < k <= n && upTo <= k && start <= i < Edge(start, n, k, upTo)
    ensures b < upTo && Edge(start, n, k, b) <= i < Edge(start, n, k, b + 1)
    ensures forall c: nat :: c < upTo && Edge(start, n, k, c) <= i < Edge(start, n, k, c + 1) ==> c == b
    decreases upTo
  {
    EdgesSpan(start, n, k);
    if i >= Edge(start, n, k, upTo - 1) {
      b := upTo - 1;
      forall c: nat | c < upTo && Edge(start, n, k, c) <= i < Edge(start, n, k, c + 1)
        ensures c == b
      {
        if c < b {
          EdgesOrdered(start, n, k, c + 1, b);
        }
      }
    } else {
      b := BucketOf(start, n, k, i, upTo - 1);
    }
  }

  lemma {:induction false} EdgesOrdered(start: nat, n: nat, k: nat, b: nat, c: nat)
    requires 0 < k <= n && b <= c
    ensures Edge(start, n, k, b) <= Edge(start, n, k, c)
    decreases c - b
  {
    if b < c {
      EdgesIncrease(start, n, k, b);
      EdgesOrdered(start, n, k, b + 1, c);
    }
  }

  // --- The envelope ---

  /** The samples drawn for one bucket, in index order. */
  function BucketSamples(p: seq<Power>, first: nat, stop: nat): (s: seq<nat>)
    requires first <= stop <= |p|
    ensures |s| <= 2
  {
    var low, high := FloorIndex(p, first, stop), PeakIndex(p, first, stop);
    if low < 0 then []
    else if low == high then [low]
    else if low < high then [low, high]
    else [high, low]
  }

  function Samples(p: seq<Power>, start: nat, n: nat, k: nat, buckets: nat): seq<nat>
    requires 0 < k <= n && buckets <= k && start + n <= |p|
    decreases buckets
  {
    if buckets == 0 then []
    else
      EdgesBounded(start, n, k, buckets - 1);
      EdgesBounded(start, n, k, buckets);
      EdgesIncrease(start, n, k, buckets - 1);
      Samples(p, start, n, k, buckets - 1)
      + BucketSamples(p, Edge(start, n, k, buckets - 1), Edge(start, n, k, buckets))
  }

  datatype Point = Point(frequency: real, power: Power, index: nat)

  function PointAt(f: Frame, i: nat): Point
    requires i < |f.frequencies| && i < |f.powers|
  {
    Point(f.frequencies[i], f.powers[i], i)
  }

  /** The points of a list of sample indices. */
  ghost predicate Draws(f: Frame, points: seq<Point>, indices: seq<nat>)
    requires |f.powers| == |f.frequencies|
  {
    && |points| == |indices|
    && forall j :: 0 <= j < |points| ==> indices[j] < |f.frequencies| && points[j] == PointAt(f, indices[j])
  }

  function BucketCount(pixels: int, n: nat): nat
    requires pixels >= 1 && n > 0
  {
    Max(1, Min(pixels, n))
  }

  /** minMaxEnvelope; `upper` is the value of maxHz + Number.EPSILON. */
  method MinMaxEnvelope(f: Frame, minHz: real, upper: real, pixelCount: real)
    returns (points: seq<Point>)
    requires Proper(f)
    ensures var start, end := Position(f.frequencies, minHz), Position(f.frequencies, upper);
            if pixelCount < 1.0 || start >= end then points == []
            else
              Draws(f, points, Samples(f.powers, start, end - start, BucketCount(pixelCount.Floor, end - start),
                                       BucketCount(pixelCount.Floor, end - start)))
  {
    points := [];
    var start := LowerBound(f.frequencies, minHz);
    var end := LowerBound(f.frequencies, upper);
    if pixelCount < 1.0 || start >= end {
      return;
    }
    var n := end - start;
    points := DrawBuckets(f, start, n, BucketCount(pixelCount.Floor, n));
  }

  lemma SamplesStep(p: seq<Power>, start: nat, n: nat, k: nat, b: nat)
    requires 0 < k <= n && b < k && start + n <= |p|
    ensures Edge(start, n, k, b) < Edge(start, n, k, b + 1) <= |p|
    ensures Samples(p, start, n, k, b + 1)
            == Samples(p, start, n, k, b) + BucketSamples(p, Edge(start, n, k, b), Edge(start, n, k, b + 1))
  {
    EdgesBounded(start, n, k, b + 1);
    EdgesIncrease(start, n, k, b);
  }

  method DrawBuckets(f: Frame, start: nat, n: nat, k: nat) returns (points: seq<Point>)
    requires |f.powers| == |f.frequencies| && 0 < k <= n && start + n <= |f.powers|
    ensures Draws(f, points, Samples(f.powers, start, n, k, k))
  {
    points := [];
    for bucket := 0 to k
      invariant Draws(f, points, Samples(f.powers, start, n, k, bucket))
    {
      SamplesStep(f.powers, start, n, k, bucket);
      var first := Edge(start, n, k, bucket);
      var stop := Edge(start, n, k, bucket + 1);
      var drawn := DrawBucket(f, first, stop);
      DrawsTogether(f, points, Samples(f.powers, start, n, k, bucket), drawn, BucketSamples(f.powers, first, stop));
      points := points + drawn;
    }
  }

  lemma DrawsTogether(f: Frame, ps: seq<Point>, ks: seq<nat>, qs: seq<Point>, js: seq<nat>)
    requires |f.powers| == |f.frequencies| && Draws(f, ps, ks) && Draws(f, qs, js)
    ensures Draws(f, ps + qs, ks + js)
  {
  }

  method DrawBucket(f: Frame, first: nat, stop: nat) returns (points: seq<Point>)
    requires |f.powers| == |f.frequencies| && first < stop <= |f.powers|
    ensures Draws(f, points, BucketSamples(f.powers, first, stop))
  {
    var minIndex, maxIndex := -1, -1;
    for index := first to stop
      invariant minIndex == FloorIndex(f.powers, first, index)
      invariant maxIndex == PeakIndex(f.powers, first, index)
    {
      if f.powers[index].Dbm? {
        if minIndex < 0 || f.powers[index].value < f.powers[minIndex].value {
          minIndex := index;
        }
        if maxIndex < 0 || f.powers[index].value > f.powers[maxIndex].value {
          maxIndex := index;
        }
      }
    }
    if minIndex < 0 {
      return [];
    }
    if minIndex == maxIndex {
      return [PointAt(f, minIndex)];
    }
    if minIndex < maxIndex {
      return [PointAt(f, minIndex), PointAt(f, maxIndex)];
    }
    return [PointAt(f, maxIndex), PointAt(f, minIndex)];
  }

  /** peakInRange. */
  method PeakInRange(f: Frame, minHz: real, upper: real)
    returns (best: Option<Point>)
    requires Proper(f)
    ensures var start, end := Position(f.frequencies, minHz), Position(f.frequencies, upper);
            best == if start < end && PeakIndex(f.powers, start, end) >= 0
                    then Some(PointAt(f, PeakIndex(f.powers, start, end))) else None
  {
    var start := LowerBound(f.frequencies, minHz);
    var end := LowerBound(f.frequencies, upper);
    best := None;
    if start < end {
      for index := start to end
        invariant best == if PeakIndex(f.powers, start, index) >= 0
                          then Some(PointAt(f, PeakIndex(f.powers, start, index))) else None
      {
        if f.powers[index].Dbm? && (best.None? || f.powers[index].value > best.value.power.value) {
          best := Some(PointAt(f, index));
        }
      }
    }
  }

  // --- Properties of the envelope ---

  ghost predicate IncreasingWithin(s: seq<nat>, first: nat, stop: nat) {
    && (forall j :: 0 <= j < |s| ==> first <= s[j] < stop)
    && (forall i, j :: 0 <= i < j < |s| ==> s[i] < s[j])
  }

  lemma BucketSamplesIncrease(p: seq<Power>, first: nat, stop: nat)
    requires first <= stop <= |p|
    ensures IncreasingWithin(BucketSamples(p, first, stop), first, stop)
  {
  }

  lemma IncreasingTogether(s: seq<nat>, t: seq<nat>, a: nat, b: nat, c: nat)
    requires a <= b <= c && IncreasingWithin(s, a, b) && IncreasingWithin(t, b, c)
    ensures IncreasingWithin(s + t, a, c)
  {
  }

  /** Indices strictly increase, stay inside the range, and number at most two per bucket. */
  lemma {:induction false} SamplesIncrease(p: seq<Power>, start: nat, n: nat, k: nat, buckets: nat)
    requires 0 < k <= n && buckets <= k && start + n <= |p|
    ensures var s := Samples(p, start, n, k, buckets);
            |s| <= 2 * buckets && IncreasingWithin(s, start, Edge(start, n, k, buckets))
    decreases buckets
  {
    if buckets > 0 {
      EdgesBounded(start, n, k, buckets - 1);
      EdgesBounded(start, n, k, buckets);
      EdgesIncrease(start, n, k, buckets - 1);
      SamplesIncrease(p, start, n, k, buckets - 1);
      var first, stop := Edge(start, n, k, buckets - 1), Edge(start, n, k, buckets);
      BucketSamplesIncrease(p, first, stop);
      IncreasingTogether(Samples(p, start, n, k, buckets - 1), BucketSamples(p, first, stop), start, first, stop);
    }
  }

  lemma {:induction false} BucketIsDrawn(p: seq<Power>, start: nat, n: nat, k: nat, buckets: nat, b: nat)
    requires 0 < k <= n && b < buckets <= k && start + n <= |p|
    ensures Edge(start, n, k, b) < Edge(start, n, k, b + 1) <= |p|
    ensures forall i :: i in BucketSamples(p, Edge(start, n, k, b), Edge(start, n, k, b + 1)) ==>
              i in Samples(p, start, n, k, buckets)
    decreases buckets
  {
    EdgesIncrease(start, n, k, b);
    EdgesBounded(start, n, k, b + 1);
    if b < buckets - 1 {
      BucketIsDrawn(p, start, n, k, buckets - 1, b);
    }
  }

  lemma PeakIsUnique(p: seq<Power>, first: nat, stop: nat, a: int, b: int)
    requires stop <= |p| && IsPeak(p, first, stop, a) && IsPeak(p, first, stop, b)
    ensures a == b
  {
  }

  lemma FloorIsUnique(p: seq<Power>, first: nat, stop: nat, a: int, b: int)
    requires stop <= |p| && IsFloor(p, first, stop, a) && IsFloor(p, first, stop, b)
    ensures a == b
  {
  }

  /** Whatever the number of pixels, the envelope contains the very sample that peakInRange returns,
      and a smallest sample of the range. */
  lemma EnvelopeKeepsExtremes(p: seq<Power>, start: nat, n: nat, k: nat)
    requires 0 < k <= n && start + n <= |p| && AnyFinite(p, start, start + n)
    ensures PeakIndex(p, start, start + n) in Samples(p, start, n, k, k)
    ensures FloorIndex(p, start, start + n) in Samples(p, start, n, k, k)
  {
    var high, low := PeakIndex(p, start, start + n), FloorIndex(p, start, start + n);
    EdgesSpan(start, n, k);
    var b := BucketOf(start, n, k, high, k);
    PeakIsDrawn(p, start, n, k, b);
    var c := BucketOf(start, n, k, low, k);
    FloorIsDrawn(p, start, n, k, c);
  }

  /** Full resolution: there are as many columns as whole pixels, or one for each sample if that is fewer,
      and a finite sample that is the greatest or smallest of its column is drawn. */
  lemma EveryColumnIsDrawn(p: seq<Power>, start: nat, n: nat, pixels: nat, b: nat)
    requires pixels >= 1 && n > 0 && start + n <= |p|
    requires b < n && b < pixels
    ensures var columns, k := if pixels < n then pixels else n, BucketCount(pixels, n);
            && Edge(start, n, columns, b) < Edge(start, n, columns, b + 1) <= start + n
            && forall i :: i in BucketSamples(p, Edge(start, n, columns, b), Edge(start, n, columns, b + 1)) ==>
                 i in Samples(p, start, n, k, k)
  {
    var k := BucketCount(pixels, n);
    BucketIsDrawn(p, start, n, k, k, b);
    EdgesBounded(start, n, k, b + 1);
  }

  /** With a pixel for every sample, every finite sample is drawn. */
  lemma EverySampleIsDrawn(p: seq<Power>, start: nat, n: nat, pixels: nat, i: nat)
    requires 0 < n <= pixels && start + n <= |p| && start <= i < start + n && p[i].Dbm?
    ensures i in Samples(p, start, n, BucketCount(pixels, n), BucketCount(pixels, n))
  {
    var b := i - start;
    OneSampleColumns(start, n, b);
    OneSampleColumns(start, n, b + 1);
    OneSampleBucket(p, i);
    ColumnIsDrawn(p, start, n, pixels, b, i, i + 1, i);
  }

  lemma ColumnIsDrawn(p: seq<Power>, start: nat, n: nat, pixels: nat, b: nat, low: nat, high: nat, i: nat)
    requires 0 < n <= pixels && start + n <= |p| && b < n
    requires low == Edge(start, n, n, b) && high == Edge(start, n, n, b + 1) && low < high <= |p|
    requires i in BucketSamples(p, low, high)
    ensures i in Samples(p, start, n, BucketCount(pixels, n), BucketCount(pixels, n))
  {
    EveryColumnIsDrawn(p, start, n, pixels, b);
  }

  lemma OneSampleBucket(p: seq<Power>, i: nat)
    requires i < |p| && p[i].Dbm?
    ensures BucketSamples(p, i, i + 1) == [i]
  {
    assert AnyFinite(p, i, i + 1);
    assert PeakIndex(p, i, i + 1) == i && FloorIndex(p, i, i + 1) == i;
  }

  lemma OneSampleColumns(start: nat, n: nat, b: nat)
    requires n > 0 && b <= n
    ensures Edge(start, n, n, b) == start + b
  {
    assert n * b == b * n;
    QuotientIs(n * b, n, b);
  }

  lemma PeakIsDrawn(p: seq<Power>, start: nat, n: nat, k: nat, b: nat)
    requires 0 < k <= n && start + n <= |p| && AnyFinite(p, start, start + n) && b < k
    requires Edge(start, n, k, b) <= PeakIndex(p, start, start + n) < Edge(start, n, k, b + 1)
    ensures PeakIndex(p, start, start + n) in Samples(p, start, n, k, k)
  {
    var high, first, stop := PeakIndex(p, start, start + n), Edge(start, n, k, b), Edge(start, n, k, b + 1);
    BucketIsDrawn(p, start, n, k, k, b);
    EdgesBounded(start, n, k, b);
    EdgesBounded(start, n, k, b + 1);
    assert IsPeak(p, first, stop, high);
    PeakIsUnique(p, first, stop, high, PeakIndex(p, first, stop));
    assert high in BucketSamples(p, first, stop);
  }

  lemma FloorIsDrawn(p: seq<Power>, start: nat, n: nat, k: nat, b: nat)
    requires 0 < k <= n && start + n <= |p| && AnyFinite(p, start, start + n) && b < k
    requires Edge(start, n, k, b) <= FloorIndex(p, start, start + n) < Edge(start, n, k, b + 1)
    ensures FloorIndex(p, start, start + n) in Samples(p, start, n, k, k)
  {
    var low, first, stop := FloorIndex(p, start, start + n), Edge(start, n, k, b), Edge(start, n, k, b + 1);
    BucketIsDrawn(p, start, n, k, k, b);
    EdgesBounded(start, n, k, b);
    EdgesBounded(start, n, k, b + 1);
    assert IsFloor(p, first, stop, low);
    FloorIsUnique(p, first, stop, low, FloorIndex(p, first, stop));
    assert low in BucketSamples(p, first, stop);
  }

  // --- The sample under the cursor ---

  function Distance(a: real, b: real): (d: real)
    ensures d >= 0.0 && (d == a - b || d == b - a)
  {
    if a < b then b - a else a - b
  }

  /** Of two samples as near as each other, `selected` is the lower one, or the one closer to the cursor. */
  ghost predicate Preferred(f: Frame, frequency: real, selected: nat, i: nat)
    requires selected < |f.frequencies| && i < |f.frequencies|
  {
    var mine, other := f.frequencies[selected], f.frequencies[i];
    Distance(mine, frequency) == Distance(other, frequency) ==>
      mine <= other && (mine == other ==> if mine < frequency then i < selected else selected < i)
  }

  /** sampleNearest: no other sample is nearer, one as near lies higher, and of samples at one frequency
      the one next to the cursor is taken; None stands for NaN outside the axis. */
  method SampleNearest(f: Frame, frequency: real) returns (power: Option<Power>, ghost selected: nat)
    requires Proper(f)
    ensures power.Some? <==>
              f.frequencies != [] && f.frequencies[0] <= frequency <= f.frequencies[|f.frequencies| - 1]
    ensures power.Some? ==>
              && selected < |f.frequencies| && power.value == f.powers[selected]
              && forall i :: 0 <= i < |f.frequencies| ==>
                   Distance(f.frequencies[selected], frequency) <= Distance(f.frequencies[i], frequency)
    ensures power.Some? ==>
              forall i :: 0 <= i < |f.frequencies| && i != selected ==> Preferred(f, frequency, selected, i)
  {
    selected := 0;
    if f.frequencies == [] {
      return None, 0;
    }
    var last := |f.frequencies| - 1;
    if frequency < f.frequencies[0] || frequency > f.frequencies[last] {
      return None, 0;
    }
    var index := LowerBound(f.frequencies, frequency);
    var left := if index == 0 then 0 else index - 1;
    var right := Min(last, index);
    var chosen := if Distance(f.frequencies[left], frequency) <= Distance(f.frequencies[right], frequency)
                  then left else right;
    power, selected := Some(f.powers[chosen]), chosen;
  }
}
