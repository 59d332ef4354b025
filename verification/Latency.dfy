// The latency matrix: adaptive bucket bounds, bucket ranges and percentiles
// (internal/manager/latency/monitor.go:126-258,
// internal/manager/store/store.go:529-537, 619-629). Bucket sizes are exact
// rationals here.
module Latency {
  import opened Basics
  import opened Sorting

  datatype Sample = Sample(payload: int, latency: int)
  datatype HourlyStat = HourlyStat(minPayload: int, maxPayload: int)
  datatype Range = Range(low: int, high: int)   // a high of 0 or less is no bound
  datatype BucketStats = BucketStats(range: Range, count: nat, p50: int, p95: int, p99: int)

  /* Bounds. */

  // Half away from zero.
  function Round(x: real): int {
    if x >= 0.0 then (x + 0.5).Floor else -(-x + 0.5).Floor
  }

  function BucketSize(spread: int, count: int): real
    requires count > 0
  {
    spread as real / count as real
  }

  // The exact end of the first i buckets.
  function Cut(size: real, i: int): real {
    size * i as real
  }

  // The bounds between buckets; none when there is not enough spread.
  ghost predicate BoundsOf(bounds: seq<int>, low: int, high: int, count: int) {
    if count <= 1 || high <= low then bounds == []
    else
      && |bounds| == count - 1
      && forall i :: 0 <= i < |bounds| ==> bounds[i] == low + Round(Cut(BucketSize(high - low, count), i + 1))
  }

  method ComputeBoundsFromRange(low: int, high: int, count: int) returns (bounds: seq<int>)
    ensures BoundsOf(bounds, low, high, count)
  {
    if count <= 1 || high <= low {
      return [];
    }
    var bucketSize := BucketSize(high - low, count);
    var cells := new int[count - 1];
    for i := 0 to count - 1
      invariant forall j :: 0 <= j < i ==> cells[j] == low + Round(Cut(bucketSize, j + 1))
    {
      cells[i] := low + Round(bucketSize * (i + 1) as real);
    }
    return cells[..];
  }

  function SumMin(stats: seq<HourlyStat>): int {
    if stats == [] then 0 else SumMin(stats[..|stats| - 1]) + stats[|stats| - 1].minPayload
  }

  lemma {:induction false} SumsAdd(a: seq<HourlyStat>, b: seq<HourlyStat>)
    ensures SumMin(a + b) == SumMin(a) + SumMin(b) && SumMax(a + b) == SumMax(a) + SumMax(b)
    decreases |b|
  {
    if b == [] {
      assert a + b == a;
    } else {
      assert (a + b)[..|a + b| - 1] == a + b[..|b| - 1];
      SumsAdd(a, b[..|b| - 1]);
    }
  }

  lemma SumsOfOne(h: HourlyStat)
    ensures SumMin([h]) == h.minPayload && SumMax([h]) == h.maxPayload
  {
    assert [h][..0] == [] && SumMin([]) == 0 && SumMax([]) == 0;
  }

  function SumMax(stats: seq<HourlyStat>): int {
    if stats == [] then 0 else SumMax(stats[..|stats| - 1]) + stats[|stats| - 1].maxPayload
  }

  method ComputeBounds(stats: seq<HourlyStat>, count: int) returns (bounds: seq<int>)
    ensures stats == [] ==> bounds == []
    ensures stats != [] ==>
      BoundsOf(bounds, Quotient(SumMin(stats), |stats|), Quotient(SumMax(stats), |stats|), count)
  {
    if stats == [] || count <= 1 {
      return [];
    }
    var sumMin, sumMax := 0, 0;
    for i := 0 to |stats|
      invariant sumMin == SumMin(stats[..i]) && sumMax == SumMax(stats[..i])
    {
      assert stats[..i + 1][..i] == stats[..i];
      sumMin, sumMax := sumMin + stats[i].minPayload, sumMax + stats[i].maxPayload;
    }
    assert stats[..|stats|] == stats;
    bounds := ComputeBoundsFromRange(Quotient(sumMin, |stats|), Quotient(sumMax, |stats|), count);
  }

  lemma CutStep(size: real, i: int, j: int)
    requires size >= 0.0 && i <= j
    ensures Cut(size, i) <= Cut(size, j) && Cut(size, j) - Cut(size, i) == Cut(size, j - i)
  {
    assert size * j as real - size * i as real == size * (j as real - i as real);
  }

  lemma LastCut(spread: int, count: int)
    requires count > 0
    ensures Cut(BucketSize(spread, count), count) == spread as real
  {
  }

  lemma RoundNear(x: real)
    requires x >= 0.0
    ensures Round(x) as real - 0.5 <= x < Round(x) as real + 0.5
  {
  }

  lemma RoundMonotone(x: real, y: real)
    requires 0.0 <= x <= y
    ensures Round(x) <= Round(y)
  {
  }

  lemma SizePositive(spread: int, count: int)
    requires spread > 0 && count > 0
    ensures BucketSize(spread, count) > 0.0
  {
  }

  // The exact position of the i-th bound.
  function CutAt(low: int, high: int, count: int, i: int): real
    requires count > 0
  {
    low as real + Cut(BucketSize(high - low, count), i + 1)
  }

  lemma BoundsAscend(bounds: seq<int>, low: int, high: int, count: int)
    requires BoundsOf(bounds, low, high, count)
    ensures Ascending(bounds)
  {
    forall i, j | 0 <= i <= j < |bounds| ensures bounds[i] <= bounds[j] {
      var size := BucketSize(high - low, count);
      SizePositive(high - low, count);
      CutStep(size, 0, i + 1);
      CutStep(size, i + 1, j + 1);
      RoundMonotone(Cut(size, i + 1), Cut(size, j + 1));
    }
  }

  lemma BoundsWithin(bounds: seq<int>, low: int, high: int, count: int, i: nat)
    requires BoundsOf(bounds, low, high, count) && i < |bounds|
    ensures low <= bounds[i] <= high
  {
    var size := BucketSize(high - low, count);
    SizePositive(high - low, count);
    CutStep(size, 0, i + 1);
    CutStep(size, i + 1, count);
    LastCut(high - low, count);
    RoundMonotone(0.0, Cut(size, i + 1));
    RoundMonotone(Cut(size, i + 1), (high - low) as real);
  }

  // Each bound is the integer nearest to its cut point; halves go up.
  lemma BoundsNearCuts(bounds: seq<int>, low: int, high: int, count: int, i: nat)
    requires BoundsOf(bounds, low, high, count) && i < |bounds|
    ensures bounds[i] as real - 0.5 <= CutAt(low, high, count, i) < bounds[i] as real + 0.5
  {
    var size := BucketSize(high - low, count);
    SizePositive(high - low, count);
    CutStep(size, 0, i + 1);
    RoundNear(Cut(size, i + 1));
  }

  lemma WidthNear(bounds: seq<int>, low: int, high: int, count: int, i: nat)
    requires BoundsOf(bounds, low, high, count) && i + 1 < |bounds|
    ensures BucketSize(high - low, count) - 1.0 < (bounds[i + 1] - bounds[i]) as real
    ensures (bounds[i + 1] - bounds[i]) as real < BucketSize(high - low, count) + 1.0
  {
    var size := BucketSize(high - low, count);
    BoundsNearCuts(bounds, low, high, count, i);
    BoundsNearCuts(bounds, low, high, count, i + 1);
    SizePositive(high - low, count);
    CutStep(size, i + 1, i + 2);
  }

  // No two interior buckets differ by more than 1 in width.
  lemma WidthsAreEven(bounds: seq<int>, low: int, high: int, count: int, i: nat, j: nat)
    requires BoundsOf(bounds, low, high, count) && i + 1 < |bounds| && j + 1 < |bounds|
    ensures -1 <= (bounds[i + 1] - bounds[i]) - (bounds[j + 1] - bounds[j]) <= 1
  {
    WidthNear(bounds, low, high, count, i);
    WidthNear(bounds, low, high, count, j);
  }

  // When the first bound is a real bound, in terms of the arguments.
  lemma FirstBoundPositive(bounds: seq<int>, low: int, high: int, count: int)
    requires BoundsOf(bounds, low, high, count) && bounds != [] && low >= 0
    ensures bounds[0] >= 1 <==> low >= 1 || 2 * (high - low) >= count
  {
    var size := BucketSize(high - low, count);
    SizePositive(high - low, count);
    HalfSize(high - low, count);
    RoundNear(size);
    RoundMonotone(0.0, size);
    assert Cut(size, 1) == size;
  }

  lemma HalfSize(spread: int, count: int)
    requires count > 0
    ensures BucketSize(spread, count) >= 0.5 <==> 2 * spread >= count
  {
    var size := BucketSize(spread, count);
    assert size * count as real == spread as real;
    if size >= 0.5 {
      assert (size - 0.5) * count as real >= 0.0;
    } else {
      assert (0.5 - size) * count as real > 0.0;
    }
  }

  /* Ranges. */

  function Buckets(bounds: seq<int>): nat {
    if bounds == [] then 1 else |bounds| + 1
  }

  function RangeOf(bounds: seq<int>, i: nat): Range {
    if i == 0 then Range(0, if bounds != [] then bounds[0] else 0)
    else if i < |bounds| then Range(bounds[i - 1], bounds[i])
    else Range(if bounds != [] then bounds[|bounds| - 1] else 0, 0)
  }

  // The WHERE clause of the range query.
  predicate Contains(r: Range, payload: int) {
    payload >= r.low && (r.high > 0 ==> payload < r.high)
  }

  // How many of the first k buckets contain a payload.
  function Hits(bounds: seq<int>, k: nat, payload: int): nat {
    if k == 0 then 0
    else Hits(bounds, k - 1, payload) + if Contains(RangeOf(bounds, k - 1), payload) then 1 else 0
  }

  // Every non-negative payload is in exactly one bucket.
  ghost predicate Partition(bounds: seq<int>) {
    forall p: nat :: Hits(bounds, Buckets(bounds), p) == 1
  }

  lemma {:induction false} FirstHits(bounds: seq<int>, k: nat, p: nat)
    requires Ascending(bounds) && 0 < k <= |bounds| && bounds[0] >= 1
    ensures Hits(bounds, k, p) == if p < bounds[k - 1] then 1 else 0
  {
    if k == 1 {
      assert Hits(bounds, 0, p) == 0;
    } else {
      FirstHits(bounds, k - 1, p);
      assert bounds[0] <= bounds[k - 2] <= bounds[k - 1];
    }
  }

  lemma {:induction false} FirstHitsWithoutBound(bounds: seq<int>, k: nat, p: nat)
    requires Ascending(bounds) && 0 < k <= |bounds| && bounds[0] <= 0
    ensures Hits(bounds, k, p) >= if p < bounds[k - 1] then 2 else 1
  {
    if k == 1 {
      assert Hits(bounds, 0, p) == 0;
    } else {
      FirstHitsWithoutBound(bounds, k - 1, p);
      assert bounds[k - 2] <= bounds[k - 1];
    }
  }

  lemma OneBucket(bounds: seq<int>, p: nat)
    requires Ascending(bounds) && (bounds == [] || bounds[0] >= 1)
    ensures Hits(bounds, Buckets(bounds), p) == 1
  {
    if bounds == [] {
      assert Hits(bounds, 0, p) == 0;
    } else {
      FirstHits(bounds, |bounds|, p);
    }
  }

  // A first bound of 0 is read as no bound, so the first bucket holds everything.
  lemma TwoBuckets(bounds: seq<int>, p: nat)
    requires Ascending(bounds) && bounds != [] && bounds[0] <= 0
    ensures Hits(bounds, Buckets(bounds), p) >= 2
  {
    FirstHitsWithoutBound(bounds, |bounds|, p);
  }

  lemma PartitionIff(bounds: seq<int>)
    requires Ascending(bounds)
    ensures Partition(bounds) <==> bounds == [] || bounds[0] >= 1
  {
    if bounds == [] || bounds[0] >= 1 {
      forall p: nat ensures Hits(bounds, Buckets(bounds), p) == 1 { OneBucket(bounds, p); }
    } else {
      TwoBuckets(bounds, 0);
    }
  }

  /* Counts. */

  function InRange(samples: seq<Sample>, r: Range): seq<Sample> {
    if samples == [] then []
    else
      InRange(samples[..|samples| - 1], r)
      + if Contains(r, samples[|samples| - 1].payload) then [samples[|samples| - 1]] else []
  }

  // The counts of the first k buckets together.
  function Counted(bounds: seq<int>, k: nat, samples: seq<Sample>): nat {
    if k == 0 then 0 else Counted(bounds, k - 1, samples) + |InRange(samples, RangeOf(bounds, k - 1))|
  }

  lemma {:induction false} NoneCounted(bounds: seq<int>, k: nat)
    ensures Counted(bounds, k, []) == 0
  {
    if k > 0 { NoneCounted(bounds, k - 1); }
  }

  // One more sample is counted once for each bucket that contains it.
  lemma {:induction false} CountedSnoc(bounds: seq<int>, k: nat, samples: seq<Sample>, x: Sample)
    ensures Counted(bounds, k, samples + [x]) == Counted(bounds, k, samples) + Hits(bounds, k, x.payload)
  {
    if k > 0 {
      CountedSnoc(bounds, k - 1, samples, x);
      assert (samples + [x])[..|samples|] == samples;
    }
  }

  // The bucket counts sum to the number of samples, when the first bound is one.
  lemma {:induction false} CountsSum(bounds: seq<int>, samples: seq<Sample>)
    requires Ascending(bounds) && (bounds == [] || bounds[0] >= 1)
    requires forall s :: s in samples ==> s.payload >= 0
    ensures Counted(bounds, Buckets(bounds), samples) == |samples|
  {
    if samples == [] {
      NoneCounted(bounds, Buckets(bounds));
    } else {
      var rest, x := samples[..|samples| - 1], samples[|samples| - 1];
      assert samples == rest + [x];
      CountsSum(bounds, rest);
      CountedSnoc(bounds, Buckets(bounds), rest, x);
      OneBucket(bounds, x.payload);
    }
  }

  // Otherwise every sample is counted at least twice.
  lemma {:induction false} CountsDouble(bounds: seq<int>, samples: seq<Sample>)
    requires Ascending(bounds) && bounds != [] && bounds[0] <= 0
    requires forall s :: s in samples ==> s.payload >= 0
    ensures Counted(bounds, Buckets(bounds), samples) >= 2 * |samples|
  {
    if samples != [] {
      var rest, x := samples[..|samples| - 1], samples[|samples| - 1];
      assert samples == rest + [x];
      CountsDouble(bounds, rest);
      CountedSnoc(bounds, Buckets(bounds), rest, x);
      TwoBuckets(bounds, x.payload);
    }
  }

  /* Percentiles. */

  function Index(n: nat, pct: nat): nat
    requires n > 0
  {
    if n * pct / 100 >= n then n - 1 else n * pct / 100
  }

  function Percentile(sorted: seq<int>, pct: nat): int {
    if sorted == [] then 0 else sorted[Index(|sorted|, pct)]
  }

  function AtMost(s: seq<int>, v: int): nat {
    if s == [] then 0 else AtMost(s[..|s| - 1], v) + if s[|s| - 1] <= v then 1 else 0
  }

  function AtLeast(s: seq<int>, v: int): nat {
    if s == [] then 0 else AtLeast(s[..|s| - 1], v) + if s[|s| - 1] >= v then 1 else 0
  }

  lemma {:induction false} RankConcat(s: seq<int>, t: seq<int>, v: int)
    ensures AtMost(s + t, v) == AtMost(s, v) + AtMost(t, v)
    ensures AtLeast(s + t, v) == AtLeast(s, v) + AtLeast(t, v)
    decreases |t|
  {
    if t == [] {
      assert s + t == s;
    } else {
      assert (s + t)[..|s + t| - 1] == s + t[..|t| - 1];
      RankConcat(s, t[..|t| - 1], v);
    }
  }

  lemma {:induction false} AllAtMost(s: seq<int>, v: int)
    requires forall i :: 0 <= i < |s| ==> s[i] <= v
    ensures AtMost(s, v) == |s|
  {
    if s != [] { AllAtMost(s[..|s| - 1], v); }
  }

  lemma {:induction false} AllAtLeast(s: seq<int>, v: int)
    requires forall i :: 0 <= i < |s| ==> s[i] >= v
    ensures AtLeast(s, v) == |s|
  {
    if s != [] { AllAtLeast(s[..|s| - 1], v); }
  }

  lemma InsertedRank(s: seq<int>, x: int, v: int)
    requires Ascending(s)
    ensures AtMost(Inserted(s, x), v) == AtMost(s, v) + AtMost([x], v)
    ensures AtLeast(Inserted(s, x), v) == AtLeast(s, v) + AtLeast([x], v)
  {
    var low, high := s[..Place(s, x)], s[Place(s, x)..];
    assert s == low + high;
    RankConcat(low, high, v);
    RankConcat(low, [x], v);
    RankConcat(low + [x], high, v);
  }

  lemma {:induction false} SortedRank(s: seq<int>, v: int)
    ensures AtMost(Sorted(s), v) == AtMost(s, v) && AtLeast(Sorted(s), v) == AtLeast(s, v)
  {
    if s != [] {
      var rest, x := s[..|s| - 1], s[|s| - 1];
      assert s == rest + [x];
      RankConcat(rest, [x], v);
      SortedRank(rest, v);
      InsertedRank(Sorted(rest), x, v);
    }
  }

  lemma RankAtMost(s: seq<int>, i: nat)
    requires i < |s| && forall k :: 0 <= k <= i ==> s[k] <= s[i]
    ensures AtMost(s, s[i]) >= i + 1
  {
    var low, high := s[..i + 1], s[i + 1..];
    AllAtMost(low, s[i]);
    RankConcat(low, high, s[i]);
    assert s == low + high;
  }

  lemma RankAtLeast(s: seq<int>, i: nat)
    requires i < |s| && forall k :: i <= k < |s| ==> s[k] >= s[i]
    ensures AtLeast(s, s[i]) >= |s| - i
  {
    var low, high := s[..i], s[i..];
    AllAtLeast(high, s[i]);
    RankConcat(low, high, s[i]);
    assert s == low + high;
  }

  lemma RankAt(s: seq<int>, i: nat)
    requires Ascending(s) && i < |s|
    ensures AtMost(s, s[i]) >= i + 1 && AtLeast(s, s[i]) >= |s| - i
  {
    RankAtMost(s, i);
    RankAtLeast(s, i);
  }

  // The reported value has its rank among the latencies as they came.
  lemma PercentileRank(latencies: seq<int>, pct: nat)
    requires latencies != []
    ensures Percentile(Sorted(latencies), pct) in latencies
    ensures AtMost(latencies, Percentile(Sorted(latencies), pct)) >= Index(|latencies|, pct) + 1
    ensures AtLeast(latencies, Percentile(Sorted(latencies), pct)) >= |latencies| - Index(|latencies|, pct)
  {
    var s := Sorted(latencies);
    var v := Percentile(s, pct);
    RankAt(s, Index(|s|, pct));
    SortedRank(latencies, v);
    SortedPermutes(latencies);
    assert v in multiset(s);
    assert v in multiset(latencies);
  }

  lemma Scales(n: nat, p: nat, q: nat)
    requires p <= q
    ensures n * p <= n * q
  {
  }

  lemma HundredthMonotone(a: nat, b: nat)
    requires a <= b
    ensures a / 100 <= b / 100
  {
  }

  lemma IndexMonotone(n: nat, p: nat, q: nat)
    requires n > 0 && p <= q
    ensures Index(n, p) <= Index(n, q)
  {
    Scales(n, p, q);
    HundredthMonotone(n * p, n * q);
  }

  lemma PercentilesAscend(sorted: seq<int>, p: nat, q: nat)
    requires Ascending(sorted) && p <= q
    ensures Percentile(sorted, p) <= Percentile(sorted, q)
  {
    if sorted != [] { IndexMonotone(|sorted|, p, q); }
  }

  /* The matrix. */

  function Latencies(samples: seq<Sample>): (r: seq<int>)
    ensures |r| == |samples| && forall i :: 0 <= i < |r| ==> r[i] == samples[i].latency
  {
    seq(|samples|, i requires 0 <= i < |samples| => samples[i].latency)
  }

  function StatsOf(samples: seq<Sample>, r: Range): BucketStats {
    var found := InRange(samples, r);
    var sorted := Sorted(Latencies(found));
    BucketStats(r, |found|, Percentile(sorted, 50), Percentile(sorted, 95), Percentile(sorted, 99))
  }

  // v is the nearest-rank percentile: a latency with more than k of them at or below it
  // and |latencies| - k at or above it, where k is pct percent of their number.
  ghost predicate IsPercentile(latencies: seq<int>, pct: nat, v: int) {
    exists k: nat ::
      && 100 * k <= |latencies| * pct < 100 * k + 100
      && v in latencies && AtMost(latencies, v) > k && AtLeast(latencies, v) >= |latencies| - k
  }

  lemma PercentileIs(latencies: seq<int>, pct: nat)
    requires latencies != [] && pct < 100
    ensures IsPercentile(latencies, pct, Percentile(Sorted(latencies), pct))
  {
    var n, k := |latencies|, |latencies| * pct / 100;
    PercentileRank(latencies, pct);
    assert 100 * k <= n * pct < 100 * k + 100;
    Below(n, pct);
    assert Index(n, pct) == k;
  }

  lemma Below(n: nat, pct: nat)
    requires n > 0 && pct < 100
    ensures n * pct / 100 < n
  {
    assert n * pct < n * 100;
  }

  // A row in terms of the samples in its range.
  ghost predicate IsRow(row: BucketStats, samples: seq<Sample>, low: int, high: int) {
    var found := Latencies(InRange(samples, Range(low, high)));
    && row.range == Range(low, high) && row.count == |found|
    && (found != [] ==> IsPercentile(found, 50, row.p50) && IsPercentile(found, 95, row.p95)
                        && IsPercentile(found, 99, row.p99))
    && (found == [] ==> row.p50 == row.p95 == row.p99 == 0)
  }

  lemma StatsAreRow(samples: seq<Sample>, r: Range)
    ensures IsRow(StatsOf(samples, r), samples, r.low, r.high)
  {
    var found := Latencies(InRange(samples, r));
    if found != [] {
      PercentileIs(found, 50);
      PercentileIs(found, 95);
      PercentileIs(found, 99);
    } else {
      assert |Sorted(found)| == 0;
    }
  }

  // What is in a range, and in the order of the samples.
  lemma {:induction false} InRangeIs(samples: seq<Sample>, r: Range, x: Sample)
    ensures multiset(InRange(samples, r))[x]
         == if x.payload >= r.low && (r.high > 0 ==> x.payload < r.high) then multiset(samples)[x] else 0
  {
    if samples != [] {
      InRangeIs(samples[..|samples| - 1], r, x);
      assert samples == samples[..|samples| - 1] + [samples[|samples| - 1]];
    }
  }

  lemma StatsAreOrdered(samples: seq<Sample>, r: Range)
    ensures StatsOf(samples, r).p50 <= StatsOf(samples, r).p95 <= StatsOf(samples, r).p99
  {
    var sorted := Sorted(Latencies(InRange(samples, r)));
    PercentilesAscend(sorted, 50, 95);
    PercentilesAscend(sorted, 95, 99);
  }

  // Row i has the statistics of the samples in range i.
  ghost predicate RowsOf(matrix: seq<BucketStats>, bounds: seq<int>, samples: seq<Sample>) {
    forall i :: 0 <= i < |matrix| ==> matrix[i] == StatsOf(samples, RangeOf(bounds, i))
  }

  function Total(matrix: seq<BucketStats>): nat {
    if matrix == [] then 0 else Total(matrix[..|matrix| - 1]) + matrix[|matrix| - 1].count
  }

  lemma {:induction false} RowsTotal(matrix: seq<BucketStats>, bounds: seq<int>, samples: seq<Sample>)
    requires RowsOf(matrix, bounds, samples)
    ensures Total(matrix) == Counted(bounds, |matrix|, samples)
  {
    if matrix != [] { RowsTotal(matrix[..|matrix| - 1], bounds, samples); }
  }

  // The smallest and the largest payload; zeroes without samples.
  ghost predicate IsPayloadRange(samples: seq<Sample>, low: int, high: int) {
    if samples == [] then low == 0 && high == 0
    else
      && (exists s :: s in samples && low == s.payload)
      && (exists s :: s in samples && high == s.payload)
      && forall s :: s in samples ==> low <= s.payload <= high
  }

  method PayloadRange(samples: seq<Sample>) returns (low: int, high: int)
    ensures IsPayloadRange(samples, low, high)
  {
    if samples == [] {
      return 0, 0;
    }
    var s, t := samples[0], samples[0];
    for i := 0 to |samples|
      invariant s in samples && t in samples
      invariant forall j :: 0 <= j < i ==> s.payload <= samples[j].payload <= t.payload
    {
      if samples[i].payload < s.payload { s := samples[i]; }
      if samples[i].payload > t.payload { t := samples[i]; }
    }
    return s.payload, t.payload;
  }

  // The averages of the hourly extremes give the bounds, else the samples do.
  ghost predicate Chosen(bounds: seq<int>, stats: seq<HourlyStat>, samples: seq<Sample>, bucketCount: int) {
    if stats != [] then
      BoundsOf(bounds, Quotient(SumMin(stats), |stats|), Quotient(SumMax(stats), |stats|), bucketCount)
    else
      exists low, high :: IsPayloadRange(samples, low, high) && BoundsOf(bounds, low, high, bucketCount)
  }

  lemma {:induction false} SumMinAtLeast(stats: seq<HourlyStat>)
    requires forall h :: h in stats ==> h.minPayload >= 1
    ensures SumMin(stats) >= |stats|
  {
    if stats != [] { SumMinAtLeast(stats[..|stats| - 1]); }
  }

  // No payload is empty.
  predicate NoneEmpty(stats: seq<HourlyStat>, samples: seq<Sample>) {
    (forall h :: h in stats ==> h.minPayload >= 1) && forall s :: s in samples ==> s.payload >= 1
  }

  // Then the first of the bounds that are chosen is a real bound.
  lemma ChosenPositive(bounds: seq<int>, stats: seq<HourlyStat>, samples: seq<Sample>, bucketCount: int)
    requires Chosen(bounds, stats, samples, bucketCount) && NoneEmpty(stats, samples)
    ensures bounds == [] || bounds[0] >= 1
  {
    if bounds != [] {
      if stats != [] {
        SumMinAtLeast(stats);
        FirstBoundPositive(bounds, Quotient(SumMin(stats), |stats|), Quotient(SumMax(stats), |stats|), bucketCount);
      } else {
        var low, high :| IsPayloadRange(samples, low, high) && BoundsOf(bounds, low, high, bucketCount);
        FirstBoundPositive(bounds, low, high, bucketCount);
      }
    }
  }

  method ChooseBounds(stats: seq<HourlyStat>, samples: seq<Sample>, bucketCount: int) returns (bounds: seq<int>)
    ensures Ascending(bounds) && (bounds != [] ==> |bounds| == bucketCount - 1)
    ensures Chosen(bounds, stats, samples, bucketCount)
  {
    if stats != [] {
      bounds := ComputeBounds(stats, bucketCount);
      BoundsAscend(bounds, Quotient(SumMin(stats), |stats|), Quotient(SumMax(stats), |stats|), bucketCount);
    } else {
      var low, high := PayloadRange(samples);
      bounds := ComputeBoundsFromRange(low, high, bucketCount);
      BoundsAscend(bounds, low, high, bucketCount);
    }
  }

  method BucketRange(bounds: seq<int>, i: nat) returns (r: Range)
    ensures r == RangeOf(bounds, i)
  {
    var low, high := 0, 0;
    if i == 0 {
      if |bounds| > 0 {
        high := bounds[0];
      }
    } else if i < |bounds| {
      low, high := bounds[i - 1], bounds[i];
    } else if |bounds| > 0 {
      low := bounds[|bounds| - 1];
    }
    return Range(low, high);
  }

  method FillMatrix(bounds: seq<int>, effectiveBuckets: nat, samples: seq<Sample>)
    returns (matrix: seq<BucketStats>)
    ensures |matrix| == effectiveBuckets && RowsOf(matrix, bounds, samples)
  {
    matrix := [];
    for i := 0 to effectiveBuckets
      invariant |matrix| == i && RowsOf(matrix, bounds, samples)
    {
      var r := BucketRange(bounds, i);
      matrix := matrix + [StatsOf(samples, r)];
    }
  }

  // The samples are those of the role within the window, at one moment. Their
  // buckets partition them exactly when the first bound, if any, is at least 1.
  method ComputeRoleMatrix(stats: seq<HourlyStat>, samples: seq<Sample>, bucketCount: int)
    returns (bounds: seq<int>, matrix: seq<BucketStats>)
    requires forall s :: s in samples ==> s.payload >= 0
    ensures Ascending(bounds) && (bounds != [] ==> |bounds| == bucketCount - 1)
    ensures Chosen(bounds, stats, samples, bucketCount)
    ensures |matrix| == Buckets(bounds) && RowsOf(matrix, bounds, samples)
    ensures forall i :: 0 <= i < |matrix| ==>
      IsRow(matrix[i], samples, RangeOf(bounds, i).low, RangeOf(bounds, i).high)
    ensures forall i :: 0 <= i < |matrix| ==> matrix[i].p50 <= matrix[i].p95 <= matrix[i].p99
    ensures if bounds == [] || bounds[0] >= 1 then Total(matrix) == |samples| else Total(matrix) >= 2 * |samples|
    ensures NoneEmpty(stats, samples) ==> Total(matrix) == |samples|
  {
    bounds := ChooseBounds(stats, samples, bucketCount);
    matrix := FillMatrix(bounds, if bounds == [] then 1 else bucketCount, samples);
    RowsTotal(matrix, bounds, samples);
    if bounds == [] || bounds[0] >= 1 {
      CountsSum(bounds, samples);
    } else {
      CountsDouble(bounds, samples);
    }
    if NoneEmpty(stats, samples) { ChosenPositive(bounds, stats, samples, bucketCount); }
    forall i | 0 <= i < |matrix|
      ensures IsRow(matrix[i], samples, RangeOf(bounds, i).low, RangeOf(bounds, i).high)
      ensures matrix[i].p50 <= matrix[i].p95 <= matrix[i].p99
    {
      StatsAreRow(samples, RangeOf(bounds, i));
      StatsAreOrdered(samples, RangeOf(bounds, i));
    }
  }
}
