/** Latency summaries with nearest-rank percentiles (src/driver/latency.rs). Milliseconds are reals. */
module Latency {
  import opened Sorting

  datatype LatencySummary = LatencySummary(
    count: nat, minMs: real, meanMs: real, p50Ms: real, p90Ms: real, p95Ms: real, p99Ms: real, maxMs: real)

  const EMPTY_SUMMARY := LatencySummary(0, 0.0, 0.0, 0.0, 0.0, 0.0, 0.0, 0.0)

  const ITSELF: real -> real := (x: real) => x

  function Ascending(samples: seq<real>): (sorted: seq<real>)
    ensures |sorted| == |samples|
  {
    SortLength(samples, ITSELF);
    SortBy(samples, ITSELF)
  }

  function Sum(xs: seq<real>): real {
    if xs == [] then 0.0 else Sum(xs[..|xs| - 1]) + xs[|xs| - 1]
  }

  function Ceil(x: real): (c: int)
    ensures x <= c as real < x + 1.0
  {
    -((-x).Floor)
  }

  /** The zero-based position of the rank reached by `scaled` = percentile * length. */
  function RankIndex(length: nat, scaled: real): (index: nat)
    requires length > 0
    ensures index < length
    ensures 0.0 < scaled <= length as real ==> index + 1 == Ceil(scaled)
  {
    var rank := Ceil(scaled);
    var below := if rank <= 0 then 0 else rank - 1;
    if below <= length - 1 then below else length - 1
  }

  function Scaled(length: nat, percentile: real): real { percentile * length as real }

  function NearestRankIndex(length: nat, percentile: real): (index: nat)
    requires length > 0
    ensures index < length
  {
    RankIndex(length, Scaled(length, percentile))
  }

  function PercentileNearestRank(sorted: seq<real>, percentile: real): real
    requires sorted != []
  {
    sorted[NearestRankIndex(|sorted|, percentile)]
  }

  function Summarize(samples: seq<real>): LatencySummary {
    if samples == [] then EMPTY_SUMMARY
    else
      var sorted := Ascending(samples);
      LatencySummary(
        |sorted|, sorted[0], Sum(sorted) / |sorted| as real,
        PercentileNearestRank(sorted, 0.50), PercentileNearestRank(sorted, 0.90),
        PercentileNearestRank(sorted, 0.95), PercentileNearestRank(sorted, 0.99),
        sorted[|sorted| - 1])
  }

  method FromSamples(samples: seq<real>) returns (summary: LatencySummary)
    ensures summary == Summarize(samples)
    ensures samples == [] ==> summary == LatencySummary(0, 0.0, 0.0, 0.0, 0.0, 0.0, 0.0, 0.0)
  {
    if samples == [] {
      return EMPTY_SUMMARY;
    }
    var sorted := Ascending(samples);
    var sum := 0.0;
    for i := 0 to |sorted|
      invariant sum == Sum(sorted[..i])
    {
      assert sorted[..i + 1][..i] == sorted[..i];
      sum := sum + sorted[i];
    }
    assert sorted[..|sorted|] == sorted;
    summary := LatencySummary(
      |sorted|, sorted[0], sum / |sorted| as real,
      PercentileNearestRank(sorted, 0.50), PercentileNearestRank(sorted, 0.90),
      PercentileNearestRank(sorted, 0.95), PercentileNearestRank(sorted, 0.99),
      sorted[|sorted| - 1]);
  }

  // ------------------------------------------------------------ what a percentile means

  function AtMost(v: real): real -> bool { (x: real) => x <= v }

  function LessThan(v: real): real -> bool { (x: real) => x < v }

  /** `v` is a sample, at least `rank` samples are at most `v`, and fewer than `rank` are below it. */
  ghost predicate IsNearestRank(samples: seq<real>, rank: nat, v: real) {
    v in samples && Count(samples, LessThan(v)) < rank <= Count(samples, AtMost(v))
  }

  lemma AscendingAt(samples: seq<real>, i: nat, j: nat)
    requires i <= j < |samples|
    ensures Ascending(samples)[i] <= Ascending(samples)[j]
  {
    SortOrder(samples, ITSELF);
    SortedAt(Ascending(samples), ITSELF, i, j);
  }

  lemma FrontAtMost(samples: seq<real>, index: nat)
    requires index < |samples|
    ensures Count(Ascending(samples)[..index + 1], AtMost(Ascending(samples)[index])) == index + 1
  {
    hide Ascending, Count;
    var front, v := Ascending(samples)[..index + 1], Ascending(samples)[index];
    forall i | 0 <= i < |front| ensures AtMost(v)(front[i]) {
      AscendingAt(samples, i, index);
    }
    CountAll(front, AtMost(v));
  }

  lemma BackNotBelow(samples: seq<real>, index: nat)
    requires index < |samples|
    ensures Count(Ascending(samples)[index..], LessThan(Ascending(samples)[index])) == 0
  {
    hide Ascending, Count;
    var back, v := Ascending(samples)[index..], Ascending(samples)[index];
    forall i | 0 <= i < |back| ensures !LessThan(v)(back[i]) {
      AscendingAt(samples, index, index + i);
    }
    CountNone(back, LessThan(v));
  }

  lemma EnoughAtMost(samples: seq<real>, index: nat)
    requires index < |samples|
    ensures Count(samples, AtMost(Ascending(samples)[index])) >= index + 1
  {
    hide SortBy, Count, AtMost;
    var sorted := Ascending(samples);
    var v := sorted[index];
    CountOfSort(samples, ITSELF, AtMost(v));
    assert sorted == sorted[..index + 1] + sorted[index + 1..];
    CountSplits(sorted[..index + 1], sorted[index + 1..], AtMost(v));
    FrontAtMost(samples, index);
  }

  lemma FewBelow(samples: seq<real>, index: nat)
    requires index < |samples|
    ensures Count(samples, LessThan(Ascending(samples)[index])) <= index
  {
    hide SortBy, Count, LessThan;
    var sorted := Ascending(samples);
    var v := sorted[index];
    CountOfSort(samples, ITSELF, LessThan(v));
    assert sorted == sorted[..index] + sorted[index..];
    CountSplits(sorted[..index], sorted[index..], LessThan(v));
    BackNotBelow(samples, index);
  }

  lemma OrderStatistic(samples: seq<real>, index: nat)
    requires index < |samples|
    ensures IsNearestRank(samples, index + 1, Ascending(samples)[index])
  {
    SortLength(samples, ITSELF);
    EnoughAtMost(samples, index);
    FewBelow(samples, index);
  }

  lemma ScaledBounds(length: nat, p: real)
    requires 0.0 < p <= 1.0 && length > 0
    ensures 0.0 < Scaled(length, p) <= length as real
  {
    ProductMonotone(p, 1.0, length as real);
  }

  lemma ProductMonotone(p: real, q: real, n: real)
    requires p <= q && n >= 0.0
    ensures p * n <= q * n
  {
    var d := q - p;
    assert d * n >= 0.0;
    assert q * n == (p + d) * n == p * n + d * n;
  }

  /** For a percentile in (0, 1] the computed value is the nearest-rank percentile. */
  lemma PercentileIsNearestRank(samples: seq<real>, percentile: real)
    requires samples != [] && 0.0 < percentile <= 1.0
    ensures Ceil(percentile * |samples| as real) >= 1
    ensures IsNearestRank(samples, Ceil(percentile * |samples| as real),
                          PercentileNearestRank(Ascending(samples), percentile))
  {
    hide IsNearestRank, Ceil, RankIndex;
    ScaledBounds(|samples|, percentile);
    OrderStatistic(samples, NearestRankIndex(|samples|, percentile));
  }

  lemma RankIndexMonotone(length: nat, x: real, y: real)
    requires length > 0 && x <= y
    ensures RankIndex(length, x) <= RankIndex(length, y)
  {}

  lemma IndexMonotone(length: nat, p: real, q: real)
    requires length > 0 && p <= q
    ensures NearestRankIndex(length, p) <= NearestRankIndex(length, q)
  {
    hide RankIndex;
    ProductMonotone(p, q, length as real);
    RankIndexMonotone(length, Scaled(length, p), Scaled(length, q));
  }

  lemma PercentileMonotone(samples: seq<real>, p: real, q: real)
    requires samples != [] && p <= q
    ensures PercentileNearestRank(Ascending(samples), p) <= PercentileNearestRank(Ascending(samples), q)
  {
    IndexMonotone(|samples|, p, q);
    AscendingAt(samples, NearestRankIndex(|samples|, p), NearestRankIndex(|samples|, q));
  }

  lemma {:induction false} SumBounds(xs: seq<real>, low: real, high: real)
    requires forall i :: 0 <= i < |xs| ==> low <= xs[i] <= high
    ensures low * |xs| as real <= Sum(xs) <= high * |xs| as real
  {
    if xs != [] {
      var n := |xs|;
      SumBounds(xs[..n - 1], low, high);
      assert low * n as real == low * (n - 1) as real + low;
      assert high * n as real == high * (n - 1) as real + high;
    }
  }

  lemma MeanBounds(sum: real, n: real, low: real, high: real)
    requires n > 0.0 && low * n <= sum <= high * n
    ensures low <= sum / n <= high
  {
    assert low == (low * n) / n && high == (high * n) / n;
  }

  lemma ExtremesBound(samples: seq<real>)
    requires samples != []
    ensures var s := Summarize(samples);
            s.minMs in samples && s.maxMs in samples && forall x :: x in samples ==> s.minMs <= x <= s.maxMs
  {
    var sorted := Ascending(samples);
    SortLength(samples, ITSELF);
    forall x | x in samples ensures sorted[0] <= x <= sorted[|sorted| - 1] {
      var i :| 0 <= i < |sorted| && sorted[i] == x;
      AscendingAt(samples, 0, i);
      AscendingAt(samples, i, |sorted| - 1);
    }
  }

  lemma MeanIsBetweenExtremes(samples: seq<real>)
    requires samples != []
    ensures var s := Summarize(samples);
            s.minMs <= s.meanMs <= s.maxMs && s.meanMs == Sum(samples) / |samples| as real
  {
    hide PercentileNearestRank;
    SumOfSort(samples);
    SortedMean(Ascending(samples)) by { SortOrder(samples, ITSELF); }
  }

  lemma SortedBetween(sorted: seq<real>)
    requires sorted != [] && SortedBy(sorted, ITSELF)
    ensures forall i :: 0 <= i < |sorted| ==> sorted[0] <= sorted[i] <= sorted[|sorted| - 1]
  {
    forall i | 0 <= i < |sorted| ensures sorted[0] <= sorted[i] <= sorted[|sorted| - 1] {
      SortedAt(sorted, ITSELF, 0, i);
      SortedAt(sorted, ITSELF, i, |sorted| - 1);
    }
  }

  lemma SortedSum(sorted: seq<real>)
    requires sorted != [] && SortedBy(sorted, ITSELF)
    ensures sorted[0] * |sorted| as real <= Sum(sorted) <= sorted[|sorted| - 1] * |sorted| as real
  {
    hide Sum, SortedBy;
    SortedBetween(sorted);
    SumBounds(sorted, sorted[0], sorted[|sorted| - 1]);
  }

  lemma SortedMean(sorted: seq<real>)
    requires sorted != [] && SortedBy(sorted, ITSELF)
    ensures sorted[0] <= Sum(sorted) / |sorted| as real <= sorted[|sorted| - 1]
  {
    hide Sum, SortedBy;
    SortedSum(sorted);
    MeanBounds(Sum(sorted), |sorted| as real, sorted[0], sorted[|sorted| - 1]);
  }

  /** The reported percentiles are ordered between the extremes. */
  lemma PercentilesAreOrdered(samples: seq<real>)
    requires samples != []
    ensures var s := Summarize(samples);
            s.count == |samples| && s.minMs <= s.p50Ms <= s.p90Ms <= s.p95Ms <= s.p99Ms <= s.maxMs
  {
    PercentileMonotone(samples, 0.50, 0.90);
    PercentileMonotone(samples, 0.90, 0.95);
    PercentileMonotone(samples, 0.95, 0.99);
    AscendingAt(samples, 0, NearestRankIndex(|samples|, 0.50));
    AscendingAt(samples, NearestRankIndex(|samples|, 0.99), |samples| - 1);
  }

  /** Each reported percentile is the nearest-rank value of its own percentage. */
  lemma PercentilesAreNearestRanks(samples: seq<real>)
    requires samples != []
    ensures var s, n := Summarize(samples), |samples|;
            && Ceil(0.50 * n as real) >= 1 && IsNearestRank(samples, Ceil(0.50 * n as real), s.p50Ms)
            && Ceil(0.90 * n as real) >= 1 && IsNearestRank(samples, Ceil(0.90 * n as real), s.p90Ms)
            && Ceil(0.95 * n as real) >= 1 && IsNearestRank(samples, Ceil(0.95 * n as real), s.p95Ms)
            && Ceil(0.99 * n as real) >= 1 && IsNearestRank(samples, Ceil(0.99 * n as real), s.p99Ms)
  {
    hide IsNearestRank, PercentileNearestRank, Ascending, Ceil;
    PercentileIsNearestRank(samples, 0.50);
    PercentileIsNearestRank(samples, 0.90);
    PercentileIsNearestRank(samples, 0.95);
    PercentileIsNearestRank(samples, 0.99);
  }

  /** Only the multiset of samples matters. */
  lemma SummaryForgetsOrder(a: seq<real>, b: seq<real>)
    requires multiset(a) == multiset(b)
    ensures Summarize(a) == Summarize(b)
  {
    assert |multiset(a)| == |multiset(b)|;
    SortForgetsOrder(a, b, ITSELF);
  }

  lemma {:induction false} SumSplits(a: seq<real>, b: seq<real>)
    ensures Sum(a + b) == Sum(a) + Sum(b)
  {
    if b == [] {
      assert a + b == a;
    } else {
      SumSplits(a, b[..|b| - 1]);
      assert (a + b)[..|a + b| - 1] == a + b[..|b| - 1];
    }
  }

  lemma {:induction false} SumOfInsert(x: real, xs: seq<real>)
    ensures Sum(Insert(x, xs, ITSELF)) == x + Sum(xs)
  {
    SumOfOne(x);
    if xs == [] || x <= xs[0] {
      SumSplits([x], xs);
    } else {
      SumOfOne(xs[0]);
      SumOfInsert(x, xs[1..]);
      SumSplits([xs[0]], Insert(x, xs[1..], ITSELF));
      SumSplits([xs[0]], xs[1..]);
      assert xs == [xs[0]] + xs[1..];
    }
  }

  lemma SumOfOne(x: real)
    ensures Sum([x]) == x
  {
    assert [x][..0] == [];
  }

  lemma {:induction false} SumOfSort(xs: seq<real>)
    ensures Sum(SortBy(xs, ITSELF)) == Sum(xs)
  {
    if xs != [] {
      SumOfSort(xs[1..]);
      SumOfInsert(xs[0], SortBy(xs[1..], ITSELF));
      SumOfOne(xs[0]);
      SumSplits([xs[0]], xs[1..]);
      assert xs == [xs[0]] + xs[1..];
    }
  }
}
