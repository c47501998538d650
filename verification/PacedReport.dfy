/** The report of a paced run (build_report in src/driver/paced.rs). Instants are natural
    numbers of nanoseconds, durations are reported in real milliseconds. */
module PacedReport {
  import opened Latency
  import opened Pacer
  import opened Sorting
  import opened Wrappers

  const MAX_RETAINED_SAMPLES: nat := 1024
  const MAX_RETAINED_FAILURES: nat := 256

  datatype Sample = Sample(index: nat, ok: bool, offeredMs: real, serviceMs: real, lagMs: real)

  datatype Failure = Failure(index: nat, message: string)

  datatype Report = Report(
    targetOpsPerS: real, achievedOpsPerS: real, successfulOpsPerS: real,
    totalTasks: nat, completedTasks: nat, failedTasks: nat, wallTimeMs: real,
    offered: LatencySummary, service: LatencySummary, lag: LatencySummary,
    samples: seq<Sample>, failures: seq<Failure>)

  /** Saturates at zero when `later` lies before `earlier`. */
  function DurationSince(later: nat, earlier: nat): nat {
    if later >= earlier then later - earlier else 0
  }

  function Ms(nanos: nat): real { nanos as real / 1000000.0 }

  function OfferedMs(x: TaskExecution): real { Ms(DurationSince(x.completedAt, x.scheduledAt)) }

  function ServiceMs(x: TaskExecution): real { Ms(DurationSince(x.completedAt, x.startedAt)) }

  function LagMs(x: TaskExecution): real { Ms(DurationSince(x.startedAt, x.scheduledAt)) }

  function SampleOf(x: TaskExecution): Sample {
    Sample(x.index, x.result.Ok?, OfferedMs(x), ServiceMs(x), LagMs(x))
  }

  function Map<T, U>(f: T -> U, xs: seq<T>): (ys: seq<U>)
    ensures |ys| == |xs| && forall i :: 0 <= i < |xs| ==> ys[i] == f(xs[i])
  {
    seq(|xs|, i requires 0 <= i < |xs| => f(xs[i]))
  }

  function Take<T>(xs: seq<T>, n: nat): seq<T> { if |xs| <= n then xs else xs[..n] }

  function FailuresOf(xs: seq<TaskExecution>): seq<Failure> {
    if xs == [] then []
    else
      var last := xs[|xs| - 1];
      FailuresOf(xs[..|xs| - 1]) + if last.result.Err? then [Failure(last.index, last.result.error)] else []
  }

  function RatePerSecond(count: nat, elapsedS: real): real {
    if elapsedS <= 0.0 then 0.0 else count as real / elapsedS
  }

  function ByIndex(x: TaskExecution): real { x.index as real }

  /** The report as a function of the executions in index order. */
  function ReportOf(target: real, totalTasks: nat, wallTimeMs: real, ordered: seq<TaskExecution>): Report {
    FailuresBound(ordered);
    Report(
      target,
      RatePerSecond(|ordered|, wallTimeMs / 1000.0),
      RatePerSecond(|ordered| - |FailuresOf(ordered)|, wallTimeMs / 1000.0),
      totalTasks, |ordered|, |FailuresOf(ordered)|, wallTimeMs,
      Summarize(Map(OfferedMs, ordered)), Summarize(Map(ServiceMs, ordered)), Summarize(Map(LagMs, ordered)),
      Take(Map(SampleOf, ordered), MAX_RETAINED_SAMPLES),
      Take(FailuresOf(ordered), MAX_RETAINED_FAILURES))
  }

  lemma {:induction false} FailuresBound(xs: seq<TaskExecution>)
    ensures |FailuresOf(xs)| <= |xs|
  {
    if xs != [] { FailuresBound(xs[..|xs| - 1]); }
  }

  lemma EmptyLists()
    ensures Map(OfferedMs, []) == Map(ServiceMs, []) == Map(LagMs, []) == []
    ensures Take(Map(SampleOf, []), MAX_RETAINED_SAMPLES) == []
    ensures FailuresOf([]) == [] && Take(FailuresOf([]), MAX_RETAINED_FAILURES) == []
  {}

  lemma MapAppend<T, U>(f: T -> U, xs: seq<T>, x: T)
    ensures Map(f, xs + [x]) == Map(f, xs) + [f(x)]
  {}

  lemma TakeAppend<T>(xs: seq<T>, x: T, n: nat)
    ensures Take(xs + [x], n) == if |Take(xs, n)| < n then Take(xs, n) + [x] else Take(xs, n)
  {}

  lemma FailuresAppend(xs: seq<TaskExecution>, x: TaskExecution)
    ensures x.result.Err? ==> FailuresOf(xs + [x]) == FailuresOf(xs) + [Failure(x.index, x.result.error)]
    ensures x.result.Ok? ==> FailuresOf(xs + [x]) == FailuresOf(xs)
  {
    assert (xs + [x])[..|xs|] == xs;
  }

  method BuildReport(target: real, totalTasks: nat, wallTimeMs: real, executions: seq<TaskExecution>)
    returns (report: Report)
    ensures report == ReportOf(target, totalTasks, wallTimeMs, SortBy(executions, ByIndex))
  {
    var ordered := SortBy(executions, ByIndex);
    var offered, service, lags: seq<real> := [], [], [];
    var samples, failures := [], [];
    var completed, failed := 0, 0;
    hide Map, Take, FailuresOf, OfferedMs, ServiceMs, LagMs, SampleOf, Summarize, SortBy, RatePerSecond;
    EmptyLists();
    for i := 0 to |ordered|
      invariant completed == i && failed == |FailuresOf(ordered[..i])| <= i
      invariant offered == Map(OfferedMs, ordered[..i])
      invariant service == Map(ServiceMs, ordered[..i])
      invariant lags == Map(LagMs, ordered[..i])
      invariant samples == Take(Map(SampleOf, ordered[..i]), MAX_RETAINED_SAMPLES)
      invariant failures == Take(FailuresOf(ordered[..i]), MAX_RETAINED_FAILURES)
    {
      var x := ordered[i];
      ghost var before := ordered[..i];
      assert ordered[..i + 1] == before + [x];
      MapAppend(OfferedMs, before, x);
      MapAppend(ServiceMs, before, x);
      MapAppend(LagMs, before, x);
      MapAppend(SampleOf, before, x);
      TakeAppend(Map(SampleOf, before), SampleOf(x), MAX_RETAINED_SAMPLES);
      FailuresAppend(before, x);
      if x.result.Err? {
        TakeAppend(FailuresOf(before), Failure(x.index, x.result.error), MAX_RETAINED_FAILURES);
      }
      completed := completed + 1;
      offered := offered + [OfferedMs(x)];
      service := service + [ServiceMs(x)];
      lags := lags + [LagMs(x)];
      if x.result.Err? {
        failed := failed + 1;
        if |failures| < MAX_RETAINED_FAILURES {
          failures := failures + [Failure(x.index, x.result.error)];
        }
      }
      if |samples| < MAX_RETAINED_SAMPLES {
        samples := samples + [SampleOf(x)];
      }
    }
    assert ordered[..|ordered|] == ordered;
    var elapsedS := wallTimeMs / 1000.0;
    var offeredSummary := FromSamples(offered);
    var serviceSummary := FromSamples(service);
    var lagSummary := FromSamples(lags);
    report := Report(
      target, RatePerSecond(completed, elapsedS), RatePerSecond(completed - failed, elapsedS),
      totalTasks, completed, failed, wallTimeMs, offeredSummary, serviceSummary, lagSummary, samples, failures);
  }

  // ------------------------------------------------------------ the whole run

  function LastCompletion(wallStart: nat, xs: seq<TaskExecution>): nat {
    if xs == [] then wallStart
    else if |xs| == 1 then xs[0].completedAt
    else
      var rest := LastCompletion(wallStart, xs[1..]);
      if xs[0].completedAt >= rest then xs[0].completedAt else rest
  }

  /** What run_paced_tasks reports for the collected executions, in arrival order. */
  function RunReport(c: Config, target: real, executions: seq<TaskExecution>): Report {
    ReportOf(target, c.total, Ms(DurationSince(LastCompletion(c.wallStart, executions), c.wallStart)),
             SortBy(executions, ByIndex))
  }

  lemma {:induction false} LastCompletionIsMaximum(wallStart: nat, xs: seq<TaskExecution>)
    requires xs != []
    ensures forall i :: 0 <= i < |xs| ==> xs[i].completedAt <= LastCompletion(wallStart, xs)
    ensures exists i :: 0 <= i < |xs| && xs[i].completedAt == LastCompletion(wallStart, xs)
  {
    if |xs| > 1 {
      LastCompletionIsMaximum(wallStart, xs[1..]);
      var j :| 0 <= j < |xs[1..]| && xs[1..][j].completedAt == LastCompletion(wallStart, xs[1..]);
      assert xs[j + 1].completedAt == LastCompletion(wallStart, xs[1..]);
      assert || xs[0].completedAt == LastCompletion(wallStart, xs)
             || xs[j + 1].completedAt == LastCompletion(wallStart, xs);
      forall i | 0 <= i < |xs| ensures xs[i].completedAt <= LastCompletion(wallStart, xs) {
        assert i > 0 ==> xs[i] == xs[1..][i - 1];
      }
    } else {
      assert xs[0].completedAt == LastCompletion(wallStart, xs);
    }
  }

  lemma LastCompletionForgetsOrder(wallStart: nat, a: seq<TaskExecution>, b: seq<TaskExecution>)
    requires multiset(a) == multiset(b)
    ensures LastCompletion(wallStart, a) == LastCompletion(wallStart, b)
  {
    assert |multiset(a)| == |multiset(b)|;
    if a != [] {
      LastCompletionIsMaximum(wallStart, a);
      LastCompletionIsMaximum(wallStart, b);
      var i :| 0 <= i < |a| && a[i].completedAt == LastCompletion(wallStart, a);
      var j :| 0 <= j < |b| && b[j].completedAt == LastCompletion(wallStart, b);
      assert a[i] in multiset(b) && b[j] in multiset(a);
    }
  }

  /** The report does not depend on the order in which the executions arrived. */
  lemma ReportForgetsArrivalOrder(c: Config, target: real, a: seq<TaskExecution>, b: seq<TaskExecution>)
    requires OnePerIndex(c, a) && multiset(a) == multiset(b)
    ensures RunReport(c, target, a) == RunReport(c, target, b)
  {
    forall x, y | x in a && y in a && ByIndex(x) == ByIndex(y) ensures x == y {
      var i :| 0 <= i < |a| && a[i] == x;
      var j :| 0 <= j < |a| && a[j] == y;
    }
    SortForgetsOrder(a, b, ByIndex);
    LastCompletionForgetsOrder(c.wallStart, a, b);
  }

  // ------------------------------------------------------------ what the report keeps

  lemma {:induction false} IncreasingFromZero(indices: seq<nat>, n: nat, k: nat)
    requires |indices| == n && k < n
    requires forall i :: 0 <= i < n ==> indices[i] < n
    requires forall i {:trigger indices[i]} :: 0 < i < n ==> indices[i - 1] < indices[i]
    ensures indices[k] >= k
    decreases k
  {
    if k > 0 { IncreasingFromZero(indices, n, k - 1); }
  }

  lemma {:induction false} IncreasingToTop(indices: seq<nat>, n: nat, k: nat)
    requires |indices| == n && k < n
    requires forall i :: 0 <= i < n ==> indices[i] < n
    requires forall i {:trigger indices[i]} :: 0 < i < n ==> indices[i - 1] < indices[i]
    ensures indices[k] <= k
    decreases n - k
  {
    if k < n - 1 {
      IncreasingToTop(indices, n, k + 1);
      assert indices[k + 1 - 1] < indices[k + 1];
    }
  }

  lemma {:induction false} NoRepeats(a: seq<TaskExecution>, b: seq<TaskExecution>, i: nat, j: nat)
    requires multiset(a) == multiset(b) && i < j < |b|
    requires forall p, q :: 0 <= p < q < |a| ==> a[p].index != a[q].index
    ensures b[i].index != b[j].index
  {
    if b[i].index == b[j].index {
      assert b[i] in multiset(a) && b[j] in multiset(a);
      var p :| 0 <= p < |a| && a[p] == b[i];
      var q :| 0 <= q < |a| && a[q] == b[j];
      assert p == q;
      Multiplicity(b, i, j);
      MultiplicityOne(a, p);
    }
  }

  lemma Multiplicity<T>(xs: seq<T>, i: nat, j: nat)
    requires i < j < |xs| && xs[i] == xs[j]
    ensures multiset(xs)[xs[i]] >= 2
  {
    assert xs == xs[..i] + [xs[i]] + xs[i + 1..j] + [xs[j]] + xs[j + 1..];
  }

  lemma MultiplicityOne(xs: seq<TaskExecution>, i: nat)
    requires i < |xs|
    requires forall p, q :: 0 <= p < q < |xs| ==> xs[p].index != xs[q].index
    ensures multiset(xs)[xs[i]] == 1
  {
    assert xs == xs[..i] + [xs[i]] + xs[i + 1..];
    assert xs[i] !in multiset(xs[..i]) && xs[i] !in multiset(xs[i + 1..]);
  }

  lemma OrderedIncreases(c: Config, executions: seq<TaskExecution>, i: nat)
    requires OnePerIndex(c, executions) && i < c.total
    ensures var ordered := SortBy(executions, ByIndex);
            && |ordered| == c.total && ordered[i] in executions && ordered[i].index < c.total
            && (i > 0 ==> ordered[i - 1].index < ordered[i].index)
  {
    hide SortBy, SortedBy;
    var ordered := SortBy(executions, ByIndex);
    SortLength(executions, ByIndex);
    SortElements(executions, ByIndex);
    SortOrder(executions, ByIndex);
    assert ordered[i] in multiset(ordered);
    if i > 0 {
      SortedAt(ordered, ByIndex, i - 1, i);
      NoRepeats(executions, ordered, i - 1, i);
    }
  }

  /** Sorted by index, a complete set of executions has execution k at position k. */
  lemma OrderedIsComplete(c: Config, executions: seq<TaskExecution>, k: nat)
    requires OnePerIndex(c, executions) && k < c.total
    ensures var ordered := SortBy(executions, ByIndex);
            |ordered| == c.total && ordered[k].index == k && ordered[k] in executions
  {
    hide SortBy, OnePerIndex;
    var ordered := SortBy(executions, ByIndex);
    OrderedIncreases(c, executions, k);
    var indices := seq(c.total, i requires 0 <= i < c.total => ordered[i].index);
    forall i {:trigger indices[i]} | 0 <= i < c.total
      ensures indices[i] < c.total && (i > 0 ==> indices[i - 1] < indices[i])
    {
      OrderedIncreases(c, executions, i);
    }
    IncreasingFromZero(indices, c.total, k);
    IncreasingToTop(indices, c.total, k);
  }

  /** The execution of a task stands at its own index. */
  lemma OrderedAtIndex(c: Config, executions: seq<TaskExecution>, k: nat)
    requires OnePerIndex(c, executions) && k < |executions|
    ensures var ordered := SortBy(executions, ByIndex);
            |ordered| == c.total && executions[k].index < c.total && ordered[executions[k].index] == executions[k]
  {
    hide SortBy;
    var index := executions[k].index;
    OrderedIsComplete(c, executions, index);
    var j :| 0 <= j < |executions| && executions[j] == SortBy(executions, ByIndex)[index];
    assert j == k;
  }

  /** Counts are exact; the samples kept are those of the first 1024 indices, each with the outcome of
      its own task and the times between that task's readings. */
  lemma ReportKeepsFirstSamples(c: Config, target: real, executions: seq<TaskExecution>)
    requires OnePerIndex(c, executions)
    ensures var r := RunReport(c, target, executions);
            && r.completedTasks == r.totalTasks == c.total
            && |r.samples| == (if c.total <= MAX_RETAINED_SAMPLES then c.total else MAX_RETAINED_SAMPLES)
            && forall k :: 0 <= k < |executions| && executions[k].index < |r.samples| ==>
                 var x := executions[k];
                 r.samples[x.index] == Sample(x.index, x.result.Ok?, Between(x.scheduledAt, x.completedAt),
                                              Between(x.startedAt, x.completedAt), Between(x.scheduledAt, x.startedAt))
  {
    hide SortBy;
    var r := RunReport(c, target, executions);
    var ordered := SortBy(executions, ByIndex);
    SortLength(executions, ByIndex);
    forall k | 0 <= k < |executions| && executions[k].index < |r.samples|
      ensures r.samples[executions[k].index] == SampleOf(executions[k])
    {
      OrderedAtIndex(c, executions, k);
    }
  }

  lemma {:induction false} MapOfInsert(f: TaskExecution -> real, x: TaskExecution, xs: seq<TaskExecution>)
    ensures multiset(Map(f, Insert(x, xs, ByIndex))) == multiset{f(x)} + multiset(Map(f, xs))
  {
    if xs == [] || ByIndex(x) <= ByIndex(xs[0]) {
      assert Map(f, [x] + xs) == [f(x)] + Map(f, xs);
    } else {
      MapOfInsert(f, x, xs[1..]);
      assert Map(f, [xs[0]] + Insert(x, xs[1..], ByIndex)) == [f(xs[0])] + Map(f, Insert(x, xs[1..], ByIndex));
      assert Map(f, xs) == [f(xs[0])] + Map(f, xs[1..]);
    }
  }

  lemma {:induction false} MapOfSort(f: TaskExecution -> real, xs: seq<TaskExecution>)
    ensures multiset(Map(f, SortBy(xs, ByIndex))) == multiset(Map(f, xs))
  {
    if xs != [] {
      hide Insert;
      MapOfSort(f, xs[1..]);
      MapOfInsert(f, xs[0], SortBy(xs[1..], ByIndex));
      assert Map(f, xs) == [f(xs[0])] + Map(f, xs[1..]);
    }
  }

  lemma SummaryOfReadings(f: TaskExecution -> real, executions: seq<TaskExecution>, readings: seq<real>)
    requires |readings| == |executions| && forall k :: 0 <= k < |executions| ==> readings[k] == f(executions[k])
    ensures Summarize(Map(f, SortBy(executions, ByIndex))) == Summarize(readings)
  {
    hide Summarize, SortBy;
    MapOfSort(f, executions);
    assert readings == Map(f, executions);
    SummaryForgetsOrder(Map(f, SortBy(executions, ByIndex)), readings);
  }

  /** The time from one instant to a later one. */
  function Between(earlier: nat, later: nat): real { (later - earlier) as real / 1000000.0 }

  /** The three summaries are those of the times between the readings: offered from schedule to end,
      service from start to end, lag from schedule to start. */
  lemma ReportSummarizesReadings(c: Config, target: real, executions: seq<TaskExecution>,
                                 offered: seq<real>, service: seq<real>, lags: seq<real>)
    requires OnePerIndex(c, executions) && |offered| == |service| == |lags| == |executions|
    requires forall k :: 0 <= k < |executions| ==>
               && offered[k] == Between(executions[k].scheduledAt, executions[k].completedAt)
               && service[k] == Between(executions[k].startedAt, executions[k].completedAt)
               && lags[k] == Between(executions[k].scheduledAt, executions[k].startedAt)
    ensures var r := RunReport(c, target, executions);
            r.offered == Summarize(offered) && r.service == Summarize(service) && r.lag == Summarize(lags)
  {
    hide Summarize, SortBy;
    SummaryOfReadings(OfferedMs, executions, offered);
    SummaryOfReadings(ServiceMs, executions, service);
    SummaryOfReadings(LagMs, executions, lags);
  }

  /** The wall time runs from the start of the pacer to the latest completion. */
  lemma WallTimeEndsWithTheLast(c: Config, target: real, executions: seq<TaskExecution>)
    requires OnePerIndex(c, executions)
    ensures var ms := RunReport(c, target, executions).wallTimeMs;
            if c.total == 0 then ms == 0.0
            else exists k :: 0 <= k < |executions| && ms == Between(c.wallStart, executions[k].completedAt)
                   && forall j :: 0 <= j < |executions| ==> executions[j].completedAt <= executions[k].completedAt
  {
    hide ReportOf, OnePerIndex;
    WallTimeIs(c, target, executions);
    NoneOrSome(c, executions);
    if c.total > 0 {
      hide LastCompletion;
      LastCompletionIsMaximum(c.wallStart, executions);
      var k :| 0 <= k < |executions| && executions[k].completedAt == LastCompletion(c.wallStart, executions);
      NotBeforeStart(c, executions, k);
      assert RunReport(c, target, executions).wallTimeMs == Between(c.wallStart, executions[k].completedAt);
    }
  }

  lemma WallTimeIs(c: Config, target: real, executions: seq<TaskExecution>)
    ensures RunReport(c, target, executions).wallTimeMs
         == Ms(DurationSince(LastCompletion(c.wallStart, executions), c.wallStart))
  {}

  lemma NoneOrSome(c: Config, executions: seq<TaskExecution>)
    requires OnePerIndex(c, executions)
    ensures executions == [] <==> c.total == 0
  {}

  lemma NotBeforeStart(c: Config, executions: seq<TaskExecution>, k: nat)
    requires OnePerIndex(c, executions) && k < |executions|
    ensures c.wallStart <= executions[k].completedAt
  {}

  function Failed(x: TaskExecution): bool { x.result.Err? }

  lemma {:induction false} FailuresCounted(xs: seq<TaskExecution>)
    ensures |FailuresOf(xs)| == Count(xs, Failed)
  {
    if xs != [] {
      var n := |xs| - 1;
      FailuresCounted(xs[..n]);
      CountSplits(xs[..n], [xs[n]], Failed);
      assert xs == xs[..n] + [xs[n]];
      assert [xs[n]][1..] == [];
    }
  }

  /** The failure list of xs is its failing executions in order: a failure at position j stands
      after exactly the failures before j. */
  lemma {:induction false} FailurePosition(xs: seq<TaskExecution>, j: nat)
    requires j < |xs| && Failed(xs[j])
    ensures |FailuresOf(xs[..j])| < |FailuresOf(xs)|
    ensures FailuresOf(xs)[|FailuresOf(xs[..j])|] == Failure(xs[j].index, xs[j].result.error)
  {
    var n := |xs| - 1;
    if j < n {
      FailurePosition(xs[..n], j);
      assert xs[..n][..j] == xs[..j];
    }
  }

  /** Tasks with a smaller index that failed. */
  ghost function FailedBefore(index: nat): TaskExecution -> bool {
    (x: TaskExecution) => x.index < index && x.result.Err?
  }

  lemma {:induction false} CountsAgree(xs: seq<TaskExecution>, p: TaskExecution -> bool, q: TaskExecution -> bool)
    requires forall i :: 0 <= i < |xs| ==> p(xs[i]) == q(xs[i])
    ensures Count(xs, p) == Count(xs, q)
  {
    if xs != [] { CountsAgree(xs[1..], p, q); }
  }

  lemma FailuresBefore(c: Config, executions: seq<TaskExecution>, j: nat)
    requires OnePerIndex(c, executions) && j < c.total
    ensures |SortBy(executions, ByIndex)| == c.total
    ensures Count(SortBy(executions, ByIndex)[..j], Failed) == Count(executions, FailedBefore(j))
  {
    hide SortBy, Count;
    var ordered := SortBy(executions, ByIndex);
    SortLength(executions, ByIndex);
    forall i | 0 <= i < |ordered| ensures ordered[i].index == i { OrderedIsComplete(c, executions, i); }
    CountOfSort(executions, ByIndex, FailedBefore(j));
    assert ordered == ordered[..j] + ordered[j..];
    CountSplits(ordered[..j], ordered[j..], FailedBefore(j));
    CountsAgree(ordered[..j], Failed, FailedBefore(j));
    CountNone(ordered[j..], FailedBefore(j));
  }

  /** `failed_tasks` counts all failures, and the failure of a task is kept, with its own message,
      exactly when fewer than 256 tasks with a smaller index failed; it is then at that position. */
  lemma ReportKeepsFirstFailures(c: Config, target: real, executions: seq<TaskExecution>, k: nat)
    requires OnePerIndex(c, executions) && k < |executions| && executions[k].result.Err?
    ensures var r, x := RunReport(c, target, executions), executions[k];
            var before := Count(executions, FailedBefore(x.index));
            && (before < MAX_RETAINED_FAILURES ==>
                  before < |r.failures| && r.failures[before] == Failure(x.index, x.result.error))
            && (before >= MAX_RETAINED_FAILURES ==> |r.failures| == MAX_RETAINED_FAILURES <= before)
  {
    hide SortBy, FailuresOf, Count;
    var ordered, j := SortBy(executions, ByIndex), executions[k].index;
    OrderedAtIndex(c, executions, k);
    FailuresBefore(c, executions, j);
    FailuresCounted(ordered[..j]);
    FailurePosition(ordered, j);
  }

  lemma FailuresAreCounted(c: Config, target: real, executions: seq<TaskExecution>)
    ensures var r := RunReport(c, target, executions);
            && r.failedTasks == Count(executions, (x: TaskExecution) => x.result.Err?)
            && |r.failures| == (if r.failedTasks <= MAX_RETAINED_FAILURES then r.failedTasks else MAX_RETAINED_FAILURES)
  {
    var ordered := SortBy(executions, ByIndex);
    CountOfSort(executions, ByIndex, Failed);
    FailuresCounted(ordered);
    CountsAgree(executions, Failed, (x: TaskExecution) => x.result.Err?);
  }

  /** For every execution the pacer delivers, offered latency is lag plus service time. */
  lemma OfferedIsLagPlusService(c: Config, executions: seq<TaskExecution>, k: nat)
    requires OnePerIndex(c, executions) && k < |executions|
    ensures var x := executions[k];
            OfferedMs(x) == LagMs(x) + ServiceMs(x) && LagMs(x) >= 0.0 && ServiceMs(x) >= 0.0
  {
    var x := executions[k];
    assert x.completedAt - x.scheduledAt == (x.startedAt - x.scheduledAt) + (x.completedAt - x.startedAt);
  }

  lemma {:induction false} LatenciesAddUp(c: Config, xs: seq<TaskExecution>)
    requires forall k :: 0 <= k < |xs| ==> xs[k].scheduledAt <= xs[k].startedAt <= xs[k].completedAt
    ensures Sum(Map(OfferedMs, xs)) == Sum(Map(LagMs, xs)) + Sum(Map(ServiceMs, xs))
  {
    hide Map, OfferedMs, LagMs, ServiceMs;
    if xs == [] {
      EmptyLists();
    } else {
      var front, x := xs[..|xs| - 1], xs[|xs| - 1];
      assert xs == front + [x];
      LatenciesAddUp(c, front);
      OneAddsUp(x);
      SumOfAppended(OfferedMs, front, x);
      SumOfAppended(LagMs, front, x);
      SumOfAppended(ServiceMs, front, x);
    }
  }

  lemma OneAddsUp(x: TaskExecution)
    requires x.scheduledAt <= x.startedAt <= x.completedAt
    ensures OfferedMs(x) == LagMs(x) + ServiceMs(x)
  {
    assert x.completedAt - x.scheduledAt == (x.startedAt - x.scheduledAt) + (x.completedAt - x.startedAt);
  }

  lemma SumOfAppended(f: TaskExecution -> real, xs: seq<TaskExecution>, x: TaskExecution)
    ensures Sum(Map(f, xs + [x])) == Sum(Map(f, xs)) + f(x)
  {
    MapAppend(f, xs, x);
    SumSplits(Map(f, xs), [f(x)]);
    SumOfOne(f(x));
  }

  /** Over a whole run the mean offered latency is the mean lag plus the mean service time, and over
      the wall time the rates give back the counts. */
  lemma ReportAddsUp(c: Config, target: real, executions: seq<TaskExecution>)
    requires OnePerIndex(c, executions) && c.total > 0
    ensures var r := RunReport(c, target, executions);
            && r.targetOpsPerS == target
            && r.offered.count == r.lag.count == r.service.count == c.total
            && r.offered.meanMs == r.lag.meanMs + r.service.meanMs
            && (r.wallTimeMs <= 0.0 ==> r.achievedOpsPerS == r.successfulOpsPerS == 0.0)
            && (r.wallTimeMs > 0.0 ==>
                  && r.achievedOpsPerS * (r.wallTimeMs / 1000.0) == r.completedTasks as real
                  && r.successfulOpsPerS * (r.wallTimeMs / 1000.0) == (r.completedTasks - r.failedTasks) as real)
  {
    hide Summarize, Map, OfferedMs, LagMs, ServiceMs, SampleOf, FailuresOf, SortBy, Take;
    var ordered := SortBy(executions, ByIndex);
    SortLength(executions, ByIndex);
    forall k | 0 <= k < |ordered|
      ensures ordered[k].scheduledAt <= ordered[k].startedAt <= ordered[k].completedAt
    {
      OrderedIncreases(c, executions, k);
    }
    LatenciesAddUp(c, ordered);
    MeansFollowSums(Map(OfferedMs, ordered), Map(LagMs, ordered), Map(ServiceMs, ordered));
    FailuresBound(ordered);
    RatesGiveCounts(|ordered|, RunReport(c, target, executions).wallTimeMs / 1000.0);
    RatesGiveCounts(|ordered| - |FailuresOf(ordered)|, RunReport(c, target, executions).wallTimeMs / 1000.0);
  }

  lemma RatesGiveCounts(count: nat, elapsedS: real)
    ensures elapsedS > 0.0 ==> RatePerSecond(count, elapsedS) * elapsedS == count as real
  {}

  lemma MeansFollowSums(offered: seq<real>, lags: seq<real>, service: seq<real>)
    requires |offered| == |lags| == |service| > 0 && Sum(offered) == Sum(lags) + Sum(service)
    ensures Summarize(offered).count == Summarize(lags).count == Summarize(service).count == |offered|
    ensures Summarize(offered).meanMs == Summarize(lags).meanMs + Summarize(service).meanMs
  {
    hide Summarize, Sum;
    MeanIsBetweenExtremes(offered);
    MeanIsBetweenExtremes(lags);
    MeanIsBetweenExtremes(service);
    PercentilesAreOrdered(offered);
    PercentilesAreOrdered(lags);
    PercentilesAreOrdered(service);
    QuotientAdds(Sum(lags), Sum(service), |offered| as real);
  }

  lemma QuotientAdds(a: real, b: real, n: real)
    requires n > 0.0
    ensures (a + b) / n == a / n + b / n
  {}
}
