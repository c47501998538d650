/** Throughput sweeps (src/driver/sweep.rs) and the two loops that drive them: adaptive
    (src/experiments/blob/put/mod.rs and src/experiments/metadata/mod.rs) and over a list computed
    beforehand (src/experiments/blob/multi_getter.rs and single_getter.rs). Rates are reals. */
module Sweep {
  import opened Wrappers

  datatype Policy = Policy(startOpsPerS: real, stepMultiplier: real, maxOpsPerS: real, maxPoints: nat,
                           saturationAchievedRatio: real, stopOnFailure: bool)

  datatype PolicyError = BadStart | BadMultiplier | BadMaximum | NoPoints | BadRatio

  datatype StopReason = Saturated | FailedTasks | MaxPoints | MaxOpsPerS

  datatype Decision = Continue(nextOpsPerS: real) | Stop(reason: StopReason)

  /** What a datapoint reports: the target it was run at, and how it went. */
  datatype Outcome = Outcome(targetOpsPerS: real, successfulOpsPerS: real, failedTasks: nat)

  datatype SweepError = NoTargetRates | DatapointFailed(message: string)

  /** `exhausted` tells that the list ran out before any decision to stop. */
  datatype SweepEnd = SweepEnd(visited: seq<real>, reason: StopReason, exhausted: bool)

  type Datapoint = real -> Result<Outcome, string>

  function Validate(policy: Policy): Result<(), PolicyError> {
    if policy.startOpsPerS <= 0.0 then Err(BadStart)
    else if policy.stepMultiplier <= 1.0 then Err(BadMultiplier)
    else if policy.maxOpsPerS <= 0.0 then Err(BadMaximum)
    else if policy.maxPoints == 0 then Err(NoPoints)
    else if !(0.0 <= policy.saturationAchievedRatio <= 1.0) || policy.saturationAchievedRatio == 0.0 then Err(BadRatio)
    else Ok(())
  }

  function NextRate(policy: Policy, rate: real): real { rate * policy.stepMultiplier }

  function DecideAfterMetrics(policy: Policy, completedPoints: nat, target: real, successful: real, failedTasks: nat)
    : Decision
  {
    if policy.stopOnFailure && failedTasks > 0 then Stop(FailedTasks)
    else if target <= 0.0 || successful / target < policy.saturationAchievedRatio then Stop(Saturated)
    else if completedPoints >= policy.maxPoints then Stop(MaxPoints)
    else
      var next := NextRate(policy, target);
      if next > policy.maxOpsPerS then Stop(MaxOpsPerS) else Continue(next)
  }

  function DecideAfter(policy: Policy, completedPoints: nat, outcome: Outcome): Decision {
    DecideAfterMetrics(policy, completedPoints, outcome.targetOpsPerS, outcome.successfulOpsPerS, outcome.failedTasks)
  }

  // ------------------------------------------------------------ the adaptive driver

  function AdaptiveFrom(policy: Policy, datapoint: Datapoint, rate: real, visited: seq<real>)
    : Result<SweepEnd, SweepError>
    decreases if |visited| < policy.maxPoints then policy.maxPoints - |visited| else 0
  {
    match datapoint(rate)
    case Err(message) => Err(DatapointFailed(message))
    case Ok(outcome) =>
      match DecideAfter(policy, |visited| + 1, outcome)
      case Stop(reason) => Ok(SweepEnd(visited + [rate], reason, false))
      case Continue(next) => AdaptiveFrom(policy, datapoint, next, visited + [rate])
  }

  method RunAdaptive(policy: Policy, datapoint: Datapoint) returns (r: Result<SweepEnd, SweepError>)
    ensures r == AdaptiveFrom(policy, datapoint, policy.startOpsPerS, [])
  {
    var target := policy.startOpsPerS;
    var visited: seq<real> := [];
    while true
      invariant AdaptiveFrom(policy, datapoint, target, visited)
             == AdaptiveFrom(policy, datapoint, policy.startOpsPerS, [])
      decreases if |visited| < policy.maxPoints then policy.maxPoints - |visited| else 0
    {
      var point := datapoint(target);
      if point.Err? {
        return Err(DatapointFailed(point.error));
      }
      var decision := DecideAfter(policy, |visited| + 1, point.value);
      visited := visited + [target];
      match decision {
        case Continue(next) => target := next;
        case Stop(reason) => return Ok(SweepEnd(visited, reason, false));
      }
    }
  }

  // ------------------------------------------------------------ the list driver

  function RatesFrom(policy: Policy, rate: real, count: nat): seq<real>
    decreases count
  {
    if count == 0 || rate > policy.maxOpsPerS then []
    else [rate] + RatesFrom(policy, NextRate(policy, rate), count - 1)
  }

  function ListedRates(policy: Policy, points: seq<real>, offered: Option<real>): Result<seq<real>, SweepError> {
    if points != [] then Ok(points)
    else if offered.Some? then Ok([offered.value])
    else
      var rates := RatesFrom(policy, policy.startOpsPerS, policy.maxPoints);
      if rates == [] then Err(NoTargetRates) else Ok(rates)
  }

  method TargetRates(policy: Policy, points: seq<real>, offered: Option<real>)
    returns (r: Result<seq<real>, SweepError>)
    ensures r == ListedRates(policy, points, offered)
  {
    if points != [] {
      return Ok(points);
    }
    if offered.Some? {
      return Ok([offered.value]);
    }
    var rates: seq<real> := [];
    var rate := policy.startOpsPerS;
    var i := 0;
    while i < policy.maxPoints
      invariant i <= policy.maxPoints
      invariant rates + RatesFrom(policy, rate, policy.maxPoints - i)
             == RatesFrom(policy, policy.startOpsPerS, policy.maxPoints)
    {
      if rate > policy.maxOpsPerS {
        break;
      }
      ghost var rest := RatesFrom(policy, NextRate(policy, rate), policy.maxPoints - i - 1);
      assert rates + ([rate] + rest) == (rates + [rate]) + rest;
      rates, rate, i := rates + [rate], NextRate(policy, rate), i + 1;
    }
    assert rates + [] == rates;
    r := if rates == [] then Err(NoTargetRates) else Ok(rates);
  }

  /** The loop over a list from its position |visited| on; a list that runs out counts as MaxPoints. */
  function ListFrom(policy: Policy, datapoint: Datapoint, rates: seq<real>, visited: seq<real>)
    : Result<SweepEnd, SweepError>
    decreases |rates|
  {
    if rates == [] then Ok(SweepEnd(visited, MaxPoints, true))
    else
      match datapoint(rates[0])
      case Err(message) => Err(DatapointFailed(message))
      case Ok(outcome) =>
        match DecideAfter(policy, |visited| + 1, outcome)
        case Stop(reason) => Ok(SweepEnd(visited + [rates[0]], reason, false))
        case Continue(_) => ListFrom(policy, datapoint, rates[1..], visited + [rates[0]])
  }

  method RunList(policy: Policy, datapoint: Datapoint, rates: seq<real>) returns (r: Result<SweepEnd, SweepError>)
    ensures r == ListFrom(policy, datapoint, rates, [])
  {
    var stopReason, exhausted := MaxPoints, true;
    var visited: seq<real> := [];
    var i := 0;
    while i < |rates|
      invariant i <= |rates| && stopReason == MaxPoints && exhausted
      invariant ListFrom(policy, datapoint, rates[i..], visited) == ListFrom(policy, datapoint, rates, [])
    {
      var point := datapoint(rates[i]);
      if point.Err? {
        return Err(DatapointFailed(point.error));
      }
      var decision := DecideAfter(policy, |visited| + 1, point.value);
      visited := visited + [rates[i]];
      if decision.Stop? {
        stopReason, exhausted := decision.reason, false;
        break;
      }
      i := i + 1;
    }
    r := Ok(SweepEnd(visited, stopReason, exhausted));
  }

  function ListSweep(policy: Policy, datapoint: Datapoint, points: seq<real>, offered: Option<real>)
    : Result<SweepEnd, SweepError>
  {
    match ListedRates(policy, points, offered)
    case Err(error) => Err(error)
    case Ok(rates) => ListFrom(policy, datapoint, rates, [])
  }

  // ------------------------------------------------------------ properties

  lemma ValidIff(policy: Policy)
    ensures Validate(policy).Ok? <==>
              && policy.startOpsPerS > 0.0 && policy.stepMultiplier > 1.0 && policy.maxOpsPerS > 0.0
              && policy.maxPoints > 0 && 0.0 < policy.saturationAchievedRatio <= 1.0
  {}

  /** A datapoint reports the rate it was asked to run at. */
  ghost predicate Echoes(datapoint: Datapoint) {
    forall rate :: datapoint(rate).Ok? ==> datapoint(rate).value.targetOpsPerS == rate
  }

  /** The decisions, without division: a sweep stops for failures only if asked to; then it is
      saturated unless the fraction was achieved; then the point count and the maximum bound it. */
  lemma DecisionIff(policy: Policy, completedPoints: nat, outcome: Outcome)
    ensures var decision := DecideAfter(policy, completedPoints, outcome);
            var fails := policy.stopOnFailure && outcome.failedTasks > 0;
            var achieves := && outcome.targetOpsPerS > 0.0
                            && outcome.successfulOpsPerS >= policy.saturationAchievedRatio * outcome.targetOpsPerS;
            var next := outcome.targetOpsPerS * policy.stepMultiplier;
            && (decision == Stop(FailedTasks) <==> fails)
            && (decision == Stop(Saturated) <==> !fails && !achieves)
            && (decision == Stop(MaxPoints) <==> !fails && achieves && completedPoints >= policy.maxPoints)
            && (decision == Stop(MaxOpsPerS) <==> && !fails && achieves && completedPoints < policy.maxPoints
                                                  && next > policy.maxOpsPerS)
            && (decision == Continue(next) <==> && !fails && achieves && completedPoints < policy.maxPoints
                                                && next <= policy.maxOpsPerS)
  {
    if outcome.targetOpsPerS > 0.0 {
      RatioReached(outcome.successfulOpsPerS, outcome.targetOpsPerS, policy.saturationAchievedRatio);
    }
  }

  lemma RatioReached(successful: real, target: real, ratio: real)
    requires target > 0.0
    ensures successful / target < ratio <==> successful < ratio * target
  {
    var reached := successful / target;
    assert reached * target == successful;
    if reached < ratio { assert (ratio - reached) * target > 0.0; }
    if reached > ratio { assert (reached - ratio) * target > 0.0; }
  }

  /** From any point of the sweep on, the two drivers do the same. */
  lemma {:induction false} DriversAgreeFrom(policy: Policy, datapoint: Datapoint, rate: real, visited: seq<real>)
    requires Echoes(datapoint) && |visited| < policy.maxPoints && rate <= policy.maxOpsPerS
    ensures AdaptiveFrom(policy, datapoint, rate, visited)
         == ListFrom(policy, datapoint, RatesFrom(policy, rate, policy.maxPoints - |visited|), visited)
    ensures AdaptiveFrom(policy, datapoint, rate, visited).Ok? ==>
              !AdaptiveFrom(policy, datapoint, rate, visited).value.exhausted
    decreases policy.maxPoints - |visited|
  {
    var rates := RatesFrom(policy, rate, policy.maxPoints - |visited|);
    var rest := RatesFrom(policy, NextRate(policy, rate), policy.maxPoints - |visited| - 1);
    assert rates == [rate] + rest;
    assert ([rate] + rest)[1..] == rest;
    if datapoint(rate).Ok? {
      var decision := DecideAfter(policy, |visited| + 1, datapoint(rate).value);
      if decision.Continue? {
        DriversAgreeFrom(policy, datapoint, decision.nextOpsPerS, visited + [rate]);
      }
    }
  }

  /** An adaptive sweep never complains that it has no rates. */
  lemma {:induction false} AdaptiveHasRates(policy: Policy, datapoint: Datapoint, rate: real, visited: seq<real>)
    ensures AdaptiveFrom(policy, datapoint, rate, visited) != Err(NoTargetRates)
    decreases if |visited| < policy.maxPoints then policy.maxPoints - |visited| else 0
  {
    if datapoint(rate).Ok? {
      var decision := DecideAfter(policy, |visited| + 1, datapoint(rate).value);
      if decision.Continue? {
        AdaptiveHasRates(policy, datapoint, decision.nextOpsPerS, visited + [rate]);
      }
    }
  }

  /** With no explicit points and no offered rate, the adaptive sweep and the list sweep visit the
      same rates and stop for the same reason, whatever the datapoints report, exactly when the
      start is not above the maximum; the list is then never exhausted without a stop. */
  lemma SweepsAgreeIff(policy: Policy, datapoint: Datapoint)
    requires Validate(policy).Ok? && Echoes(datapoint)
    ensures AdaptiveFrom(policy, datapoint, policy.startOpsPerS, []) == ListSweep(policy, datapoint, [], None)
       <==> policy.startOpsPerS <= policy.maxOpsPerS
    ensures policy.startOpsPerS <= policy.maxOpsPerS && ListSweep(policy, datapoint, [], None).Ok? ==>
              !ListSweep(policy, datapoint, [], None).value.exhausted
  {
    AdaptiveHasRates(policy, datapoint, policy.startOpsPerS, []);
    if policy.startOpsPerS <= policy.maxOpsPerS {
      DriversAgreeFrom(policy, datapoint, policy.startOpsPerS, []);
    }
  }

  /** Above the maximum the list sweep fails, and the adaptive one still runs one point, no more. */
  lemma StartAboveMaximum(policy: Policy, datapoint: Datapoint)
    requires Validate(policy).Ok? && Echoes(datapoint) && policy.startOpsPerS > policy.maxOpsPerS
    ensures ListSweep(policy, datapoint, [], None) == Err(NoTargetRates)
    ensures var r := AdaptiveFrom(policy, datapoint, policy.startOpsPerS, []);
            if datapoint(policy.startOpsPerS).Err? then r == Err(DatapointFailed(datapoint(policy.startOpsPerS).error))
            else r.Ok? && r.value.visited == [policy.startOpsPerS]
  {
    if datapoint(policy.startOpsPerS).Ok? {
      var start := policy.startOpsPerS;
      assert start * policy.stepMultiplier - start == start * (policy.stepMultiplier - 1.0);
    }
  }

  function Power(base: real, exponent: nat): real { if exponent == 0 then 1.0 else Power(base, exponent - 1) * base }

  /** A point after which the sweep goes on: nothing failed that it should stop for, and the target
      was achieved. */
  ghost predicate PointGoesOn(policy: Policy, outcome: Outcome) {
    && (policy.stopOnFailure ==> outcome.failedTasks == 0)
    && outcome.targetOpsPerS > 0.0
    && outcome.successfulOpsPerS >= policy.saturationAchievedRatio * outcome.targetOpsPerS
  }

  /** The last point, after `count` in all, accounts for the reason. */
  ghost predicate PointStops(policy: Policy, outcome: Outcome, count: nat, reason: StopReason) {
    match reason
    case FailedTasks => policy.stopOnFailure && outcome.failedTasks > 0
    case Saturated =>
      && (policy.stopOnFailure ==> outcome.failedTasks == 0)
      && !(&& outcome.targetOpsPerS > 0.0
           && outcome.successfulOpsPerS >= policy.saturationAchievedRatio * outcome.targetOpsPerS)
    case MaxPoints => PointGoesOn(policy, outcome) && count >= policy.maxPoints
    case MaxOpsPerS =>
      && PointGoesOn(policy, outcome) && count < policy.maxPoints
      && outcome.targetOpsPerS * policy.stepMultiplier > policy.maxOpsPerS
  }

  lemma DecisionTells(policy: Policy, count: nat, outcome: Outcome)
    ensures var decision := DecideAfter(policy, count, outcome);
            && (decision.Continue? ==> && PointGoesOn(policy, outcome) && count < policy.maxPoints
                                       && decision.nextOpsPerS == outcome.targetOpsPerS * policy.stepMultiplier
                                       && decision.nextOpsPerS <= policy.maxOpsPerS)
            && (decision.Stop? ==> PointStops(policy, outcome, count, decision.reason))
  {
    hide DecideAfter;
    DecisionIff(policy, count, outcome);
  }

  /** The points run so far, each of which let the sweep go on. */
  ghost predicate AllGoOn(policy: Policy, datapoint: Datapoint, visited: seq<real>) {
    forall k :: 0 <= k < |visited| ==> datapoint(visited[k]).Ok? && PointGoesOn(policy, datapoint(visited[k]).value)
  }

  /** They are the start times successive powers of the multiplier, within `maxPoints` and, after the
      first, within the maximum; `rate` is the next. */
  ghost predicate GoesOn(policy: Policy, datapoint: Datapoint, visited: seq<real>, rate: real) {
    && (|visited| < policy.maxPoints || visited == [])
    && rate == policy.startOpsPerS * Power(policy.stepMultiplier, |visited|)
    && (visited != [] ==> rate <= policy.maxOpsPerS)
    && (forall k :: 0 <= k < |visited| ==>
          && visited[k] == policy.startOpsPerS * Power(policy.stepMultiplier, k)
          && (k > 0 ==> visited[k] <= policy.maxOpsPerS))
    && AllGoOn(policy, datapoint, visited)
  }

  /** A whole sweep: every point but the last let it go on, and the last gave the reason to stop. */
  ghost predicate Explained(policy: Policy, datapoint: Datapoint, end: SweepEnd) {
    && end.visited != [] && !end.exhausted
    && var last := |end.visited| - 1;
    && GoesOn(policy, datapoint, end.visited[..last], end.visited[last])
    && datapoint(end.visited[last]).Ok?
    && PointStops(policy, datapoint(end.visited[last]).value, |end.visited|, end.reason)
  }

  /** A sweep that gave up: every point so far let it go on, and the next could not be run. */
  ghost predicate Broken(policy: Policy, datapoint: Datapoint, error: SweepError) {
    exists visited, rate :: GoesOn(policy, datapoint, visited, rate)
                         && datapoint(rate).Err? && error == DatapointFailed(datapoint(rate).error)
  }

  lemma NextIsPower(start: real, rate: real, multiplier: real, k: nat)
    requires rate == start * Power(multiplier, k)
    ensures rate * multiplier == start * Power(multiplier, k + 1)
  {}

  lemma GoesOnOneMore(policy: Policy, datapoint: Datapoint, visited: seq<real>, rate: real, next: real)
    requires Echoes(datapoint) && GoesOn(policy, datapoint, visited, rate) && datapoint(rate).Ok?
    requires DecideAfter(policy, |visited| + 1, datapoint(rate).value) == Continue(next)
    ensures GoesOn(policy, datapoint, visited + [rate], next)
  {
    hide DecideAfter, Power, PointGoesOn;
    DecisionTells(policy, |visited| + 1, datapoint(rate).value);
    NextIsPower(policy.startOpsPerS, rate, policy.stepMultiplier, |visited|);
  }

  lemma {:induction false} SweepExplainedFrom(policy: Policy, datapoint: Datapoint, visited: seq<real>, rate: real)
    requires Echoes(datapoint) && GoesOn(policy, datapoint, visited, rate)
    ensures var r := AdaptiveFrom(policy, datapoint, rate, visited);
            if r.Ok? then Explained(policy, datapoint, r.value) else Broken(policy, datapoint, r.error)
    decreases if |visited| < policy.maxPoints then policy.maxPoints - |visited| else 0
  {
    hide DecideAfter, GoesOn, PointStops, PointGoesOn;
    if datapoint(rate).Ok? {
      var decision := DecideAfter(policy, |visited| + 1, datapoint(rate).value);
      DecisionTells(policy, |visited| + 1, datapoint(rate).value);
      if decision.Continue? {
        GoesOnOneMore(policy, datapoint, visited, rate, decision.nextOpsPerS);
        SweepExplainedFrom(policy, datapoint, visited + [rate], decision.nextOpsPerS);
      } else {
        assert (visited + [rate])[..|visited|] == visited;
      }
    }
  }

  lemma SweepIsExplained(policy: Policy, datapoint: Datapoint)
    requires Echoes(datapoint)
    ensures var r := AdaptiveFrom(policy, datapoint, policy.startOpsPerS, []);
            if r.Ok? then Explained(policy, datapoint, r.value) else Broken(policy, datapoint, r.error)
  {
    assert Power(policy.stepMultiplier, 0) == 1.0;
    SweepExplainedFrom(policy, datapoint, [], policy.startOpsPerS);
  }

  // ------------------------------------------------------------ the list, and what is made of it

  lemma {:induction false} RatesAreMultiples(policy: Policy, rate: real, count: nat, k: nat)
    requires k < |RatesFrom(policy, rate, count)|
    ensures RatesFrom(policy, rate, count)[k] == rate * Power(policy.stepMultiplier, k) <= policy.maxOpsPerS
    decreases k
  {
    if k > 0 {
      RatesAreMultiples(policy, NextRate(policy, rate), count - 1, k - 1);
      OnePowerOn(rate, policy.stepMultiplier, k - 1);
    }
  }

  lemma OnePowerOn(rate: real, base: real, k: nat)
    ensures (rate * base) * Power(base, k) == rate * Power(base, k + 1)
  {
    assert base * Power(base, k) == Power(base, k + 1);
    Reassociate(rate, base, Power(base, k));
  }

  lemma Reassociate(a: real, b: real, c: real)
    ensures (a * b) * c == a * (b * c)
  {}

  lemma {:induction false} RatesGoAsFarAsTheyCan(policy: Policy, rate: real, count: nat)
    ensures var n := |RatesFrom(policy, rate, count)|;
            n <= count && (n < count ==> rate * Power(policy.stepMultiplier, n) > policy.maxOpsPerS)
    decreases count
  {
    if count > 0 && rate <= policy.maxOpsPerS {
      RatesGoAsFarAsTheyCan(policy, NextRate(policy, rate), count - 1);
      OnePowerOn(rate, policy.stepMultiplier, |RatesFrom(policy, NextRate(policy, rate), count - 1)|);
    }
  }

  /** The successive multiples of the start, as many as the point count and the maximum allow. */
  ghost predicate AreMultiples(policy: Policy, rates: seq<real>) {
    && |rates| <= policy.maxPoints
    && (|rates| < policy.maxPoints ==>
          policy.startOpsPerS * Power(policy.stepMultiplier, |rates|) > policy.maxOpsPerS)
    && forall k :: 0 <= k < |rates| ==>
         rates[k] == policy.startOpsPerS * Power(policy.stepMultiplier, k) <= policy.maxOpsPerS
  }

  lemma RatesFromStart(policy: Policy)
    ensures AreMultiples(policy, RatesFrom(policy, policy.startOpsPerS, policy.maxPoints))
  {
    hide Power, RatesFrom;
    var start, count := policy.startOpsPerS, policy.maxPoints;
    RatesGoAsFarAsTheyCan(policy, start, count);
    forall k | 0 <= k < |RatesFrom(policy, start, count)|
      ensures RatesFrom(policy, start, count)[k] == start * Power(policy.stepMultiplier, k) <= policy.maxOpsPerS
    {
      RatesAreMultiples(policy, start, count, k);
    }
  }

  /** Explicit points are taken as they are, then an offered rate; otherwise the list holds the
      multiples of the start, and it is an error if there is none. */
  lemma ListedRatesAre(policy: Policy, points: seq<real>, offered: Option<real>)
    ensures var r := ListedRates(policy, points, offered);
            && (points != [] ==> r == Ok(points))
            && (points == [] && offered.Some? ==> r == Ok([offered.value]))
            && (points == [] && offered.None? ==>
                  && (r.Ok? <==> policy.maxPoints > 0 && policy.startOpsPerS <= policy.maxOpsPerS)
                  && (r.Ok? ==> AreMultiples(policy, r.value))
                  && (r.Err? ==> r.error == NoTargetRates))
  {
    hide AreMultiples;
    RatesFromStart(policy);
  }

  /** A sweep over a list runs the list's rates in order: every point but the last let it go on, and
      the last gave the reason, or let it go on too when the list ran out, which counts as MaxPoints. */
  ghost predicate ListExplained(policy: Policy, datapoint: Datapoint, rates: seq<real>, end: SweepEnd) {
    && end.visited <= rates
    && (end.exhausted ==>
          && end.visited == rates && end.reason == MaxPoints
          && AllGoOn(policy, datapoint, end.visited))
    && (!end.exhausted ==>
          && end.visited != []
          && var last := |end.visited| - 1;
          && AllGoOn(policy, datapoint, end.visited[..last])
          && datapoint(end.visited[last]).Ok?
          && PointStops(policy, datapoint(end.visited[last]).value, |end.visited|, end.reason))
  }

  ghost predicate ListBroken(policy: Policy, datapoint: Datapoint, rates: seq<real>, error: SweepError) {
    exists k :: 0 <= k < |rates| && AllGoOn(policy, datapoint, rates[..k])
             && datapoint(rates[k]).Err? && error == DatapointFailed(datapoint(rates[k]).error)
  }

  lemma {:induction false} ListExplainedFrom(policy: Policy, datapoint: Datapoint, rates: seq<real>, k: nat)
    requires k <= |rates| && AllGoOn(policy, datapoint, rates[..k])
    ensures var r := ListFrom(policy, datapoint, rates[k..], rates[..k]);
            if r.Ok? then ListExplained(policy, datapoint, rates, r.value)
            else ListBroken(policy, datapoint, rates, r.error)
    decreases |rates| - k
  {
    hide DecideAfter, PointStops, PointGoesOn;
    if k < |rates| {
      var rate := rates[k];
      assert rates[k..][0] == rate && rates[k..][1..] == rates[k + 1..] && rates[..k] + [rate] == rates[..k + 1];
      if datapoint(rate).Ok? {
        DecisionTells(policy, k + 1, datapoint(rate).value);
        if DecideAfter(policy, k + 1, datapoint(rate).value).Continue? {
          ListExplainedFrom(policy, datapoint, rates, k + 1);
        } else {
          assert rates[..k + 1][..k] == rates[..k];
        }
      }
    } else {
      assert rates[..k] == rates;
    }
  }

  lemma ListIsExplained(policy: Policy, datapoint: Datapoint, rates: seq<real>)
    ensures var r := ListFrom(policy, datapoint, rates, []);
            if r.Ok? then ListExplained(policy, datapoint, rates, r.value)
            else ListBroken(policy, datapoint, rates, r.error)
  {
    ListExplainedFrom(policy, datapoint, rates, 0);
    assert rates[0..] == rates;
  }
}
