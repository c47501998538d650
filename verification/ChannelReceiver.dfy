/** The channel receiver (channel_receiver_on_node in src/rpc/server/channel.rs).

    Bounded pop tasks feed a queue of elements, which feeds bounded materialize tasks. The
    receiver is one object; its methods are the loops and helpers of the source. Tasks, the
    canceller and the clock run between any two of its steps: `Interleave` performs any number
    of their steps, chosen freely, and every join takes any task that has ended. */
module ChannelReceiver {
  import opened Latency
  import opened Numbers
  import opened ReceiverTally
  import opened Sorting
  import opened Wrappers

  const CANCELLED_MESSAGE := "receiver cancelled before EOF"
  const TIMED_OUT_MESSAGE := "receiver timed out before EOF"

  /** A spawned task: not yet run, at work, or ended and not yet joined. Pops are numbered as they are
      spawned, materializations as their elements leave the queue. */
  datatype Task<R> = Fresh(id: nat) | AtWork(id: nat) | Ended(id: nat, result: Result<R, string>)

  /** A pop at work is past its check of the flags. */
  type PopTask = Task<PopOutcome>

  /** A materialization begins at once. */
  type MaterializeTask = Task<MaterializeOutcome>

  datatype Request = Request(
    pollTargetOpsPerS: real, pollConcurrency: nat, materializeConcurrency: nat, pollPeriod: nat, deadline: Option<nat>)

  datatype ReceiverResult = ReceiverResult(
    deliveredCount: nat, deliveredBytes: nat, emptyPolls: nat, transientPollErrors: nat,
    timedOut: bool, cancelled: bool, eof: Option<EofMark>,
    deliveryLatency: LatencySummary, materializeLatency: LatencySummary,
    deliverySamplesMs: seq<real>, materializeSamplesMs: seq<real>, failureMessages: seq<string>)

  /** How one round of the main loop ends. */
  datatype Round = Again | Leave | Failure(error: string)

  /** `StillRunning`: the main loop was left running after the given number of rounds. */
  datatype Outcome = StillRunning | Returned(result: Result<ReceiverResult, string>)

  /** Where among the handled materializations the main loop was left early, and its message. */
  datatype Stop = Stop(at: nat, message: string)

  /** All failure messages in the order in which they were offered for retention. */
  ghost function FailureLog(outcomes: seq<MaterializeOutcome>, stop: Option<Stop>): seq<string>
    requires stop.Some? ==> stop.value.at <= |outcomes|
  {
    var all := TallyMaterialized(outcomes).failures;
    if stop.None? then all
    else
      var before := |TallyMaterialized(outcomes[..stop.value.at]).failures|;
      if before <= |all| then all[..before] + [stop.value.message] + all[before..] else all
  }

  function Retained(log: seq<string>): seq<string> {
    if |log| <= MAX_RETAINED_FAILURES then log else log[..MAX_RETAINED_FAILURES]
  }

  lemma RetainedAppend(log: seq<string>, message: string)
    ensures Retained(log + [message])
         == if |Retained(log)| < MAX_RETAINED_FAILURES then Retained(log) + [message] else Retained(log)
    ensures Retained(log + []) == Retained(log)
  {
    assert log + [] == log;
  }

  lemma {:induction false} FailuresGrow(outcomes: seq<MaterializeOutcome>, at: nat)
    requires at <= |outcomes|
    ensures TallyMaterialized(outcomes[..at]).failures <= TallyMaterialized(outcomes).failures
    decreases |outcomes|
  {
    if at == |outcomes| {
      assert outcomes[..at] == outcomes;
    } else {
      var before, last := outcomes[..|outcomes| - 1], outcomes[|outcomes| - 1];
      FailuresGrow(before, at);
      assert before[..at] == outcomes[..at];
      assert TallyMaterialized(outcomes) == AddMaterialized(TallyMaterialized(before), last);
    }
  }

  lemma TallyAppend(outcomes: seq<MaterializeOutcome>, x: MaterializeOutcome)
    ensures TallyMaterialized(outcomes + [x]) == AddMaterialized(TallyMaterialized(outcomes), x)
  {
    assert (outcomes + [x])[..|outcomes|] == outcomes;
  }

  lemma PopTallyAppend(pops: seq<PopOutcome>, x: PopOutcome)
    ensures TallyPops(pops + [x]) == AddPop(TallyPops(pops), x)
  {
    assert (pops + [x])[..|pops|] == pops;
  }

  lemma InsertedAppend(all: seq<string>, at: nat, message: string, more: seq<string>)
    requires at <= |all|
    ensures (all + more)[..at] + [message] + (all + more)[at..] == all[..at] + [message] + all[at..] + more
  {}

  lemma LogAppend(outcomes: seq<MaterializeOutcome>, x: MaterializeOutcome, stop: Option<Stop>)
    requires stop.Some? ==> stop.value.at <= |outcomes|
    ensures FailureLog(outcomes + [x], stop)
         == FailureLog(outcomes, stop) + if x.Failed? then [x.message] else []
  {
    hide TallyMaterialized;
    TallyAppend(outcomes, x);
    var all := TallyMaterialized(outcomes).failures;
    var more := if x.Failed? then [x.message] else [];
    assert TallyMaterialized(outcomes + [x]).failures == all + more;
    if stop.Some? {
      var at := stop.value.at;
      FailuresGrow(outcomes, at);
      assert (outcomes + [x])[..at] == outcomes[..at];
      InsertedAppend(all, |TallyMaterialized(outcomes[..at]).failures|, stop.value.message, more);
    }
  }

  lemma LogStops(outcomes: seq<MaterializeOutcome>, message: string)
    ensures FailureLog(outcomes, Some(Stop(|outcomes|, message))) == FailureLog(outcomes, None) + [message]
  {
    assert outcomes[..|outcomes|] == outcomes;
  }

  /** The kept messages: those of the failures in order, with that of an early end where it came, cut
      at the limit. */
  ghost predicate MessagesTold(outcomes: seq<MaterializeOutcome>, stop: Option<Stop>, messages: seq<string>) {
    && (stop.Some? ==> stop.value.at <= |outcomes|)
    && |messages| == Min(Count(outcomes, IsFailed) + (if stop.Some? then 1 else 0), MAX_RETAINED_FAILURES)
    && (forall k :: 0 <= k < |outcomes| && outcomes[k].Failed? ==>
          var place := PlaceOf(outcomes, stop, k);
          place < |messages| ==> messages[place] == outcomes[k].message)
    && (stop.Some? ==>
          var place := Count(outcomes[..stop.value.at], IsFailed);
          place < |messages| ==> messages[place] == stop.value.message)
  }

  /** The messages offered before that of outcome k. */
  ghost function PlaceOf(outcomes: seq<MaterializeOutcome>, stop: Option<Stop>, k: nat): nat
    requires k < |outcomes|
  {
    Count(outcomes[..k], IsFailed) + if stop.Some? && stop.value.at <= k then 1 else 0
  }

  lemma CountsGrow(outcomes: seq<MaterializeOutcome>, j: nat, k: nat)
    requires j <= k <= |outcomes|
    ensures Count(outcomes[..j], IsFailed) <= Count(outcomes[..k], IsFailed)
    ensures j < k && outcomes[j].Failed? ==> Count(outcomes[..j], IsFailed) < Count(outcomes[..k], IsFailed)
  {
    assert outcomes[..k] == outcomes[..j] + outcomes[j..k];
    CountSplits(outcomes[..j], outcomes[j..k], IsFailed);
  }

  /** The failure log, place by place. */
  lemma LogTells(outcomes: seq<MaterializeOutcome>, stop: Option<Stop>)
    requires stop.Some? ==> stop.value.at <= |outcomes|
    ensures var log := FailureLog(outcomes, stop);
            && |log| == Count(outcomes, IsFailed) + (if stop.Some? then 1 else 0)
            && (forall k :: 0 <= k < |outcomes| && outcomes[k].Failed? ==>
                  PlaceOf(outcomes, stop, k) < |log| && log[PlaceOf(outcomes, stop, k)] == outcomes[k].message)
            && (stop.Some? ==>
                  var place := Count(outcomes[..stop.value.at], IsFailed);
                  place < |log| && log[place] == stop.value.message)
  {
    hide TallyMaterialized, Count;
    TallyTellsFailures(outcomes);
    if stop.Some? {
      var at := stop.value.at;
      TallyTellsFailures(outcomes[..at]);
      FailuresGrow(outcomes, at);
      forall k | 0 <= k < |outcomes| && outcomes[k].Failed?
        ensures k < at ==> Count(outcomes[..k], IsFailed) < Count(outcomes[..at], IsFailed)
        ensures k >= at ==> Count(outcomes[..k], IsFailed) >= Count(outcomes[..at], IsFailed)
      {
        if k < at { CountsGrow(outcomes, k, at); } else { CountsGrow(outcomes, at, k); }
      }
    }
  }

  lemma RetainedTells(outcomes: seq<MaterializeOutcome>, stop: Option<Stop>)
    requires stop.Some? ==> stop.value.at <= |outcomes|
    ensures MessagesTold(outcomes, stop, Retained(FailureLog(outcomes, stop)))
  {
    hide FailureLog, PlaceOf, Count;
    LogTells(outcomes, stop);
  }

  /** The set after the task at place i was joined. */
  function Without<R>(tasks: seq<Task<R>>, i: nat): (others: seq<Task<R>>)
    requires i < |tasks|
    ensures |others| == |tasks| - 1
  {
    tasks[..i] + tasks[i + 1..]
  }

  /** Each of the n tasks spawned so far is still in the set or was joined, once. */
  ghost predicate EachOnce<R>(n: nat, joined: seq<nat>, tasks: seq<Task<R>>) {
    && |joined| + |tasks| == n
    && (forall i :: 0 <= i < |tasks| ==> tasks[i].id < n)
    && (forall i :: 0 <= i < |joined| ==> joined[i] < n)
    && (forall i, j :: 0 <= i < j < |tasks| ==> tasks[i].id != tasks[j].id)
    && (forall i, j :: 0 <= i < j < |joined| ==> joined[i] != joined[j])
    && (forall i, j :: 0 <= i < |joined| && 0 <= j < |tasks| ==> joined[i] != tasks[j].id)
  }

  /** `brought` holds what the ended tasks brought, by number: it waits in its task or has been
      handled. */
  ghost predicate AllKept<R>(brought: map<nat, R>, tasks: seq<Task<R>>, joined: seq<nat>, handled: seq<R>) {
    && |joined| == |handled|
    && (forall i :: 0 <= i < |joined| ==> joined[i] in brought && brought[joined[i]] == handled[i])
    && (forall i :: 0 <= i < |tasks| && tasks[i].Ended? && tasks[i].result.Ok? ==>
          tasks[i].id in brought && brought[tasks[i].id] == tasks[i].result.value)
  }

  /** Each of the n tasks was joined once, and what it brought was handled in that order. */
  ghost predicate HandledOnce<R>(n: nat, brought: map<nat, R>, joined: seq<nat>, handled: seq<R>) {
    && |joined| == |handled| == n
    && (forall i :: 0 <= i < n ==> joined[i] < n && joined[i] in brought && handled[i] == brought[joined[i]])
    && (forall i, j :: 0 <= i < j < n ==> joined[i] != joined[j])
  }

  lemma NoneLeft<R>(n: nat, joined: seq<nat>, tasks: seq<Task<R>>, brought: map<nat, R>, handled: seq<R>)
    requires EachOnce(n, joined, tasks) && AllKept(brought, tasks, joined, handled) && tasks == []
    ensures HandledOnce(n, brought, joined, handled)
  {}

  lemma StartOne<R>(n: nat, joined: seq<nat>, tasks: seq<Task<R>>, task: Task<R>,
                    brought: map<nat, R>, handled: seq<R>)
    requires EachOnce(n, joined, tasks) && AllKept(brought, tasks, joined, handled)
    requires task.id == n && !task.Ended?
    ensures EachOnce(n + 1, joined, tasks + [task]) && AllKept(brought, tasks + [task], joined, handled)
  {}

  lemma AdvanceOne<R>(n: nat, joined: seq<nat>, tasks: seq<Task<R>>, i: nat, brought: map<nat, R>, handled: seq<R>)
    requires EachOnce(n, joined, tasks) && AllKept(brought, tasks, joined, handled)
    requires i < |tasks|
    ensures var after := tasks[i := AtWork(tasks[i].id)];
            EachOnce(n, joined, after) && AllKept(brought, after, joined, handled)
  {}

  ghost function Bringing<R>(brought: map<nat, R>, id: nat, result: Result<R, string>): map<nat, R> {
    if result.Ok? then brought[id := result.value] else brought
  }

  lemma EndOne<R>(n: nat, joined: seq<nat>, tasks: seq<Task<R>>, i: nat, result: Result<R, string>,
                  brought: map<nat, R>, handled: seq<R>)
    requires EachOnce(n, joined, tasks) && AllKept(brought, tasks, joined, handled)
    requires i < |tasks|
    ensures var after := tasks[i := Ended(tasks[i].id, result)];
            EachOnce(n, joined, after) && AllKept(Bringing(brought, tasks[i].id, result), after, joined, handled)
  {}

  lemma FinishOne<R>(n: nat, joined: seq<nat>, tasks: seq<Task<R>>, i: nat, brought: map<nat, R>, handled: seq<R>)
    requires EachOnce(n, joined, tasks) && AllKept(brought, tasks, joined, handled)
    requires i < |tasks| && tasks[i].Ended? && tasks[i].result.Ok?
    ensures EachOnce(n, joined + [tasks[i].id], Without(tasks, i))
    ensures AllKept(brought, Without(tasks, i), joined + [tasks[i].id], handled + [tasks[i].result.value])
  {
    var after := Without(tasks, i);
    forall j | 0 <= j < |after| ensures after[j] == tasks[if j < i then j else j + 1] {}
  }

  lemma EnqueuedLast(started: seq<Element>, pending: seq<Element>, element: Element)
    ensures started + (pending + [element]) == (started + pending) + [element]
  {}

  lemma DequeuedFirst(started: seq<Element>, pending: seq<Element>)
    requires pending != []
    ensures (started + [pending[0]]) + pending[1..] == started + pending
  {}

  predicate SawEof(t: PopTask) {
    t.Ended? && t.result.Ok? && t.result.value.Eof?
  }

  ghost predicate SomeSawEof(tasks: seq<PopTask>) {
    exists i :: 0 <= i < |tasks| && SawEof(tasks[i])
  }

  lemma SawEofRemoved(tasks: seq<PopTask>, i: nat)
    requires i < |tasks|
    ensures SomeSawEof(tasks) <==> SawEof(tasks[i]) || SomeSawEof(Without(tasks, i))
  {
    var after := Without(tasks, i);
    if j :| 0 <= j < |tasks| && SawEof(tasks[j]) && j != i {
      assert after[if j < i then j else j - 1] == tasks[j];
    }
    if j :| 0 <= j < |after| && SawEof(after[j]) {
      assert tasks[if j < i then j else j + 1] == after[j];
    }
  }

  lemma SawEofUpdated(tasks: seq<PopTask>, i: nat, t: PopTask)
    requires i < |tasks| && !SawEof(tasks[i])
    ensures SomeSawEof(tasks[i := t]) <==> SawEof(t) || SomeSawEof(tasks)
  {
    if j :| 0 <= j < |tasks| && SawEof(tasks[j]) {
      assert tasks[i := t][j] == tasks[j];
    }
    assert tasks[i := t][i] == t;
  }

  /** Counts, samples and kept messages are those of the handled materializations. */
  ghost predicate ResultsMatch(outcomes: seq<MaterializeOutcome>, stop: Option<Stop>, delivered: nat, bytes: nat,
                               deliverySamples: seq<real>, materializeSamples: seq<real>, messages: seq<string>)
  {
    && TallyMaterialized(outcomes) == MaterializeTally(
         delivered, bytes, deliverySamples, materializeSamples, TallyMaterialized(outcomes).failures)
    && (stop.Some? ==> stop.value.at <= |outcomes|)
    && messages == Retained(FailureLog(outcomes, stop))
  }

  lemma DeliveredMatches(outcomes: seq<MaterializeOutcome>, stop: Option<Stop>, delivered: nat, bytes: nat,
                         deliverySamples: seq<real>, materializeSamples: seq<real>, messages: seq<string>,
                         outcome: MaterializeOutcome)
    requires ResultsMatch(outcomes, stop, delivered, bytes, deliverySamples, materializeSamples, messages)
    requires outcome.Delivered?
    ensures ResultsMatch(outcomes + [outcome], stop, delivered + 1, SaturatingAdd(bytes, outcome.bytes),
                         deliverySamples + [outcome.deliveryMs], materializeSamples + [outcome.materializeMs], messages)
  {
    hide FailureLog, TallyMaterialized, Retained;
    TallyAppend(outcomes, outcome);
    LogAppend(outcomes, outcome, stop);
    RetainedAppend(FailureLog(outcomes, stop), "");
  }

  lemma FailedMatches(outcomes: seq<MaterializeOutcome>, stop: Option<Stop>, delivered: nat, bytes: nat,
                      deliverySamples: seq<real>, materializeSamples: seq<real>, messages: seq<string>,
                      outcome: MaterializeOutcome)
    requires ResultsMatch(outcomes, stop, delivered, bytes, deliverySamples, materializeSamples, messages)
    requires outcome.Failed?
    ensures ResultsMatch(outcomes + [outcome], stop, delivered, bytes, deliverySamples, materializeSamples,
                         if |messages| < MAX_RETAINED_FAILURES then messages + [outcome.message] else messages)
  {
    hide FailureLog, TallyMaterialized, Retained;
    TallyAppend(outcomes, outcome);
    LogAppend(outcomes, outcome, stop);
    RetainedAppend(FailureLog(outcomes, stop), outcome.message);
  }

  lemma StoppedMatches(outcomes: seq<MaterializeOutcome>, delivered: nat, bytes: nat,
                       deliverySamples: seq<real>, materializeSamples: seq<real>, messages: seq<string>,
                       message: string)
    requires ResultsMatch(outcomes, None, delivered, bytes, deliverySamples, materializeSamples, messages)
    ensures ResultsMatch(outcomes, Some(Stop(|outcomes|, message)), delivered, bytes,
                         deliverySamples, materializeSamples,
                         if |messages| < MAX_RETAINED_FAILURES then messages + [message] else messages)
  {
    hide FailureLog, TallyMaterialized, Retained;
    LogStops(outcomes, message);
    RetainedAppend(FailureLog(outcomes, None), message);
  }

  /** The main loop is left early at most once, and for the reason reported. */
  ghost predicate StopMatches(stop: Option<Stop>, cancelled: bool, timedOut: bool, cancelFlag: bool,
                              deadline: Option<nat>, clock: nat)
  {
    && !(cancelled && timedOut)
    && (stop.Some? <==> cancelled || timedOut)
    && (cancelled ==> cancelFlag && stop.value.message == CANCELLED_MESSAGE)
    && (timedOut ==> stop.value.message == TIMED_OUT_MESSAGE && deadline.Some? && deadline.value <= clock)
  }

  lemma FreshSawNothing(tasks: seq<PopTask>, id: nat)
    ensures SomeSawEof(tasks + [Fresh(id)]) <==> SomeSawEof(tasks)
  {
    if j :| 0 <= j < |tasks| && SawEof(tasks[j]) {
      assert (tasks + [Fresh(id)])[j] == tasks[j];
    }
  }

  lemma OnePeriodMore(rounds: nat, period: nat)
    ensures (rounds + 1) * period == rounds * period + period
    ensures rounds > 0 ==> rounds * period == (rounds - 1) * period + period
  {}

  lemma {:induction false} PeriodsReach(rounds: nat, period: nat)
    requires period > 0
    ensures rounds * period >= rounds
  {
    if rounds > 0 {
      PeriodsReach(rounds - 1, period);
      OnePeriodMore(rounds, period);
    }
  }

  class Receiver {
    const request: Request

    // Shared with the tasks, the canceller and the clock.
    var eofSeen: bool
    var cancelFlag: bool
    var clock: nat

    // The locals of the receiver.
    var nextPollAt: nat
    var deliveredCount: nat
    var deliveredBytes: nat
    var emptyPolls: nat
    var transientPollErrors: nat
    var timedOut: bool
    var cancelled: bool
    var eof: Option<EofMark>
    var popTasks: seq<PopTask>
    var pendingMaterialize: seq<Element>
    var materializeTasks: seq<MaterializeTask>
    var deliverySamples: seq<real>
    var materializeSamples: seq<real>
    var failureMessages: seq<string>

    // The pops spawned and the elements taken from the queue so far; their numbers name the tasks.
    var spawnedPops: nat
    var started: seq<Element>

    // History: what the ended tasks brought, in which order they were joined, what was handled, and
    // the early end of the main loop.
    ghost var popped: map<nat, PopOutcome>
    ghost var joinedPops: seq<nat>
    ghost var results: map<nat, MaterializeOutcome>
    ghost var pops: seq<PopOutcome>
    ghost var finished: seq<nat>
    ghost var outcomes: seq<MaterializeOutcome>
    ghost var stop: Option<Stop>

    // A join failed, a task returned a hard error, or a step outside the two loops failed.
    ghost var broken: bool

    ghost predicate WithinLimits()
      reads `popTasks, `materializeTasks
    {
      |popTasks| <= request.pollConcurrency && |materializeTasks| <= request.materializeConcurrency
    }

    /** The counters, the EOF mark and the queue hold what the handled pops brought. */
    ghost predicate PopsTallied()
      reads `pops, `emptyPolls, `transientPollErrors, `eof, `started, `pendingMaterialize
    {
      TallyPops(pops) == PopTally(emptyPolls, transientPollErrors, eof, started + pendingMaterialize)
    }

    ghost predicate PopsAccountedFor()
      reads `spawnedPops, `joinedPops, `popTasks, `popped, `pops
    {
      EachOnce(spawnedPops, joinedPops, popTasks) && AllKept(popped, popTasks, joinedPops, pops)
    }

    ghost predicate ElementsAccountedFor()
      reads `finished, `outcomes, `started, `materializeTasks, `results
    {
      EachOnce(|started|, finished, materializeTasks) && AllKept(results, materializeTasks, finished, outcomes)
    }

    ghost predicate ResultsTallied()
      reads `outcomes, `stop, `deliveredCount, `deliveredBytes, `deliverySamples, `materializeSamples, `failureMessages
    {
      ResultsMatch(outcomes, stop, deliveredCount, deliveredBytes, deliverySamples, materializeSamples, failureMessages)
    }

    ghost predicate StopExplained()
      reads `stop, `cancelled, `timedOut, `cancelFlag, `clock
    {
      StopMatches(stop, cancelled, timedOut, cancelFlag, request.deadline, clock)
    }

    /** The shared flag is raised exactly when some EOF has been handled or waits to be. */
    ghost predicate EofFlagExplained()
      reads `eofSeen, `eof, `popTasks
    {
      eofSeen <==> eof.Some? || SomeSawEof(popTasks)
    }

    ghost predicate PopSide()
      reads `pops, `emptyPolls, `transientPollErrors, `eof, `started, `pendingMaterialize
      reads `spawnedPops, `joinedPops, `popTasks, `popped, `eofSeen
    {
      PopsTallied() && PopsAccountedFor() && EofFlagExplained()
    }

    ghost predicate MaterializeSide()
      reads `outcomes, `stop, `deliveredCount, `deliveredBytes, `deliverySamples, `materializeSamples, `failureMessages
      reads `finished, `started, `materializeTasks, `results
    {
      ElementsAccountedFor() && ResultsTallied()
    }

    ghost predicate Valid()
      reads this
    {
      WithinLimits() && PopSide() && MaterializeSide() && StopExplained()
    }

    /** Work left once no more pops are spawned: a pop may become a queued element, a queued
        element becomes a task. */
    ghost function Work(): nat
      reads this
    {
      3 * |popTasks| + 2 * |pendingMaterialize| + |materializeTasks|
    }

    /** What the helpers and the other threads leave alone; flags and clock only rise. */
    twostate predicate Kept()
      reads this
    {
      && spawnedPops == old(spawnedPops) && nextPollAt == old(nextPollAt) && stop == old(stop)
      && cancelled == old(cancelled) && timedOut == old(timedOut)
      && (old(eofSeen) ==> eofSeen) && (old(cancelFlag) ==> cancelFlag) && old(clock) <= clock
    }

    constructor (request: Request)
      ensures Valid() && this.request == request
      ensures popTasks == [] && spawnedPops == 0 && stop == None && !eofSeen && !broken
    {
      this.request := request;
      eofSeen, cancelFlag, clock, nextPollAt := false, false, 0, 0;
      deliveredCount, deliveredBytes, emptyPolls, transientPollErrors := 0, 0, 0, 0;
      timedOut, cancelled, eof := false, false, None;
      popTasks, pendingMaterialize, materializeTasks := [], [], [];
      deliverySamples, materializeSamples, failureMessages := [], [], [];
      spawnedPops, popped, joinedPops, pops, started := 0, map[], [], [], [];
      results, finished, outcomes, stop, broken := map[], [], [], None, false;
    }

    // ---------------------------------------------------------- the other threads

    /** One step of pop task i: one that starts after EOF or a cancel is seen brings nothing, and the
        step that meets an EOF also raises the shared flag. */
    method AdvancePop(i: nat)
      requires Valid() && i < |popTasks|
      modifies `popTasks, `eofSeen, `popped
      ensures Valid() && |popTasks| == old(|popTasks|) && (old(eofSeen) ==> eofSeen)
      ensures popTasks == old(popTasks)[i := popTasks[i]] && popTasks[i].id == old(popTasks[i].id)
      ensures old(popTasks[i]).Ended? ==> popTasks == old(popTasks)
      ensures old(popTasks[i]).AtWork? ==> popTasks[i].Ended?
      ensures old(popTasks[i]).Fresh? ==>
                if old(eofSeen) || cancelFlag then popTasks[i].Ended? && popTasks[i].result == Ok(Empty)
                else popTasks[i].AtWork?
    {
      hide SomeSawEof, EachOnce, AllKept, MaterializeSide, StopExplained, PopsTallied;
      var id := popTasks[i].id;
      match popTasks[i]
      case Fresh(_) =>
        if eofSeen || cancelFlag {
          EndPop(i, Ok(Empty));
        } else {
          SawEofUpdated(popTasks, i, AtWork(id));
          AdvanceOne(spawnedPops, joinedPops, popTasks, i, popped, pops);
          popTasks := popTasks[i := AtWork(id)];
        }
      case AtWork(_) =>
        var result: Result<PopOutcome, string> := *;
        EndPop(i, result);
      case Ended(_, _) =>
    }

    method EndPop(i: nat, result: Result<PopOutcome, string>)
      requires Valid() && i < |popTasks| && !popTasks[i].Ended?
      modifies `popTasks, `eofSeen, `popped
      ensures Valid() && popTasks == old(popTasks)[i := Ended(old(popTasks[i].id), result)]
      ensures eofSeen == (old(eofSeen) || (result.Ok? && result.value.Eof?))
    {
      hide SomeSawEof, EachOnce, AllKept, MaterializeSide, StopExplained, PopsTallied;
      var ended := Ended(popTasks[i].id, result);
      SawEofUpdated(popTasks, i, ended);
      EndOne(spawnedPops, joinedPops, popTasks, i, result, popped, pops);
      popped := Bringing(popped, popTasks[i].id, result);
      popTasks := popTasks[i := ended];
      if SawEof(popTasks[i]) {
        eofSeen := true;
      }
    }

    method AdvanceMaterialize(i: nat)
      requires Valid() && i < |materializeTasks|
      modifies `materializeTasks, `results
      ensures Valid() && |materializeTasks| == old(|materializeTasks|)
      ensures materializeTasks[i].Ended?
    {
      hide EachOnce, AllKept, PopSide, ResultsTallied, StopExplained;
      if !materializeTasks[i].Ended? {
        var result: Result<MaterializeOutcome, string> := *;
        var id := materializeTasks[i].id;
        EndOne(|started|, finished, materializeTasks, i, result, results, outcomes);
        results := Bringing(results, id, result);
        materializeTasks := materializeTasks[i := Ended(id, result)];
      }
    }

    method Tick(elapsed: nat)
      requires Valid()
      modifies `clock
      ensures Valid() && clock == old(clock) + elapsed
    {
      hide PopSide, MaterializeSide;
      clock := clock + elapsed;
    }

    method Cancel()
      requires Valid()
      modifies `cancelFlag
      ensures Valid() && cancelFlag
    {
      hide PopSide, MaterializeSide;
      cancelFlag := true;
    }

    /** Any number of steps of the tasks, the canceller and the clock. */
    method Interleave()
      requires Valid()
      modifies `popTasks, `materializeTasks, `eofSeen, `cancelFlag, `clock, `popped, `results
      ensures Valid() && Kept()
      ensures |popTasks| == old(|popTasks|) && |materializeTasks| == old(|materializeTasks|)
    {
      hide Valid;
      var steps :| steps >= 0;
      while steps > 0
        invariant Valid() && Kept()
        invariant |popTasks| == old(|popTasks|) && |materializeTasks| == old(|materializeTasks|)
        decreases steps
      {
        if {
          case true =>
            var elapsed :| elapsed >= 0;
            Tick(elapsed);
          case true => Cancel();
          case |popTasks| > 0 =>
            var i: nat :| i < |popTasks|;
            AdvancePop(i);
          case |materializeTasks| > 0 =>
            var i: nat :| i < |materializeTasks|;
            AdvanceMaterialize(i);
        }
        steps := steps - 1;
      }
    }

    // ---------------------------------------------------------- the helpers of the source

    /** handle_receiver_pop_result; `joined` is what the join returned. */
    method HandlePopResult(joined: Result<PopOutcome, string>) returns (error: Option<string>)
      requires PopsTallied()
      modifies `emptyPolls, `transientPollErrors, `eof, `eofSeen, `pendingMaterialize, `pops, `broken
      ensures error.None? <==> joined.Ok?
      ensures broken == (old(broken) || joined.Err?)
      ensures joined.Ok? ==> PopsTallied() && pops == old(pops) + [joined.value]
      ensures joined.Ok? ==> eofSeen == (old(eofSeen) || joined.value.Eof?)
      ensures joined.Ok? ==> (eof.Some? <==> old(eof).Some? || joined.value.Eof?)
      ensures joined.Ok? ==> |pendingMaterialize| <= old(|pendingMaterialize|) + 1
      ensures joined.Err? ==> eofSeen == old(eofSeen)
    {
      if joined.Err? {
        broken := true;
        return Some(joined.error);
      }
      hide TallyPops;
      ghost var before := TallyPops(pops);
      assert before == PopTally(emptyPolls, transientPollErrors, eof, started + pendingMaterialize);
      PopTallyAppend(pops, joined.value);
      pops := pops + [joined.value];
      match joined.value {
        case Empty => emptyPolls := emptyPolls + 1;
        case TransientError(_) => transientPollErrors := transientPollErrors + 1;
        case Eof(seqNo, elapsedMs) =>
          eofSeen := true;
          if eof.None? {
            eof := Some(EofMark(seqNo, elapsedMs));
          }
        case Elem(element) =>
          EnqueuedLast(started, pendingMaterialize, element);
          pendingMaterialize := pendingMaterialize + [element];
      }
      error := None;
    }

    /** Takes the ended task at place i out of the set and handles its result; the join may fail. */
    method JoinPop(i: nat) returns (error: Option<string>)
      requires Valid() && i < |popTasks| && popTasks[i].Ended?
      modifies `popTasks, `emptyPolls, `transientPollErrors, `eof, `eofSeen, `pendingMaterialize, `pops, `broken
      modifies `joinedPops
      ensures Kept()
      ensures broken == (old(broken) || error.Some?)
      ensures error.None? ==> Valid() && |popTasks| == old(|popTasks|) - 1 && Work() < old(Work())
    {
      hide PopsTallied, MaterializeSide, StopExplained, SomeSawEof, EachOnce, AllKept, Without;
      SawEofRemoved(popTasks, i);
      var task := popTasks[i];
      if task.result.Ok? { FinishOne(spawnedPops, joinedPops, popTasks, i, popped, pops); }
      var joins: bool := *;
      popTasks, joinedPops := Without(popTasks, i), joinedPops + [task.id];
      if joins {
        error := HandlePopResult(task.result);
      } else {
        error := HandlePopResult(Err("receiver pop task join failed"));
      }
    }

    /** collect_receiver_pop_result: waits until some pop task has ended. */
    method CollectPop() returns (error: Option<string>)
      requires Valid()
      modifies this
      ensures Kept()
      ensures broken == (old(broken) || error.Some?)
      ensures error.None? ==> Valid() && Work() <= old(Work())
      ensures error.None? && old(popTasks) != [] ==> |popTasks| == old(|popTasks|) - 1 && Work() < old(Work())
    {
      hide PopSide, MaterializeSide, StopExplained;
      Interleave();
      if popTasks == [] {
        return None;
      }
      var i: nat :| i < |popTasks|;
      AdvancePop(i);
      AdvancePop(i);
      error := JoinPop(i);
    }

    /** drain_ready_receiver_pop_results: takes ended tasks until none is reported. */
    method DrainReadyPops() returns (error: Option<string>)
      requires Valid()
      modifies this
      ensures Kept()
      ensures broken == (old(broken) || error.Some?)
      ensures error.None? ==> Valid() && Work() <= old(Work()) && |popTasks| <= old(|popTasks|)
    {
      hide PopSide, MaterializeSide, StopExplained;
      error := None;
      var ready := true;
      while ready
        invariant Kept() && error.None? && broken == old(broken) && Valid()
        invariant Work() <= old(Work()) && |popTasks| <= old(|popTasks|)
        decreases |popTasks|, ready
      {
        Interleave();
        if i: nat :| i < |popTasks| && popTasks[i].Ended? {
          ready := *;
          if ready {
            error := JoinPop(i);
            if error.Some? {
              return;
            }
          }
        } else {
          ready := false;
        }
      }
    }

    /** handle_receiver_materialize_result; `joined` is what the join returned. */
    method HandleMaterializeResult(joined: Result<MaterializeOutcome, string>) returns (error: Option<string>)
      requires ResultsTallied()
      modifies `deliveredCount, `deliveredBytes, `deliverySamples, `materializeSamples, `failureMessages
      modifies `outcomes, `broken
      ensures error.None? <==> joined.Ok?
      ensures broken == (old(broken) || joined.Err?)
      ensures joined.Ok? ==> ResultsTallied() && outcomes == old(outcomes) + [joined.value]
    {
      if joined.Err? {
        broken := true;
        return Some(joined.error);
      }
      hide ResultsMatch;
      match joined.value {
        case Delivered(bytes, deliveryMs, materializeMs) =>
          DeliveredMatches(outcomes, stop, deliveredCount, deliveredBytes, deliverySamples, materializeSamples,
                           failureMessages, joined.value);
          deliveredCount := deliveredCount + 1;
          deliveredBytes := SaturatingAdd(deliveredBytes, bytes);
          deliverySamples := deliverySamples + [deliveryMs];
          materializeSamples := materializeSamples + [materializeMs];
        case Failed(message) =>
          FailedMatches(outcomes, stop, deliveredCount, deliveredBytes, deliverySamples, materializeSamples,
                        failureMessages, joined.value);
          if |failureMessages| < MAX_RETAINED_FAILURES {
            failureMessages := failureMessages + [message];
          }
      }
      outcomes := outcomes + [joined.value];
      error := None;
    }

    method JoinMaterialize(i: nat) returns (error: Option<string>)
      requires Valid() && i < |materializeTasks| && materializeTasks[i].Ended?
      modifies `materializeTasks, `finished
      modifies `deliveredCount, `deliveredBytes, `deliverySamples, `materializeSamples, `failureMessages
      modifies `outcomes, `broken
      ensures Kept() && popTasks == old(popTasks)
      ensures broken == (old(broken) || error.Some?)
      ensures error.None? ==> Valid() && |materializeTasks| == old(|materializeTasks|) - 1 && Work() < old(Work())
    {
      hide EachOnce, AllKept, PopSide, ResultsTallied, StopExplained, Without;
      var task := materializeTasks[i];
      if task.result.Ok? { FinishOne(|started|, finished, materializeTasks, i, results, outcomes); }
      var joins: bool := *;
      var joined := if joins then task.result else Err("materialize task join failed");
      materializeTasks, finished := Without(materializeTasks, i), finished + [task.id];
      error := HandleMaterializeResult(joined);
    }

    method CollectMaterialized() returns (error: Option<string>)
      requires Valid()
      modifies this
      ensures Kept() && |popTasks| == old(|popTasks|)
      ensures broken == (old(broken) || error.Some?)
      ensures error.None? ==> Valid() && Work() <= old(Work())
      ensures error.None? && old(materializeTasks) != [] ==> Work() < old(Work())
    {
      hide PopSide, MaterializeSide, StopExplained;
      Interleave();
      if materializeTasks == [] {
        return None;
      }
      var i: nat :| i < |materializeTasks|;
      AdvanceMaterialize(i);
      error := JoinMaterialize(i);
    }

    method DrainReadyMaterialized() returns (error: Option<string>)
      requires Valid()
      modifies this
      ensures Kept() && |popTasks| == old(|popTasks|)
      ensures broken == (old(broken) || error.Some?)
      ensures error.None? ==> Valid() && Work() <= old(Work())
    {
      hide PopSide, MaterializeSide, StopExplained;
      error := None;
      var ready := true;
      while ready
        invariant Kept() && |popTasks| == old(|popTasks|) && error.None? && broken == old(broken)
        invariant Valid() && Work() <= old(Work())
        decreases |materializeTasks|, ready
      {
        Interleave();
        if i: nat :| i < |materializeTasks| && materializeTasks[i].Ended? {
          ready := *;
          if ready {
            error := JoinMaterialize(i);
            if error.Some? {
              return;
            }
          }
        } else {
          ready := false;
        }
      }
    }

    /** Elements leave the queue in order, and only while there is room. */
    method SpawnPendingMaterializeTasks()
      requires Valid()
      modifies `materializeTasks, `pendingMaterialize, `started
      ensures Valid() && Kept() && Work() <= old(Work()) && popTasks == old(popTasks)
      ensures started + pendingMaterialize == old(started + pendingMaterialize)
      ensures pendingMaterialize == [] || |materializeTasks| == request.materializeConcurrency
    {
      hide EachOnce, AllKept, TallyPops, PopsAccountedFor, EofFlagExplained, ResultsTallied, StopExplained;
      while |materializeTasks| < request.materializeConcurrency && pendingMaterialize != []
        invariant Valid() && Kept() && Work() <= old(Work()) && popTasks == old(popTasks)
        invariant started + pendingMaterialize == old(started + pendingMaterialize)
        decreases |pendingMaterialize|
      {
        StartOne(|started|, finished, materializeTasks, AtWork(|started|), results, outcomes);
        var element := pendingMaterialize[0];
        DequeuedFirst(started, pendingMaterialize);
        pendingMaterialize := pendingMaterialize[1..];
        materializeTasks := materializeTasks + [AtWork(|started|)];
        started := started + [element];
      }
    }

    // ---------------------------------------------------------- the two loops

    /** Leaves the main loop before EOF because of a cancel or the deadline. */
    method StopEarly(cancel: bool)
      requires Valid() && stop.None?
      requires if cancel then cancelFlag else request.deadline.Some? && request.deadline.value <= clock
      modifies `cancelled, `timedOut, `failureMessages, `stop
      ensures Valid() && stop.Some? && if cancel then cancelled else timedOut
    {
      hide PopSide, ElementsAccountedFor, ResultsMatch;
      var message := if cancel then CANCELLED_MESSAGE else TIMED_OUT_MESSAGE;
      StoppedMatches(outcomes, deliveredCount, deliveredBytes, deliverySamples, materializeSamples,
                     failureMessages, message);
      if cancel {
        cancelled := true;
      } else {
        timedOut := true;
      }
      if |failureMessages| < MAX_RETAINED_FAILURES {
        failureMessages := failureMessages + [message];
      }
      stop := Some(Stop(|outcomes|, message));
    }

    method SpawnPop()
      requires Valid() && |popTasks| < request.pollConcurrency
      modifies `popTasks, `spawnedPops
      ensures Valid() && spawnedPops == old(spawnedPops) + 1
    {
      hide SomeSawEof, EachOnce, AllKept, PopsTallied, MaterializeSide, StopExplained;
      FreshSawNothing(popTasks, spawnedPops);
      StartOne(spawnedPops, joinedPops, popTasks, Fresh(spawnedPops), popped, pops);
      popTasks := popTasks + [Fresh(spawnedPops)];
      spawnedPops := spawnedPops + 1;
    }

    /** Waits for room for one more pop task. */
    method AwaitPopRoom() returns (error: Option<string>)
      requires Valid() && request.pollConcurrency > 0
      modifies this
      ensures Kept()
      ensures broken == (old(broken) || error.Some?)
      ensures error.None? ==> Valid() && |popTasks| < request.pollConcurrency
    {
      hide Valid;
      error := None;
      while |popTasks| >= request.pollConcurrency
        invariant Kept() && error.None? && broken == old(broken) && Valid()
        decreases |popTasks|
      {
        error := CollectPop();
        if error.Some? { return; }
        error := DrainReadyMaterialized();
        if error.Some? { return; }
        SpawnPendingMaterializeTasks();
      }
    }

    /** The three steps with which both loops begin a round. */
    method DrainReady() returns (error: Option<string>)
      requires Valid()
      modifies this
      ensures Kept()
      ensures broken == (old(broken) || error.Some?)
      ensures error.None? ==> Valid() && Work() <= old(Work())
      ensures error.None? ==> pendingMaterialize == [] || |materializeTasks| == request.materializeConcurrency
    {
      hide Valid;
      error := DrainReadyPops();
      if error.Some? { return; }
      error := DrainReadyMaterialized();
      if error.Some? { return; }
      SpawnPendingMaterializeTasks();
    }

    method CheckCancelled() returns (stopped: bool)
      requires Valid() && stop.None?
      modifies this
      ensures Valid() && (stopped <==> stop.Some?) && |popTasks| == old(|popTasks|)
      ensures spawnedPops == old(spawnedPops) && nextPollAt == old(nextPollAt) && old(clock) <= clock
      ensures broken == old(broken)
      ensures old(cancelFlag) ==> stopped
    {
      hide Valid;
      Interleave();
      stopped := cancelFlag;
      if stopped { StopEarly(true); }
    }

    method CheckDeadline() returns (stopped: bool)
      requires Valid() && stop.None?
      modifies this
      ensures Valid() && (stopped <==> stop.Some?) && |popTasks| == old(|popTasks|)
      ensures spawnedPops == old(spawnedPops) && nextPollAt == old(nextPollAt) && old(clock) <= clock
      ensures broken == old(broken)
      ensures request.deadline.Some? && request.deadline.value <= old(clock) ==> stopped
    {
      hide Valid;
      Interleave();
      stopped := request.deadline.Some? && request.deadline.value <= clock;
      if stopped { StopEarly(false); }
    }

    /** One round of the main loop, its guard included. It leaves if a cancel or the deadline was
        there when it began, or EOF at any time before it spawns. A round that goes on has spawned one
        pop, no earlier than the poll time, and has moved that time by one period. */
    method MainLoopRound() returns (round: Round)
      requires Valid() && stop.None? && request.pollConcurrency > 0
      modifies this
      ensures round.Again? ==> Valid() && stop.None?
      ensures round.Again? ==> !eofSeen && !old(cancelFlag)
      ensures round.Again? && request.deadline.Some? ==> old(clock) < request.deadline.value
      ensures round.Again? ==> spawnedPops == old(spawnedPops) + 1 && clock >= old(nextPollAt)
      ensures round.Again? ==> nextPollAt == old(nextPollAt) + request.pollPeriod
      ensures round.Leave? ==> Valid() && (stop.Some? || eofSeen) && spawnedPops == old(spawnedPops)
      ensures broken == (old(broken) || round.Failure?)
    {
      hide Valid, WithinLimits, PopSide, MaterializeSide, StopExplained;
      Interleave();
      if eofSeen { return Leave; }
      var error := DrainReady();
      if error.Some? { return Failure(error.value); }
      var stopped := CheckCancelled();
      if stopped { return Leave; }
      stopped := CheckDeadline();
      if stopped { return Leave; }
      error := AwaitPopRoom();
      if error.Some? { return Failure(error.value); }
      SleepUntilNextPoll();
      stopped := CheckCancelled();
      if stopped { return Leave; }
      Interleave();
      if eofSeen { return Leave; }
      SpawnPop();
      round := Again;
    }

    method SleepUntilNextPoll()
      requires Valid()
      modifies `clock, `nextPollAt
      ensures Valid() && clock >= old(clock) && clock >= old(nextPollAt)
      ensures nextPollAt == old(nextPollAt) + request.pollPeriod
    {
      hide PopSide, MaterializeSide;
      if clock < nextPollAt {
        clock := nextPollAt;
      }
      nextPollAt := nextPollAt + request.pollPeriod;
    }

    /** The final loop: it ends because every round uses up some of the work left. */
    method DrainAll() returns (error: Option<string>)
      requires Valid() && request.materializeConcurrency > 0
      modifies this
      ensures Kept()
      ensures broken == (old(broken) || error.Some?)
      ensures error.None? ==> Valid() && popTasks == [] && pendingMaterialize == [] && materializeTasks == []
    {
      hide Valid;
      error := None;
      while popTasks != [] || pendingMaterialize != [] || materializeTasks != []
        invariant Kept() && error.None? && broken == old(broken) && Valid()
        decreases Work()
      {
        error := DrainReady();
        if error.Some? { return; }
        if popTasks != [] {
          error := CollectPop();
        } else if materializeTasks != [] {
          error := CollectMaterialized();
        }
        if error.Some? { return; }
      }
    }

    /** channel_receiver_on_node, followed for at most `rounds` rounds of its main loop. Marking
        the request ready, closing the receiver and finding the run again may fail. It errs only
        for a bad request or when something broke. It is left running only after that many pops, all
        but the last of them before the deadline: rounds are a poll period apart, so a deadline ends
        the loop. */
    method ChannelReceiverOnNode(rounds: nat) returns (outcome: Outcome)
      requires Valid() && popTasks == [] && spawnedPops == 0 && stop == None && !eofSeen && !broken
      modifies this
      ensures outcome.StillRunning? ==> Valid() && spawnedPops == rounds && stop.None? && !broken
      ensures outcome.StillRunning? && rounds > 1 && request.deadline.Some? ==>
                old(nextPollAt) + (rounds - 2) * request.pollPeriod < request.deadline.value
      ensures outcome.Returned? ==>
                (outcome.result.Err? <==> || broken || request.pollTargetOpsPerS <= 0.0
                                          || request.materializeConcurrency == 0 || request.pollConcurrency == 0)
      ensures outcome.Returned? && outcome.result.Ok? ==> Conserved(outcome.result.value)
      ensures outcome.Returned? && outcome.result.Ok? ==> EndExplained(outcome.result.value)
    {
      hide Valid, Conserved, EndExplained, Summarize;
      if request.pollTargetOpsPerS <= 0.0 {
        return Returned(Err("poll_target_ops_per_s must be a finite positive number"));
      }
      if request.materializeConcurrency == 0 {
        return Returned(Err("materialize_concurrency must be greater than zero"));
      }
      if request.pollConcurrency == 0 {
        return Returned(Err("poll_concurrency must be greater than zero"));
      }
      if * {
        broken := true;
        return Returned(Err("channel receiver could not be set up or marked ready"));
      }
      var done, round := 0, Again;
      while round.Again? && done < rounds
        invariant !round.Failure? ==> Valid()
        invariant done <= rounds && (round.Again? ==> stop.None? && spawnedPops == done)
        invariant round.Leave? ==> stop.Some? || eofSeen
        invariant broken <==> round.Failure?
        invariant round.Again? ==> nextPollAt == old(nextPollAt) + done * request.pollPeriod
        invariant round.Again? && done > 0 ==> clock >= old(nextPollAt) + (done - 1) * request.pollPeriod
        invariant round.Again? && done > 1 && request.deadline.Some? ==>
                    old(nextPollAt) + (done - 2) * request.pollPeriod < request.deadline.value
        decreases rounds - done, round.Again?
      {
        round := MainLoopRound();
        OnePeriodMore(done, request.pollPeriod);
        done := done + 1;
      }
      if round.Again? {
        return StillRunning;
      }
      if round.Failure? {
        return Returned(Err(round.error));
      }
      var error := DrainAll();
      if error.Some? {
        return Returned(Err(error.value));
      }
      if * {
        broken := true;
        return Returned(Err("failed to close receiver"));
      }
      var result := ReceiverResult(
        deliveredCount, deliveredBytes, emptyPolls, transientPollErrors, timedOut, cancelled, eof,
        Summarize(deliverySamples), Summarize(materializeSamples),
        deliverySamples, materializeSamples, failureMessages);
      DrainedIsConserved(result);
      outcome := Returned(Ok(result));
    }

    /** With a deadline, which the experiment always sets, the receiver returns. */
    method ChannelReceiverToDeadline() returns (result: Result<ReceiverResult, string>)
      requires Valid() && popTasks == [] && spawnedPops == 0 && stop == None && !eofSeen && !broken
      requires request.deadline.Some? && request.pollPeriod > 0
      modifies this
      ensures result.Err? <==> || broken || request.pollTargetOpsPerS <= 0.0
                               || request.materializeConcurrency == 0 || request.pollConcurrency == 0
      ensures result.Ok? ==> Conserved(result.value) && EndExplained(result.value)
    {
      hide Valid, Conserved, EndExplained;
      var rounds := request.deadline.value + 2;
      PeriodsReach(request.deadline.value, request.pollPeriod);
      var outcome := ChannelReceiverOnNode(rounds);
      result := outcome.result;
    }

    /** Each spawned pop was joined once, and what it brought was handled and counted as what it is: an
        empty poll, a transient error, an EOF or an element. Each element was materialized once, and
        what that brought stands in the result: a delivery by a sample in each list, a failure by its
        message up to the limit. */
    ghost predicate Conserved(r: ReceiverResult)
      reads this
    {
      && HandledOnce(spawnedPops, popped, joinedPops, pops)
      && PopsTold(pops, r.emptyPolls, r.transientPollErrors, started)
      && HandledOnce(|started|, results, finished, outcomes)
      && r.deliveredCount == Count(outcomes, IsDelivered)
      && DeliveriesTold(outcomes, r.deliverySamplesMs, r.materializeSamplesMs)
      && MessagesTold(outcomes, stop, r.failureMessages)
      && r.deliveredBytes == (if TotalBytes(outcomes) <= U64_MAX then TotalBytes(outcomes) else U64_MAX)
      && r.deliveryLatency == Summarize(r.deliverySamplesMs)
      && r.materializeLatency == Summarize(r.materializeSamplesMs)
    }

    /** At most one early end is reported, with its cause; without one the reported EOF is the
        first that was handled. */
    ghost predicate EndExplained(r: ReceiverResult)
      reads this
    {
      && !(r.cancelled && r.timedOut) && (stop.Some? <==> r.cancelled || r.timedOut)
      && (r.cancelled ==> cancelFlag && stop.value.message == "receiver cancelled before EOF")
      && (r.timedOut ==> stop.value.message == "receiver timed out before EOF")
      && (r.timedOut ==> request.deadline.Some? && request.deadline.value <= clock)
      && (!r.cancelled && !r.timedOut ==> r.eof.Some?)
      && (r.eof.None? <==> forall k :: 0 <= k < |pops| ==> !pops[k].Eof?)
      && (r.eof.Some? ==>
            exists k :: 0 <= k < |pops| && pops[k].Eof? && r.eof == Some(EofMark(pops[k].seqNo, pops[k].elapsedMs))
              && forall j :: 0 <= j < k ==> !pops[j].Eof?)
    }

    lemma DrainedIsConserved(r: ReceiverResult)
      requires Valid() && popTasks == [] && pendingMaterialize == [] && materializeTasks == []
      requires stop.Some? || eofSeen
      requires r == ReceiverResult(
        deliveredCount, deliveredBytes, emptyPolls, transientPollErrors, timedOut, cancelled, eof,
        Summarize(deliverySamples), Summarize(materializeSamples),
        deliverySamples, materializeSamples, failureMessages)
      ensures Conserved(r) && EndExplained(r)
    {
      hide TallyPops, TallyMaterialized, PopsTold, DeliveriesTold, MessagesTold;
      hide FailureLog, Retained, Summarize, EachOnce, AllKept, HandledOnce, Count, TotalBytes;
      NoneLeft(spawnedPops, joinedPops, popTasks, popped, pops);
      NoneLeft(|started|, finished, materializeTasks, results, outcomes);
      TallyTellsPops(pops);
      EofIsTheFirst(pops);
      TallyTellsDeliveries(outcomes);
      MaterializedAreConserved(outcomes);
      RetainedTells(outcomes, stop);
      assert started + [] == started;
    }
  }
}
