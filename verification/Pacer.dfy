/** The pacer (src/driver/paced.rs): one thread sends timed tasks through an atomic counter of
    free slots, each task gives its slot back, and the caller collects the executions.
    Every atomic operation, clock reading and channel operation is one step; steps of the
    pacer thread, of the tasks, of the collector and of the clock interleave freely. */
module Pacer {
  import opened Numbers
  import opened Sorting
  import opened Wrappers

  /** `period` and all instants are in nanoseconds; `validate_config` guarantees a positive bound. */
  datatype Config = Config(total: nat, maxInFlight: nat, period: nat, wallStart: nat) {
    predicate Valid() {
      0 < maxInFlight < U64_SPAN
    }

    function ScheduledAt(index: nat): nat {
      wallStart + index * period
    }
  }

  type TaskResult = Result<(), string>

  /** How the future of a task ends; a panic is caught and becomes an error. */
  datatype Ending = Returned(result: TaskResult) | Panicked(message: string)

  function Caught(ending: Ending): TaskResult {
    match ending
    case Returned(result) => result
    case Panicked(message) => Err("paced task panicked: " + message)
  }

  datatype TaskExecution = TaskExecution(
    index: nat, scheduledAt: nat, startedAt: nat, completedAt: nat, result: TaskResult)

  datatype TaskPhase =
    | Spawned
    | Running(startedAt: nat)
    | Completed(startedAt: nat, completedAt: nat, result: TaskResult)
    | Released(startedAt: nat, completedAt: nat, result: TaskResult)
    | Sent(startedAt: nat, completedAt: nat, result: TaskResult)

  /** Where the pacer thread stands in its loop body. */
  datatype PacerAt = LoadSlots | WaitClock | TakeSlot | SpawnTask | Exited

  /** `tasks[i]` is the task of index i, once spawned; `arrived` is everything ever put into
      the channel, of which the collector has taken the first `received`. */
  datatype State = State(
    now: nat, slots: nat, at: PacerAt, tasks: seq<TaskPhase>, arrived: seq<TaskExecution>, received: nat)

  datatype Event =
    | Tick(elapsed: nat)
    | PacerStep
    | TaskStarts(index: nat)
    | TaskEnds(index: nat, ending: Ending)
    | TaskReleases(index: nat)
    | TaskSends(index: nat)
    | Receive

  function Initial(c: Config): State {
    State(c.wallStart, c.maxInFlight, if c.total == 0 then Exited else LoadSlots, [], [], 0)
  }

  // Atomic arithmetic wraps.

  function FetchSub(slots: nat): nat { if slots == 0 then U64_SPAN - 1 else slots - 1 }

  function FetchAdd(slots: nat): nat { (slots + 1) % U64_SPAN }

  predicate Enabled(c: Config, s: State, e: Event) {
    match e
    case Tick(_) => true
    case PacerStep => s.at != Exited
    case TaskStarts(i) => i < |s.tasks| && s.tasks[i].Spawned?
    case TaskEnds(i, _) => i < |s.tasks| && s.tasks[i].Running?
    case TaskReleases(i) => i < |s.tasks| && s.tasks[i].Completed?
    case TaskSends(i) => i < |s.tasks| && s.tasks[i].Released? && |s.arrived| - s.received < c.total
    case Receive => s.received < |s.arrived| && s.received < c.total
  }

  /** One iteration of a spin loop is a step that may leave the pacer where it is. */
  function StepPacer(c: Config, s: State): State {
    match s.at
    case LoadSlots => if s.slots == 0 then s else s.(at := WaitClock)
    case WaitClock => if s.now < c.ScheduledAt(|s.tasks|) then s else s.(at := TakeSlot)
    case TakeSlot => s.(slots := FetchSub(s.slots), at := SpawnTask)
    case SpawnTask =>
      s.(tasks := s.tasks + [Spawned], at := if |s.tasks| + 1 < c.total then LoadSlots else Exited)
    case Exited => s
  }

  function Step(c: Config, s: State, e: Event): State
    requires Enabled(c, s, e)
  {
    match e
    case Tick(elapsed) => s.(now := s.now + elapsed)
    case PacerStep => StepPacer(c, s)
    case TaskStarts(i) => s.(tasks := s.tasks[i := Running(s.now)])
    case TaskEnds(i, ending) => s.(tasks := s.tasks[i := Completed(s.tasks[i].startedAt, s.now, Caught(ending))])
    case TaskReleases(i) =>
      var t := s.tasks[i];
      s.(tasks := s.tasks[i := Released(t.startedAt, t.completedAt, t.result)], slots := FetchAdd(s.slots))
    case TaskSends(i) =>
      var t := s.tasks[i];
      s.(tasks := s.tasks[i := Sent(t.startedAt, t.completedAt, t.result)],
         arrived := s.arrived + [TaskExecution(i, c.ScheduledAt(i), t.startedAt, t.completedAt, t.result)])
    case Receive => s.(received := s.received + 1)
  }

  /** The state after a run, or None if some event of the run was not enabled. */
  function Run(c: Config, s: State, run: seq<Event>): Option<State>
    decreases |run|
  {
    if run == [] then Some(s)
    else if Enabled(c, s, run[0]) then Run(c, Step(c, s, run[0]), run[1..])
    else None
  }

  ghost predicate Reachable(c: Config, s: State) {
    exists run: seq<Event> :: Run(c, Initial(c), run) == Some(s)
  }

  // ------------------------------------------------------------ the invariant

  predicate HoldsSlot(t: TaskPhase) { t.Spawned? || t.Running? || t.Completed? }

  /** Slots taken and not yet given back; between the decrement and the spawn the pacer holds one. */
  function SlotsHeld(s: State): nat {
    Count(s.tasks, HoldsSlot) + if s.at == SpawnTask then 1 else 0
  }

  predicate PacerPlace(c: Config, s: State) {
    && (s.at == Exited ==> |s.tasks| == c.total)
    && (s.at != Exited ==> |s.tasks| < c.total)
    && (s.at in {WaitClock, TakeSlot} ==> s.slots > 0)
    && (s.at in {TakeSlot, SpawnTask} ==> s.now >= c.ScheduledAt(|s.tasks|))
  }

  /** A task due at `due` starts no earlier, and its readings are in order. */
  predicate TimesInOrder(due: nat, now: nat, t: TaskPhase) {
    match t
    case Spawned => due <= now
    case Running(b) => due <= b <= now
    case Completed(b, e, _) => due <= b <= e <= now
    case Released(b, e, _) => due <= b <= e <= now
    case Sent(b, e, _) => due <= b <= e <= now
  }

  /** What arrived is exactly one execution of each task that has sent, with that task's readings. */
  ghost predicate ArrivedIsSent(c: Config, s: State) {
    && (forall k :: 0 <= k < |s.arrived| ==>
          var x := s.arrived[k];
          && x.index < |s.tasks| && s.tasks[x.index] == Sent(x.startedAt, x.completedAt, x.result)
          && x.scheduledAt == c.ScheduledAt(x.index))
    && (forall j, k :: 0 <= j < k < |s.arrived| ==> s.arrived[j].index != s.arrived[k].index)
    && |s.arrived| == Count(s.tasks, IsSent)
  }

  predicate IsSent(t: TaskPhase) { t.Sent? }

  ghost predicate Inv(c: Config, s: State) {
    && s.slots + SlotsHeld(s) == c.maxInFlight
    && PacerPlace(c, s)
    && (forall i :: 0 <= i < |s.tasks| ==> TimesInOrder(c.ScheduledAt(i), s.now, s.tasks[i]))
    && ArrivedIsSent(c, s)
    && s.received <= |s.arrived| && s.received <= c.total
  }

  lemma {:induction false} CountUpdated(tasks: seq<TaskPhase>, i: nat, t: TaskPhase, p: TaskPhase -> bool)
    requires i < |tasks|
    ensures Count(tasks[i := t], p) + (if p(tasks[i]) then 1 else 0) == Count(tasks, p) + if p(t) then 1 else 0
  {
    if i == 0 {
      assert tasks[0 := t][1..] == tasks[1..];
    } else {
      CountUpdated(tasks[1..], i - 1, t, p);
      assert tasks[i := t][1..] == tasks[1..][i - 1 := t];
    }
  }

  lemma CountAppended(tasks: seq<TaskPhase>, t: TaskPhase, p: TaskPhase -> bool)
    ensures Count(tasks + [t], p) == Count(tasks, p) + if p(t) then 1 else 0
  {
    CountSplits(tasks, [t], p);
    assert [t][1..] == [];
  }

  lemma TaskMoves(c: Config, s: State, i: nat, t: TaskPhase)
    requires i < |s.tasks|
    ensures Count(s.tasks[i := t], HoldsSlot) + (if HoldsSlot(s.tasks[i]) then 1 else 0)
         == Count(s.tasks, HoldsSlot) + if HoldsSlot(t) then 1 else 0
    ensures Count(s.tasks[i := t], IsSent) + (if IsSent(s.tasks[i]) then 1 else 0)
         == Count(s.tasks, IsSent) + if IsSent(t) then 1 else 0
  {
    CountUpdated(s.tasks, i, t, HoldsSlot);
    CountUpdated(s.tasks, i, t, IsSent);
  }

  lemma PacerKeepsInv(c: Config, s: State)
    requires c.Valid() && Inv(c, s) && s.at != Exited
    ensures Inv(c, StepPacer(c, s))
  {
    CountAppended(s.tasks, Spawned, HoldsSlot);
    CountAppended(s.tasks, Spawned, IsSent);
  }

  /** Starting, ending and releasing change one task and at most the slots. */
  lemma TaskKeepsInv(c: Config, s: State, e: Event)
    requires c.Valid() && Inv(c, s) && Enabled(c, s, e)
    requires e.TaskStarts? || e.TaskEnds? || e.TaskReleases?
    ensures Inv(c, Step(c, s, e))
  {
    var s' := Step(c, s, e);
    var i := e.index;
    TaskMoves(c, s, i, s'.tasks[i]);
    assert s'.tasks == s.tasks[i := s'.tasks[i]];
  }

  lemma SendKeepsInv(c: Config, s: State, e: Event)
    requires c.Valid() && Inv(c, s) && Enabled(c, s, e) && e.TaskSends?
    ensures Inv(c, Step(c, s, e))
  {
    var s' := Step(c, s, e);
    var i := e.index;
    TaskMoves(c, s, i, s'.tasks[i]);
    assert forall k :: 0 <= k < |s.arrived| ==> s.arrived[k].index != i;
    assert ArrivedIsSent(c, s');
  }

  lemma StepKeepsInv(c: Config, s: State, e: Event)
    requires c.Valid() && Inv(c, s) && Enabled(c, s, e)
    ensures Inv(c, Step(c, s, e))
  {
    match e
    case Tick(_) =>
    case Receive =>
    case PacerStep => PacerKeepsInv(c, s);
    case TaskStarts(_) => TaskKeepsInv(c, s, e);
    case TaskEnds(_, _) => TaskKeepsInv(c, s, e);
    case TaskReleases(_) => TaskKeepsInv(c, s, e);
    case TaskSends(_) => SendKeepsInv(c, s, e);
  }

  // ------------------------------------------------------------ safety over whole runs

  lemma {:induction false} RunKeepsInv(c: Config, s: State, run: seq<Event>)
    requires c.Valid() && Inv(c, s) && Run(c, s, run).Some?
    ensures Inv(c, Run(c, s, run).value)
    decreases |run|
  {
    if run != [] {
      StepKeepsInv(c, s, run[0]);
      RunKeepsInv(c, Step(c, s, run[0]), run[1..]);
    }
  }

  lemma ReachableInv(c: Config, s: State)
    requires c.Valid() && Reachable(c, s)
    ensures Inv(c, s)
  {
    var run: seq<Event> :| Run(c, Initial(c), run) == Some(s);
    RunKeepsInv(c, Initial(c), run);
  }

  lemma {:induction false} NotAllSent(tasks: seq<TaskPhase>, i: nat)
    requires i < |tasks| && !IsSent(tasks[i])
    ensures Count(tasks, IsSent) < |tasks|
  {
    if i > 0 { NotAllSent(tasks[1..], i - 1); } else { CountAtMost(tasks[1..]); }
  }

  lemma {:induction false} CountAtMost(tasks: seq<TaskPhase>)
    ensures Count(tasks, IsSent) <= |tasks|
  {
    if tasks != [] { CountAtMost(tasks[1..]); }
  }

  /** No slot is lost or invented; the decrement finds a free slot and the increment room for
      one, so neither wraps; no more than `maxInFlight` tasks are unfinished at any time; and a
      task that gave its slot back finds room in the result channel, so it never waits to send. */
  lemma SlotsAreConserved(c: Config, s: State)
    requires c.Valid() && Reachable(c, s)
    ensures s.slots + SlotsHeld(s) == c.maxInFlight
    ensures s.at == TakeSlot ==> FetchSub(s.slots) == s.slots - 1
    ensures forall i :: 0 <= i < |s.tasks| && s.tasks[i].Completed? ==>
              s.slots < c.maxInFlight && FetchAdd(s.slots) == s.slots + 1
    ensures Count(s.tasks, HoldsSlot) <= c.maxInFlight
    ensures forall i :: 0 <= i < |s.tasks| && s.tasks[i].Released? ==> Enabled(c, s, TaskSends(i))
  {
    ReachableInv(c, s);
    forall i | 0 <= i < |s.tasks| && s.tasks[i].Released?
      ensures Enabled(c, s, TaskSends(i))
    {
      NotAllSent(s.tasks, i);
    }
    forall i | 0 <= i < |s.tasks| && s.tasks[i].Completed?
      ensures s.slots < c.maxInFlight && FetchAdd(s.slots) == s.slots + 1
    {
      CountUpdated(s.tasks, i, Sent(0, 0, Ok(())), HoldsSlot);
    }
  }

  // ------------------------------------------------------------ progress

  function StepsLeft(t: TaskPhase): nat {
    match t
    case Spawned => 5
    case Running(_) => 4
    case Completed(_, _, _) => 3
    case Released(_, _, _) => 2
    case Sent(_, _, _) => 0
  }

  function TaskStepsLeft(tasks: seq<TaskPhase>): nat {
    if tasks == [] then 0 else StepsLeft(tasks[0]) + TaskStepsLeft(tasks[1..])
  }

  function PacerOffset(at: PacerAt): nat {
    match at
    case LoadSlots => 0
    case WaitClock => 1
    case TakeSlot => 2
    case SpawnTask => 3
    case Exited => 0
  }

  /** Steps still to be taken: four of the pacer and five for its task per index not yet
      spawned, those of the tasks at work, and one receive per execution in the channel. */
  function StepsToGo(c: Config, s: State): int {
    9 * (c.total - |s.tasks|) - PacerOffset(s.at) + TaskStepsLeft(s.tasks) + |s.arrived| - s.received
  }

  /** A step that neither passes time nor spins. */
  predicate Progresses(c: Config, s: State, e: Event)
    requires Enabled(c, s, e)
  {
    !e.Tick? && Step(c, s, e) != s
  }

  lemma {:induction false} StepsLeftUpdated(tasks: seq<TaskPhase>, i: nat, t: TaskPhase)
    requires i < |tasks|
    ensures TaskStepsLeft(tasks[i := t]) + StepsLeft(tasks[i]) == TaskStepsLeft(tasks) + StepsLeft(t)
  {
    if i == 0 {
      assert tasks[0 := t][1..] == tasks[1..];
    } else {
      StepsLeftUpdated(tasks[1..], i - 1, t);
      assert tasks[i := t][1..] == tasks[1..][i - 1 := t];
    }
  }

  lemma {:induction false} StepsLeftAppended(tasks: seq<TaskPhase>, t: TaskPhase)
    ensures TaskStepsLeft(tasks + [t]) == TaskStepsLeft(tasks) + StepsLeft(t)
  {
    if tasks == [] {
      assert ([t])[1..] == [];
    } else {
      StepsLeftAppended(tasks[1..], t);
      assert (tasks + [t])[1..] == tasks[1..] + [t];
    }
  }

  lemma StepCounts(c: Config, s: State, e: Event)
    requires c.Valid() && Inv(c, s) && Enabled(c, s, e)
    ensures StepsToGo(c, Step(c, s, e)) == StepsToGo(c, s) - if Progresses(c, s, e) then 1 else 0
    ensures StepsToGo(c, s) >= 0
  {
    StepsLeftAppended(s.tasks, Spawned);
    if e.TaskStarts? || e.TaskEnds? || e.TaskReleases? || e.TaskSends? {
      StepsLeftUpdated(s.tasks, e.index, Step(c, s, e).tasks[e.index]);
      assert s.tasks[e.index] != Step(c, s, e).tasks[e.index];
    }
  }

  function ProgressSteps(c: Config, s: State, run: seq<Event>): nat
    requires Run(c, s, run).Some?
    decreases |run|
  {
    if run == [] then 0
    else (if Progresses(c, s, run[0]) then 1 else 0) + ProgressSteps(c, Step(c, s, run[0]), run[1..])
  }

  /** However the steps interleave, each one that is neither a tick nor a spin uses up one of
      the steps to go. */
  lemma {:induction false} RunCounts(c: Config, s: State, run: seq<Event>)
    requires c.Valid() && Inv(c, s) && Run(c, s, run).Some?
    ensures StepsToGo(c, Run(c, s, run).value) == StepsToGo(c, s) - ProgressSteps(c, s, run)
    decreases |run|
  {
    if run != [] {
      StepCounts(c, s, run[0]);
      StepKeepsInv(c, s, run[0]);
      RunCounts(c, Step(c, s, run[0]), run[1..]);
    }
  }

  lemma StepsToGoBounds(c: Config, s: State)
    requires c.Valid() && Inv(c, s)
    ensures StepsToGo(c, s) >= 0
    ensures s == Initial(c) ==> StepsToGo(c, s) == 9 * c.total
  {}

  /** So no run makes progress for ever: whatever the interleaving, at most nine steps per index are
      neither ticks nor spins. */
  lemma ProgressIsBounded(c: Config, run: seq<Event>)
    requires c.Valid() && Run(c, Initial(c), run).Some?
    ensures ProgressSteps(c, Initial(c), run) <= 9 * c.total
  {
    hide StepsToGo, ProgressSteps, Run;
    InitialInv(c);
    RunCounts(c, Initial(c), run);
    RunKeepsInv(c, Initial(c), run);
    StepsToGoBounds(c, Initial(c));
    StepsToGoBounds(c, Run(c, Initial(c), run).value);
  }

  lemma InitialInv(c: Config)
    requires c.Valid()
    ensures Inv(c, Initial(c))
  {}

  /** The collector has all results; the pacer thread has then left its loop. */
  predicate Finished(c: Config, s: State) { s.received == c.total }

  lemma {:induction false} AllSentCounted(tasks: seq<TaskPhase>)
    requires forall i :: 0 <= i < |tasks| ==> IsSent(tasks[i])
    ensures Count(tasks, IsSent) == |tasks| && Count(tasks, HoldsSlot) == 0
  {
    if tasks != [] { AllSentCounted(tasks[1..]); }
  }

  /** Until everything is collected some thread can make progress, at most after waiting for
      the clock to reach the scheduled time. */
  lemma NextEvents(c: Config, s: State) returns (events: seq<Event>)
    requires c.Valid() && Inv(c, s) && !Finished(c, s)
    ensures 1 <= |events| <= 2 && Run(c, s, events).Some?
    ensures StepsToGo(c, Run(c, s, events).value) == StepsToGo(c, s) - 1
  {
    if s.received < |s.arrived| {
      events := OneEvent(c, s, Receive);
    } else if i :| 0 <= i < |s.tasks| && !IsSent(s.tasks[i]) {
      var e := match s.tasks[i]
        case Spawned => TaskStarts(i)
        case Running(_) => TaskEnds(i, Returned(Ok(())))
        case Completed(_, _, _) => TaskReleases(i)
        case Released(_, _, _) => TaskSends(i)
        case Sent(_, _, _) => Receive;
      events := OneEvent(c, s, e);
    } else {
      AllSentCounted(s.tasks);
      if s.at == WaitClock && s.now < c.ScheduledAt(|s.tasks|) {
        var wait := Tick(c.ScheduledAt(|s.tasks|) - s.now);
        StepCounts(c, s, wait);
        StepKeepsInv(c, s, wait);
        var rest := OneEvent(c, Step(c, s, wait), PacerStep);
        events := [wait] + rest;
        assert events[1..] == rest;
      } else {
        events := OneEvent(c, s, PacerStep);
      }
    }
  }

  lemma OneEvent(c: Config, s: State, e: Event) returns (events: seq<Event>)
    requires c.Valid() && Inv(c, s) && Enabled(c, s, e) && Progresses(c, s, e)
    ensures events == [e] && Run(c, s, events) == Some(Step(c, s, e))
    ensures StepsToGo(c, Step(c, s, e)) == StepsToGo(c, s) - 1
  {
    events := [e];
    StepCounts(c, s, e);
    assert events[1..] == [];
  }

  lemma {:induction false} RunsJoin(c: Config, s: State, first: seq<Event>, second: seq<Event>)
    requires Run(c, s, first).Some?
    ensures Run(c, s, first + second) == Run(c, Run(c, s, first).value, second)
    decreases |first|
  {
    if first == [] {
      assert first + second == second;
    } else {
      RunsJoin(c, Step(c, s, first[0]), first[1..], second);
      assert (first + second)[1..] == first[1..] + second;
    }
  }

  /** From every reachable state the run can still be completed: there is no deadlock. */
  lemma {:induction false} CanFinish(c: Config, s: State) returns (run: seq<Event>)
    requires c.Valid() && Inv(c, s)
    ensures Run(c, s, run).Some? && Finished(c, Run(c, s, run).value)
    decreases StepsToGo(c, s)
  {
    if Finished(c, s) {
      run := [];
    } else {
      var first := NextEvents(c, s);
      RunKeepsInv(c, s, first);
      var rest := CanFinish(c, Run(c, s, first).value);
      RunsJoin(c, s, first, rest);
      run := first + rest;
    }
  }

  // ------------------------------------------------------------ what is collected

  /** Exactly one execution per index, with readings in order. */
  ghost predicate OnePerIndex(c: Config, executions: seq<TaskExecution>) {
    && |executions| == c.total
    && (forall k :: 0 <= k < |executions| ==>
          var x := executions[k];
          x.index < c.total && x.scheduledAt == c.wallStart + x.index * c.period <= x.startedAt <= x.completedAt)
    && (forall j, k :: 0 <= j < k < |executions| ==> executions[j].index != executions[k].index)
  }

  // What an execution says, told from the events of the run alone.

  /** The clock after a run. */
  function ClockAfter(c: Config, run: seq<Event>): nat {
    if run == [] then c.wallStart
    else
      var last := run[|run| - 1];
      ClockAfter(c, run[..|run| - 1]) + if last.Tick? then last.elapsed else 0
  }

  ghost predicate StartedIn(c: Config, run: seq<Event>, index: nat, at: nat) {
    exists m :: 0 <= m < |run| && run[m] == TaskStarts(index) && at == ClockAfter(c, run[..m])
  }

  /** The task ended at that time, with that result or in a panic, which becomes an error. */
  ghost predicate EndedIn(c: Config, run: seq<Event>, index: nat, at: nat, result: TaskResult) {
    exists m :: 0 <= m < |run| && run[m].TaskEnds? && run[m].index == index && at == ClockAfter(c, run[..m])
             && (run[m].ending == Returned(result) || (run[m].ending.Panicked? && result.Err?))
  }

  ghost predicate TaskTold(c: Config, run: seq<Event>, index: nat, t: TaskPhase) {
    match t
    case Spawned => true
    case Running(b) => StartedIn(c, run, index, b)
    case Completed(b, e, r) => StartedIn(c, run, index, b) && EndedIn(c, run, index, e, r)
    case Released(b, e, r) => StartedIn(c, run, index, b) && EndedIn(c, run, index, e, r)
    case Sent(b, e, r) => StartedIn(c, run, index, b) && EndedIn(c, run, index, e, r)
  }

  lemma ToldFurther(c: Config, run: seq<Event>, e: Event, index: nat, t: TaskPhase)
    requires TaskTold(c, run, index, t)
    ensures TaskTold(c, run + [e], index, t)
  {
    hide ClockAfter;
    forall m | 0 <= m < |run| ensures (run + [e])[..m] == run[..m] && (run + [e])[m] == run[m] {}
  }

  lemma ToldNow(c: Config, run: seq<Event>, s: State, e: Event)
    requires Enabled(c, s, e) && s.now == ClockAfter(c, run) && (e.TaskStarts? || e.TaskEnds?)
    requires TaskTold(c, run, e.index, s.tasks[e.index])
    ensures TaskTold(c, run + [e], e.index, Step(c, s, e).tasks[e.index])
  {
    hide ClockAfter;
    ToldFurther(c, run, e, e.index, s.tasks[e.index]);
    assert (run + [e])[..|run|] == run && (run + [e])[|run|] == e;
  }

  lemma StepTold(c: Config, run: seq<Event>, s: State, e: Event)
    requires Enabled(c, s, e) && s.now == ClockAfter(c, run)
    requires forall i :: 0 <= i < |s.tasks| ==> TaskTold(c, run, i, s.tasks[i])
    ensures Step(c, s, e).now == ClockAfter(c, run + [e])
    ensures var s' := Step(c, s, e);
            forall i :: 0 <= i < |s'.tasks| ==> TaskTold(c, run + [e], i, s'.tasks[i])
  {
    hide StartedIn, EndedIn;
    assert (run + [e])[..|run|] == run;
    var s' := Step(c, s, e);
    forall i | 0 <= i < |s'.tasks| ensures TaskTold(c, run + [e], i, s'.tasks[i]) {
      if i < |s.tasks| {
        ToldFurther(c, run, e, i, s.tasks[i]);
        if (e.TaskStarts? || e.TaskEnds?) && e.index == i { ToldNow(c, run, s, e); }
      }
    }
  }

  lemma {:induction false} RunTold(c: Config, run: seq<Event>)
    requires Run(c, Initial(c), run).Some?
    ensures var s := Run(c, Initial(c), run).value;
            && s.now == ClockAfter(c, run)
            && forall i :: 0 <= i < |s.tasks| ==> TaskTold(c, run, i, s.tasks[i])
    decreases |run|
  {
    hide TaskTold, Step, Enabled;
    if run != [] {
      var front, last := run[..|run| - 1], run[|run| - 1];
      assert run == front + [last];
      RunSplits(c, Initial(c), front, last);
      RunTold(c, front);
      StepTold(c, front, Run(c, Initial(c), front).value, last);
    }
  }

  lemma {:induction false} RunSplits(c: Config, s: State, front: seq<Event>, last: Event)
    requires Run(c, s, front + [last]).Some?
    ensures Run(c, s, front).Some? && Enabled(c, Run(c, s, front).value, last)
    ensures Run(c, s, front + [last]) == Some(Step(c, Run(c, s, front).value, last))
    decreases |front|
  {
    hide Step, Enabled;
    if front == [] {
      assert [last][1..] == [] && front + [last] == [last];
    } else {
      assert (front + [last])[1..] == front[1..] + [last];
      RunSplits(c, Step(c, s, front[0]), front[1..], last);
    }
  }

  /** Every execution reports what happened to its task in the run: its readings are the clock at its
      start and at its end, and its result is the one the task ended with, an error if it panicked. */
  lemma ExecutionsAreTold(c: Config, run: seq<Event>, k: nat)
    requires c.Valid() && Run(c, Initial(c), run).Some? && k < |Run(c, Initial(c), run).value.arrived|
    ensures var x := Run(c, Initial(c), run).value.arrived[k];
            StartedIn(c, run, x.index, x.startedAt) && EndedIn(c, run, x.index, x.completedAt, x.result)
  {
    hide Run, StartedIn, EndedIn;
    InitialInv(c);
    RunKeepsInv(c, Initial(c), run);
    RunTold(c, run);
    var s := Run(c, Initial(c), run).value;
    assert TaskTold(c, run, s.arrived[k].index, s.tasks[s.arrived[k].index]);
  }

  /** When the collector stops it holds one execution of every task, which says what happened to that
      task in the run; the pacer has exited and no slot is missing. */
  lemma FinishedIsComplete(c: Config, run: seq<Event>, s: State)
    requires c.Valid() && Run(c, Initial(c), run) == Some(s) && Finished(c, s)
    ensures s.received == |s.arrived| && OnePerIndex(c, s.arrived[..s.received])
    ensures forall k :: 0 <= k < |s.arrived| ==>
              var x := s.arrived[k];
              StartedIn(c, run, x.index, x.startedAt) && EndedIn(c, run, x.index, x.completedAt, x.result)
    ensures s.at == Exited && s.slots == c.maxInFlight
  {
    hide StartedIn, EndedIn;
    forall k | 0 <= k < |s.arrived|
      ensures var x := s.arrived[k];
              StartedIn(c, run, x.index, x.startedAt) && EndedIn(c, run, x.index, x.completedAt, x.result)
    {
      ExecutionsAreTold(c, run, k);
    }
    ReachableInv(c, s);
    AllSent(c, s);
  }

  lemma AllSent(c: Config, s: State)
    requires c.Valid() && Inv(c, s) && Finished(c, s)
    ensures s.received == |s.arrived| && OnePerIndex(c, s.arrived[..s.received])
    ensures s.at == Exited && s.slots == c.maxInFlight
  {
    assert |s.tasks| == c.total;
    forall i | 0 <= i < |s.tasks| ensures IsSent(s.tasks[i]) {
      CountUpdated(s.tasks, i, Sent(0, 0, Ok(())), IsSent);
    }
    AllSentCounted(s.tasks);
  }

  /** The channel closes when the pacer has exited and every task has sent and gone; if the
      collector then finds it empty, it already has all results. So the error for a short
      collection cannot arise. */
  lemma ClosedChannelMeansComplete(c: Config, s: State)
    requires c.Valid() && Reachable(c, s)
    requires s.at == Exited && (forall i :: 0 <= i < |s.tasks| ==> IsSent(s.tasks[i])) && s.received == |s.arrived|
    ensures Finished(c, s)
  {
    ReachableInv(c, s);
    AllSentCounted(s.tasks);
  }
}
