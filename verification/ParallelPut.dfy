/** Concurrent put of generated payload files (put_generated_files_concurrent in
    src/rpc/server/blob.rs): a bounded set of tasks whose results come back in any order. */
module ParallelPut {
  import opened RequestIds
  import opened Wrappers

  const BLOB_PUT_MAX_ATTEMPTS: nat := 5

  /** How a task fails: it returns an error, or it panics and its join fails. */
  datatype TaskError = TaskFailed(message: string) | JoinFailed(message: string)

  datatype PutError =
    | OfTask(error: TaskError)
    | MissingRef(index: nat)
    | MissingPath(index: nat)

  type Files = (seq<string>, seq<string>)

  function PayloadPath(dir: string, index: nat): string {
    dir + "/payload_" + PadZeros(Decimal(index), 6) + ".bin"
  }

  /** The file lies in the directory itself, its name made of the index in six digits or more. */
  lemma PathIsInDirectory(dir: string, index: nat)
    ensures exists digits ::
              PayloadPath(dir, index) == dir + "/" + ("payload_" + digits + ".bin") && SixDigits(digits, index)
  {
    hide SixDigits;
    var digits := PadZeros(Decimal(index), 6);
    PaddedIsSixDigits(index);
    assert PayloadPath(dir, index) == dir + "/" + ("payload_" + digits + ".bin");
  }

  /** No two tasks of a batch write the same file. */
  lemma PathsAreDistinct(dir: string, i: nat, j: nat)
    requires PayloadPath(dir, i) == PayloadPath(dir, j)
    ensures i == j
  {
    var a, b := PadZeros(Decimal(i), 6), PadZeros(Decimal(j), 6);
    var prefix, suffix := dir + "/payload_", ".bin";
    assert a == (prefix + a + suffix)[|prefix|..|prefix + a + suffix| - |suffix|];
    assert b == (prefix + b + suffix)[|prefix|..|prefix + b + suffix| - |suffix|];
    DecimalReadsBack(i);
    DecimalReadsBack(j);
    PaddingReadsBack(Decimal(i), 6);
    PaddingReadsBack(Decimal(j), 6);
  }

  /** One put after another; `outcome(i)` is what joining the task of index i brings. */
  function SequentialPut(dir: string, count: nat, outcome: nat -> Result<string, TaskError>): Result<Files, TaskError> {
    if count == 0 then Ok(([], []))
    else
      match SequentialPut(dir, count - 1, outcome)
      case Err(error) => Err(error)
      case Ok((refs, paths)) =>
        match outcome(count - 1)
        case Err(error) => Err(error)
        case Ok(reference) => Ok((refs + [reference], paths + [PayloadPath(dir, count - 1)]))
  }

  lemma {:induction false} SequentialPutIsAMap(dir: string, count: nat, outcome: nat -> Result<string, TaskError>)
    ensures var r := SequentialPut(dir, count, outcome);
            && (r.Ok? <==> forall i :: 0 <= i < count ==> outcome(i).Ok?)
            && (r.Ok? ==> (&& |r.value.0| == |r.value.1| == count
                           && forall i :: 0 <= i < count ==>
                                r.value.0[i] == outcome(i).value && r.value.1[i] == PayloadPath(dir, i)))
  {
    if count > 0 { SequentialPutIsAMap(dir, count - 1, outcome); }
  }

  /** A put is tried at most five times; the first success counts, else the last error. */
  method PutFileWithRetry(attempt: nat -> Result<string, string>) returns (r: Result<string, string>, attempts: nat)
    ensures 1 <= attempts <= BLOB_PUT_MAX_ATTEMPTS
    ensures forall k :: 1 <= k < attempts ==> attempt(k).Err?
    ensures r.Ok? ==> r == attempt(attempts)
    ensures r.Err? ==> attempts == BLOB_PUT_MAX_ATTEMPTS && attempt(attempts) == r
  {
    var lastError := "";
    attempts := 0;
    while attempts < BLOB_PUT_MAX_ATTEMPTS
      invariant attempts <= BLOB_PUT_MAX_ATTEMPTS
      invariant forall k :: 1 <= k <= attempts ==> attempt(k).Err?
      invariant attempts > 0 ==> attempt(attempts) == Err(lastError)
    {
      attempts := attempts + 1;
      var answer := attempt(attempts);
      if answer.Ok? {
        return answer, attempts;
      }
      lastError := answer.error;
    }
    r := Err(lastError);
  }

  // ------------------------------------------------------------ the fan-out, step by step

  /** `maxInFlight` is positive: put_blob_batch_on_node rejects zero. */
  datatype Batch = Batch(dir: string, count: nat, maxInFlight: nat, outcome: nat -> Result<string, TaskError>) {
    predicate Valid() { maxInFlight > 0 }
  }

  /** `tasks` is the task set, and `failed` the error with which the put gave up. */
  datatype State = State(next: nat, tasks: set<nat>, refs: seq<Option<string>>, paths: seq<Option<string>>,
                         failed: Option<TaskError>)

  /** The set hands back its tasks in any order in which they may end. */
  datatype Event = Spawned(index: nat) | Joined(index: nat)

  function Initial(b: Batch): State {
    State(0, {}, seq(b.count, _ => None), seq(b.count, _ => None), None)
  }

  /** The inner loop spawns while there is something left and room for it; only then is a task joined. */
  predicate MaySpawn(b: Batch, s: State) { s.next < b.count && |s.tasks| < b.maxInFlight }

  predicate Enabled(b: Batch, s: State, e: Event) {
    && s.failed.None?
    && match e
       case Spawned(i) => MaySpawn(b, s) && i == s.next
       case Joined(i) => !MaySpawn(b, s) && i in s.tasks && i < |s.refs| == |s.paths|
  }

  function Step(b: Batch, s: State, e: Event): State
    requires Enabled(b, s, e)
  {
    match e
    case Spawned(i) => s.(next := i + 1, tasks := s.tasks + {i})
    case Joined(i) =>
      match b.outcome(i)
      case Err(error) => s.(tasks := s.tasks - {i}, failed := Some(error))
      case Ok(reference) =>
        s.(tasks := s.tasks - {i}, refs := s.refs[i := Some(reference)],
           paths := s.paths[i := Some(PayloadPath(b.dir, i))])
  }

  function Run(b: Batch, run: seq<Event>): Option<State> {
    if run == [] then Some(Initial(b))
    else
      var before := Run(b, run[..|run| - 1]);
      if before.Some? && Enabled(b, before.value, run[|run| - 1])
      then Some(Step(b, before.value, run[|run| - 1])) else None
  }

  /** Spawned and not yet joined, as the events alone tell it. */
  function InFlight(run: seq<Event>): int {
    if run == [] then 0
    else InFlight(run[..|run| - 1]) + match run[|run| - 1] case Spawned(_) => 1 case Joined(_) => -1
  }

  /** Every index below `next` that is not in flight has ended well, and its own slots hold its own
      reference and path. */
  ghost predicate SlotsFilled(b: Batch, s: State) {
    s.next <= |s.refs| == |s.paths| && forall i :: 0 <= i < s.next && i !in s.tasks ==>
      b.outcome(i).Ok? && s.refs[i] == Some(b.outcome(i).value) && s.paths[i] == Some(PayloadPath(b.dir, i))
  }

  ghost predicate Inv(b: Batch, s: State) {
    && s.next <= b.count == |s.refs| == |s.paths| && |s.tasks| <= b.maxInFlight
    && (forall i :: i in s.tasks ==> i < s.next)
    && (s.failed.None? ==> SlotsFilled(b, s))
    && (s.failed.Some? ==> exists i :: 0 <= i < b.count && b.outcome(i) == Err(s.failed.value))
  }

  lemma InitialInv(b: Batch)
    ensures Inv(b, Initial(b))
  {}

  lemma StepKeepsInv(b: Batch, s: State, e: Event)
    requires Inv(b, s) && Enabled(b, s, e)
    ensures Inv(b, Step(b, s, e))
    ensures |Step(b, s, e).tasks| == |s.tasks| + if e.Spawned? then 1 else -1
  {
    hide PayloadPath;
    if e.Spawned? { assert e.index !in s.tasks; }
  }

  lemma {:induction false} RunKeepsInv(b: Batch, run: seq<Event>)
    requires Run(b, run).Some?
    ensures Inv(b, Run(b, run).value)
    ensures |Run(b, run).value.tasks| == InFlight(run)
  {
    hide Inv, Step, Enabled, Initial;
    if run == [] {
      InitialInv(b);
      assert Initial(b).tasks == {} by { InitiallyIdle(b); }
    } else {
      var before := run[..|run| - 1];
      RunKeepsInv(b, before);
      StepKeepsInv(b, Run(b, before).value, run[|run| - 1]);
    }
  }

  lemma InitiallyIdle(b: Batch)
    ensures Initial(b).tasks == {}
  {}

  lemma {:induction false} PrefixRuns(b: Batch, run: seq<Event>, n: nat)
    requires Run(b, run).Some? && n <= |run|
    ensures Run(b, run[..n]).Some?
    ensures n < |run| ==> Enabled(b, Run(b, run[..n]).value, run[n])
  {
    hide Step, Enabled, Initial;
    var last := |run| - 1;
    if n == |run| {
      assert run[..n] == run;
    } else if n < last {
      PrefixRuns(b, run[..last], n);
      assert run[..last][..n] == run[..n];
    }
  }

  /** At every moment of every run, whatever the order in which tasks end, at most `maxInFlight` are
      spawned and not yet joined. */
  lemma InFlightIsBounded(b: Batch, run: seq<Event>, n: nat)
    requires Run(b, run).Some? && n <= |run|
    ensures 0 <= InFlight(run[..n]) <= b.maxInFlight
  {
    hide Run, InFlight;
    PrefixRuns(b, run, n);
    RunKeepsInv(b, run[..n]);
  }

  /** The bound is used to the full: a task is joined only when `maxInFlight` are in flight or none is
      left to spawn. */
  lemma JoinsOnlyWhenFull(b: Batch, run: seq<Event>, n: nat)
    requires Run(b, run).Some? && n < |run| && run[n].Joined?
    ensures Run(b, run[..n]).Some?
    ensures InFlight(run[..n]) == b.maxInFlight || Run(b, run[..n]).value.next == b.count
  {
    hide Run, InFlight;
    PrefixRuns(b, run, n);
    RunKeepsInv(b, run[..n]);
  }

  /** Nothing is left to spawn or to join. */
  predicate Drained(b: Batch, s: State) { s.failed.None? && s.next == b.count && s.tasks == {} }

  /** Every run that is neither drained nor given up can go on, and each step uses up one of at most
      2 * count. */
  lemma RunGoesOn(b: Batch, s: State)
    requires b.Valid() && Inv(b, s) && s.failed.None? && !Drained(b, s)
    ensures exists e :: Enabled(b, s, e)
  {
    if MaySpawn(b, s) {
      assert Enabled(b, s, Spawned(s.next));
    } else {
      assert s.tasks != {};
      var i :| i in s.tasks;
      assert Enabled(b, s, Joined(i));
    }
  }

  lemma {:induction false} RunIsShort(b: Batch, run: seq<Event>)
    requires Run(b, run).Some?
    ensures |run| + 2 * (b.count - Run(b, run).value.next) + |Run(b, run).value.tasks| == 2 * b.count
    ensures |run| <= 2 * b.count
  {
    hide Inv;
    if run != [] {
      var before := run[..|run| - 1];
      RunIsShort(b, before);
      RunKeepsInv(b, before);
      StepKeepsInv(b, Run(b, before).value, run[|run| - 1]);
    }
    RunKeepsInv(b, run);
    NextIsBounded(b, Run(b, run).value);
  }

  lemma NextIsBounded(b: Batch, s: State)
    requires Inv(b, s)
    ensures s.next <= b.count == |s.refs| == |s.paths|
  {}

  // ------------------------------------------------------------ the result

  function Values(slots: seq<Option<string>>): seq<string>
    requires forall i :: 0 <= i < |slots| ==> slots[i].Some?
  {
    seq(|slots|, i requires 0 <= i < |slots| => slots[i].value)
  }

  ghost predicate FirstEmpty(slots: seq<Option<string>>, index: nat) {
    index < |slots| && slots[index].None? && forall i :: 0 <= i < index ==> slots[i].Some?
  }

  /** The two final passes: an empty slot would be an error. */
  method Collect(refs: seq<Option<string>>, paths: seq<Option<string>>)
    returns (r: Result<Files, PutError>)
    requires |refs| == |paths|
    ensures r.Ok? <==> forall i :: 0 <= i < |refs| ==> refs[i].Some? && paths[i].Some?
    ensures r.Ok? ==> r.value == (Values(refs), Values(paths))
    ensures r.Err? ==>
              if r.error.MissingRef? then FirstEmpty(refs, r.error.index)
              else && r.error.MissingPath? && FirstEmpty(paths, r.error.index)
                   && forall i :: 0 <= i < |refs| ==> refs[i].Some?
  {
    var foundRefs: seq<string>, foundPaths: seq<string> := [], [];
    for i := 0 to |refs|
      invariant |foundRefs| == i && forall k :: 0 <= k < i ==> refs[k] == Some(foundRefs[k])
    {
      if refs[i].None? {
        return Err(MissingRef(i));
      }
      foundRefs := foundRefs + [refs[i].value];
    }
    for i := 0 to |paths|
      invariant |foundPaths| == i && forall k :: 0 <= k < i ==> paths[k] == Some(foundPaths[k])
    {
      if paths[i].None? {
        return Err(MissingPath(i));
      }
      foundPaths := foundPaths + [paths[i].value];
    }
    assert foundRefs == Values(refs) && foundPaths == Values(paths);
    r := Ok((foundRefs, foundPaths));
  }

  /** What the slots say once every task has ended. */
  lemma DrainedIsSequential(b: Batch, s: State)
    requires Inv(b, s) && Drained(b, s)
    ensures |s.refs| == |s.paths| == b.count && forall i :: 0 <= i < b.count ==> s.refs[i].Some? && s.paths[i].Some?
    ensures SequentialPut(b.dir, b.count, b.outcome) == Ok((Values(s.refs), Values(s.paths)))
  {
    hide SequentialPut, PayloadPath;
    SequentialPutIsAMap(b.dir, b.count, b.outcome);
    var sequential := SequentialPut(b.dir, b.count, b.outcome).value;
    assert sequential.0 == Values(s.refs);
    assert sequential.1 == Values(s.paths);
  }

  lemma GivenUpIsSequential(b: Batch, s: State)
    requires Inv(b, s) && s.failed.Some?
    ensures SequentialPut(b.dir, b.count, b.outcome).Err?
    ensures exists i :: 0 <= i < b.count && b.outcome(i) == Err(s.failed.value)
  {
    SequentialPutIsAMap(b.dir, b.count, b.outcome);
  }

  lemma RunOneMore(b: Batch, run: seq<Event>, e: Event)
    requires Run(b, run).Some? && Enabled(b, Run(b, run).value, e)
    ensures Run(b, run + [e]) == Some(Step(b, Run(b, run).value, e))
  {
    assert (run + [e])[..|run|] == run;
  }

  lemma BatchShape(b: Batch, s: State)
    requires Inv(b, s)
    ensures s.next <= b.count == |s.refs| == |s.paths| && forall i :: i in s.tasks ==> i < s.next
  {}

  /** Whatever the order in which tasks end, the result is that of the sequential put, or the error of
      a task if any fails; an empty slot is never found. `run` is the run it makes, so that what holds
      of every run holds of it: its tasks in flight are bounded at every moment. */
  method PutGeneratedFilesConcurrent(b: Batch) returns (r: Result<Files, PutError>, ghost run: seq<Event>)
    requires b.Valid()
    ensures r.Ok? <==> SequentialPut(b.dir, b.count, b.outcome).Ok?
    ensures r.Ok? ==> SequentialPut(b.dir, b.count, b.outcome) == Ok(r.value)
    ensures r.Err? ==> r.error.OfTask? && exists i :: 0 <= i < b.count && b.outcome(i) == Err(r.error.error)
    ensures Run(b, run).Some? && (r.Ok? <==> Drained(b, Run(b, run).value))
    ensures r.Err? ==> r.error.OfTask? && Run(b, run).value.failed == Some(r.error.error)
    ensures forall n :: 0 <= n <= |run| ==> 0 <= InFlight(run[..n]) <= b.maxInFlight
  {
    hide Run, Inv, SequentialPut, PayloadPath, InFlight;
    run := [];
    var refs: seq<Option<string>> := seq(b.count, _ => None);
    var paths: seq<Option<string>> := seq(b.count, _ => None);
    var tasks: set<nat> := {};
    var next := 0;
    RunsFromNothing(b);
    while next < b.count || tasks != {}
      invariant Run(b, run) == Some(State(next, tasks, refs, paths, None))
      invariant next <= b.count == |refs| == |paths|
      decreases 2 * (b.count - next) + |tasks|
    {
      ghost var before := 2 * (b.count - next) + |tasks|;
      while next < b.count && |tasks| < b.maxInFlight
        invariant Run(b, run) == Some(State(next, tasks, refs, paths, None))
        invariant next <= b.count && 2 * (b.count - next) + |tasks| <= before
        invariant next < b.count || tasks != {}
        decreases b.count - next
      {
        RunOneMore(b, run, Spawned(next));
        run := run + [Spawned(next)];
        tasks, next := tasks + {next}, next + 1;
      }
      var index :| index in tasks;
      RunKeepsInv(b, run);
      BatchShape(b, State(next, tasks, refs, paths, None));
      RunOneMore(b, run, Joined(index));
      run := run + [Joined(index)];
      if b.outcome(index).Err? {
        RunIsBounded(b, run);
        RunKeepsInv(b, run);
        GivenUpIsSequential(b, Run(b, run).value);
        return Err(OfTask(b.outcome(index).error)), run;
      }
      tasks := tasks - {index};
      paths := paths[index := Some(PayloadPath(b.dir, index))];
      refs := refs[index := Some(b.outcome(index).value)];
    }
    RunIsBounded(b, run);
    RunKeepsInv(b, run);
    DrainedIsSequential(b, Run(b, run).value);
    r := Collect(refs, paths);
  }

  lemma RunsFromNothing(b: Batch)
    ensures Run(b, []) == Some(Initial(b))
  {}

  lemma RunIsBounded(b: Batch, run: seq<Event>)
    requires Run(b, run).Some?
    ensures forall n :: 0 <= n <= |run| ==> 0 <= InFlight(run[..n]) <= b.maxInFlight
  {
    hide Run, InFlight;
    forall n | 0 <= n <= |run| ensures 0 <= InFlight(run[..n]) <= b.maxInFlight { InFlightIsBounded(b, run, n); }
  }
}
