/** Staged transfer of a get plan (src/rpc/server/blob.rs and the chunked staging in
    src/experiments/blob/single_getter.rs): begin, append and finish build a plan, start takes it.
    Every critical section under the runtime lock is one step; finish has two, with file system
    work between them. */
module StagedTransfer {
  import opened Numbers
  import opened Text
  import opened Wrappers

  const REF_CHUNK_SIZE: nat := 1024

  datatype Rate = Finite(value: real) | NotFinite

  datatype Staged = Staged(expected: nat, rate: Rate, maxInFlight: nat, refs: seq<string>, nextChunk: nat)

  /** `batch` stands for the output directory of the finish that made the plan, which is its own. */
  datatype Plan = Plan(rate: Rate, maxInFlight: nat, refs: seq<string>, batch: nat)

  datatype Expr = Expr(runId: string, phase: string, hasStore: bool,
                       staging: map<string, Staged>, plans: map<string, Plan>)

  datatype Node = Node(current: Option<Expr>, generation: nat)

  datatype TransferError =
    | NoActiveRun | OtherRun(runId: string)
    | BlankPlanId | ZeroExpected | BadRate | ZeroInFlight
    | EmptyChunk | UnknownStaging | WrongChunk(expectedIndex: nat) | TooManyRefs
    | NoStore | WrongCount(received: nat) | UnknownPlan

  // ------------------------------------------------------------ the critical sections

  function ActiveExpr(node: Node, runId: string): Result<Expr, TransferError> {
    if node.current.None? then Err(NoActiveRun)
    else if node.current.value.runId != runId then Err(OtherRun(node.current.value.runId))
    else Ok(node.current.value)
  }

  function Changed(node: Node, expr: Expr, phase: string): Node {
    Node(Some(expr.(phase := phase)), node.generation + 1)
  }

  function BeginStaging(node: Node, runId: string, planId: string, expected: nat, rate: Rate, maxInFlight: nat)
    : (Node, Result<(), TransferError>)
  {
    if Blank(planId) then (node, Err(BlankPlanId))
    else if expected == 0 then (node, Err(ZeroExpected))
    else if rate.NotFinite? || rate.value <= 0.0 then (node, Err(BadRate))
    else if maxInFlight == 0 then (node, Err(ZeroInFlight))
    else
      match ActiveExpr(node, runId)
      case Err(error) => (node, Err(error))
      case Ok(expr) =>
        var staged := Staged(expected, rate, maxInFlight, [], 0);
        (Changed(node, expr.(staging := expr.staging[planId := staged]), "blob_paced_get_staging"), Ok(()))
  }

  function AppendStaging(node: Node, runId: string, planId: string, chunkIndex: nat, refs: seq<string>)
    : (Node, Result<(), TransferError>)
  {
    if refs == [] then (node, Err(EmptyChunk))
    else
      match ActiveExpr(node, runId)
      case Err(error) => (node, Err(error))
      case Ok(expr) =>
        if planId !in expr.staging then (node, Err(UnknownStaging))
        else
          var staged := expr.staging[planId];
          if chunkIndex != staged.nextChunk then (node, Err(WrongChunk(staged.nextChunk)))
          else if SaturatingAdd(|staged.refs|, |refs|) > staged.expected then (node, Err(TooManyRefs))
          else
            var longer := staged.(refs := staged.refs + refs, nextChunk := staged.nextChunk + 1);
            (Changed(node, expr.(staging := expr.staging[planId := longer]), "blob_paced_get_staging"), Ok(()))
  }

  /** The first section of finish, with the count check that follows it: a transfer of the wrong
      length is consumed all the same. */
  function TakeStaging(node: Node, runId: string, planId: string): (Node, Result<Staged, TransferError>) {
    match ActiveExpr(node, runId)
    case Err(error) => (node, Err(error))
    case Ok(expr) =>
      if !expr.hasStore then (node, Err(NoStore))
      else if planId !in expr.staging then (node, Err(UnknownStaging))
      else
        var staged := expr.staging[planId];
        var after := node.(current := Some(expr.(staging := expr.staging - {planId})));
        (after, if |staged.refs| != staged.expected then Err(WrongCount(|staged.refs|)) else Ok(staged))
  }

  /** The last section of finish. */
  function InsertPlan(node: Node, runId: string, planId: string, plan: Plan): (Node, Result<(), TransferError>) {
    match ActiveExpr(node, runId)
    case Err(error) => (node, Err(error))
    case Ok(expr) => (Changed(node, expr.(plans := expr.plans[planId := plan]), "blob_paced_get_ready"), Ok(()))
  }

  /** The first section of start. */
  function TakePlan(node: Node, runId: string, planId: string): (Node, Result<Plan, TransferError>) {
    match ActiveExpr(node, runId)
    case Err(error) => (node, Err(error))
    case Ok(expr) =>
      if planId !in expr.plans then (node, Err(UnknownPlan))
      else (Changed(node, expr.(plans := expr.plans - {planId}), "blob_paced_get_armed"), Ok(expr.plans[planId]))
  }

  class NodeRuntime {
    var current: Option<Expr>
    var generation: nat

    ghost function State(): Node reads this { Node(current, generation) }

    method PrepareBlobGetBegin(runId: string, planId: string, expected: nat, rate: Rate, maxInFlight: nat)
      returns (r: Result<(), TransferError>)
      modifies this
      ensures (State(), r) == BeginStaging(old(State()), runId, planId, expected, rate, maxInFlight)
      ensures r.Err? ==> State() == old(State())
    {
      if Blank(planId) { return Err(BlankPlanId); }
      if expected == 0 { return Err(ZeroExpected); }
      if rate.NotFinite? || rate.value <= 0.0 { return Err(BadRate); }
      if maxInFlight == 0 { return Err(ZeroInFlight); }
      if current.None? { return Err(NoActiveRun); }
      var expr := current.value;
      if expr.runId != runId { return Err(OtherRun(expr.runId)); }
      var staged := Staged(expected, rate, maxInFlight, [], 0);
      current := Some(expr.(staging := expr.staging[planId := staged], phase := "blob_paced_get_staging"));
      generation := generation + 1;
      r := Ok(());
    }

    method PrepareBlobGetAppend(runId: string, planId: string, chunkIndex: nat, refs: seq<string>)
      returns (r: Result<(), TransferError>)
      modifies this
      ensures (State(), r) == AppendStaging(old(State()), runId, planId, chunkIndex, refs)
      ensures r.Err? ==> State() == old(State())
    {
      if refs == [] { return Err(EmptyChunk); }
      if current.None? { return Err(NoActiveRun); }
      var expr := current.value;
      if expr.runId != runId { return Err(OtherRun(expr.runId)); }
      if planId !in expr.staging { return Err(UnknownStaging); }
      var staged := expr.staging[planId];
      if chunkIndex != staged.nextChunk { return Err(WrongChunk(staged.nextChunk)); }
      if SaturatingAdd(|staged.refs|, |refs|) > staged.expected { return Err(TooManyRefs); }
      staged := staged.(refs := staged.refs + refs, nextChunk := staged.nextChunk + 1);
      current := Some(expr.(staging := expr.staging[planId := staged], phase := "blob_paced_get_staging"));
      generation := generation + 1;
      r := Ok(());
    }

    method PrepareBlobGetFinishTake(runId: string, planId: string) returns (r: Result<Staged, TransferError>)
      modifies this
      ensures (State(), r) == TakeStaging(old(State()), runId, planId)
      ensures r.Ok? ==> |r.value.refs| == r.value.expected
    {
      if current.None? { return Err(NoActiveRun); }
      var expr := current.value;
      if expr.runId != runId { return Err(OtherRun(expr.runId)); }
      if !expr.hasStore { return Err(NoStore); }
      if planId !in expr.staging { return Err(UnknownStaging); }
      var staged := expr.staging[planId];
      current := Some(expr.(staging := expr.staging - {planId}));
      if |staged.refs| != staged.expected { return Err(WrongCount(|staged.refs|)); }
      r := Ok(staged);
    }

    method PrepareBlobGetFinishInsert(runId: string, planId: string, plan: Plan) returns (r: Result<(), TransferError>)
      modifies this
      ensures (State(), r) == InsertPlan(old(State()), runId, planId, plan)
    {
      if current.None? { return Err(NoActiveRun); }
      var expr := current.value;
      if expr.runId != runId { return Err(OtherRun(expr.runId)); }
      current := Some(expr.(plans := expr.plans[planId := plan], phase := "blob_paced_get_ready"));
      generation := generation + 1;
      r := Ok(());
    }

    method StartPreparedBlobGet(runId: string, planId: string) returns (r: Result<Plan, TransferError>)
      modifies this
      ensures (State(), r) == TakePlan(old(State()), runId, planId)
    {
      if current.None? { return Err(NoActiveRun); }
      var expr := current.value;
      if expr.runId != runId { return Err(OtherRun(expr.runId)); }
      if planId !in expr.plans { return Err(UnknownPlan); }
      r := Ok(expr.plans[planId]);
      current := Some(expr.(plans := expr.plans - {planId}, phase := "blob_paced_get_armed"));
      generation := generation + 1;
    }
  }

  // ------------------------------------------------------------ runs

  /** Take and Insert are the two sections of one finish, named by the position of its Take;
      Abandon is a finish that failed between them. DropRun and InstallRun are what begin and reset
      of an experiment do to the active run. */
  datatype Event =
    | Begin(runId: string, planId: string, expected: nat, rate: Rate, maxInFlight: nat)
    | Append(runId: string, planId: string, chunkIndex: nat, refs: seq<string>)
    | Take(runId: string, planId: string)
    | Insert(batch: nat)
    | Abandon(batch: nat)
    | Start(runId: string, planId: string)
    | DropRun
    | InstallRun(runId: string)
    | InitStore

  datatype Answer = Accepted | Rejected(error: TransferError) | Started(plan: Plan) | NotPending

  datatype Entry = Entry(event: Event, answer: Answer)

  datatype Finishing = Finishing(runId: string, planId: string, staged: Staged)

  datatype System = System(node: Node, finishing: map<nat, Finishing>, clock: nat)

  function Answered<T>(r: Result<T, TransferError>): Answer { if r.Ok? then Accepted else Rejected(r.error) }

  function PlanOf(staged: Staged, batch: nat): Plan { Plan(staged.rate, staged.maxInFlight, staged.refs, batch) }

  /** The effect of an event on the node and on the finishes in progress, and its answer. */
  function Effect(s: System, e: Event): (Node, map<nat, Finishing>, Answer) {
    match e
    case Begin(runId, planId, expected, rate, maxInFlight) =>
      var (node, r) := BeginStaging(s.node, runId, planId, expected, rate, maxInFlight);
      (node, s.finishing, Answered(r))
    case Append(runId, planId, chunkIndex, refs) =>
      var (node, r) := AppendStaging(s.node, runId, planId, chunkIndex, refs);
      (node, s.finishing, Answered(r))
    case Take(runId, planId) =>
      var (node, r) := TakeStaging(s.node, runId, planId);
      (node, if r.Ok? then s.finishing[s.clock := Finishing(runId, planId, r.value)] else s.finishing, Answered(r))
    case Insert(batch) =>
      if batch !in s.finishing then (s.node, s.finishing, NotPending)
      else
        var f := s.finishing[batch];
        var (node, r) := InsertPlan(s.node, f.runId, f.planId, PlanOf(f.staged, batch));
        (node, s.finishing - {batch}, Answered(r))
    case Abandon(batch) => (s.node, s.finishing - {batch}, NotPending)
    case Start(runId, planId) =>
      var (node, r) := TakePlan(s.node, runId, planId);
      (node, s.finishing, if r.Ok? then Started(r.value) else Rejected(r.error))
    case DropRun => (Node(None, s.node.generation), s.finishing, Accepted)
    case InstallRun(runId) =>
      (Node(Some(Expr(runId, "started", false, map[], map[])), s.node.generation + 1), s.finishing, Accepted)
    case InitStore =>
      var current := if s.node.current.Some? then Some(s.node.current.value.(hasStore := true)) else None;
      (s.node.(current := current), s.finishing, Accepted)
  }

  function Step(s: System, e: Event): System {
    var (node, finishing, _) := Effect(s, e);
    System(node, finishing, s.clock + 1)
  }

  function AnswerTo(s: System, e: Event): Answer { Effect(s, e).2 }

  const INITIAL: System := System(Node(None, 0), map[], 0)

  function Run(s: System, events: seq<Event>): System {
    if events == [] then s
    else Step(Run(s, events[..|events| - 1]), events[|events| - 1])
  }

  function Log(s: System, events: seq<Event>): (log: seq<Entry>)
    ensures |log| == |events|
  {
    if events == [] then []
    else
      var last := events[|events| - 1];
      Log(s, events[..|events| - 1]) + [Entry(last, AnswerTo(Run(s, events[..|events| - 1]), last))]
  }

  // ------------------------------------------------------------ the reference: what the log says

  function Flatten<T>(chunks: seq<seq<T>>): seq<T> {
    if chunks == [] then [] else Flatten(chunks[..|chunks| - 1]) + chunks[|chunks| - 1]
  }

  datatype Transfer = Transfer(expected: nat, rate: Rate, maxInFlight: nat, chunks: seq<seq<string>>)

  /** The transfer of a plan that the log leaves open: the chunks accepted since its last begin. It
      looks at the log alone, never at the node. */
  function OpenTransfer(log: seq<Entry>, planId: string): Option<Transfer> {
    if log == [] then None
    else
      var before := OpenTransfer(log[..|log| - 1], planId);
      var entry := log[|log| - 1];
      match entry.event
      case Begin(_, p, expected, rate, maxInFlight) =>
        if p == planId && entry.answer.Accepted? then Some(Transfer(expected, rate, maxInFlight, [])) else before
      case Append(_, p, _, refs) =>
        if p == planId && entry.answer.Accepted? && before.Some?
        then Some(before.value.(chunks := before.value.chunks + [refs])) else before
      case Take(_, p) =>
        if p == planId && (entry.answer.Accepted? || (entry.answer.Rejected? && entry.answer.error.WrongCount?))
        then None else before
      case DropRun => None
      case InstallRun(_) => None
      case _ => before
  }

  function AsStaged(transfer: Option<Transfer>): Option<Staged> {
    if transfer.None? then None
    else
      var t := transfer.value;
      Some(Staged(t.expected, t.rate, t.maxInFlight, Flatten(t.chunks), |t.chunks|))
  }

  function StagedIn(node: Node, planId: string): Option<Staged> {
    if node.current.Some? && planId in node.current.value.staging
    then Some(node.current.value.staging[planId]) else None
  }

  function PlanIn(node: Node, planId: string): Option<Plan> {
    if node.current.Some? && planId in node.current.value.plans then Some(node.current.value.plans[planId]) else None
  }

  /** The batch is a finish of that plan which the log accepted, and `staged` is exactly what the
      log had open for the plan at that moment, complete. */
  ghost predicate TakenAt(log: seq<Entry>, batch: nat, planId: string, staged: Staged) {
    && batch < |log|
    && log[batch].event.Take? && log[batch].event.planId == planId && log[batch].answer.Accepted?
    && AsStaged(OpenTransfer(log[..batch], planId)) == Some(staged)
    && |staged.refs| == staged.expected
  }

  function StartedBatches(log: seq<Entry>): set<nat> {
    if log == [] then {}
    else
      var answer := log[|log| - 1].answer;
      StartedBatches(log[..|log| - 1]) + if answer.Started? then {answer.plan.batch} else {}
  }

  // ------------------------------------------------------------ one step

  lemma FlattenAppend<T>(chunks: seq<seq<T>>, chunk: seq<T>)
    ensures Flatten(chunks + [chunk]) == Flatten(chunks) + chunk
  {
    assert (chunks + [chunk])[..|chunks|] == chunks;
  }

  lemma OpenAfter(log: seq<Entry>, entry: Entry, planId: string)
    ensures (log + [entry])[..|log|] == log
    ensures entry.event.Insert? || entry.event.Abandon? || entry.event.Start? || entry.event.InitStore? ==>
              OpenTransfer(log + [entry], planId) == OpenTransfer(log, planId)
  {
    assert (log + [entry])[..|log|] == log;
  }

  /** What an event and its answer make of the staged transfer of one plan. */
  function NextStaged(before: Option<Staged>, e: Event, answer: Answer, planId: string): Option<Staged> {
    match e
    case Begin(_, p, expected, rate, maxInFlight) =>
      if p == planId && answer.Accepted? then Some(Staged(expected, rate, maxInFlight, [], 0)) else before
    case Append(_, p, _, refs) =>
      if p == planId && answer.Accepted? && before.Some?
      then Some(before.value.(refs := before.value.refs + refs, nextChunk := before.value.nextChunk + 1)) else before
    case Take(_, p) =>
      if p == planId && (answer.Accepted? || (answer.Rejected? && answer.error.WrongCount?)) then None else before
    case DropRun => None
    case InstallRun(_) => None
    case _ => before
  }

  lemma NodeStagesNext(s: System, e: Event, planId: string)
    ensures StagedIn(Step(s, e).node, planId) == NextStaged(StagedIn(s.node, planId), e, AnswerTo(s, e), planId)
  {}

  lemma LogStagesNext(log: seq<Entry>, entry: Entry, planId: string)
    ensures AsStaged(OpenTransfer(log + [entry], planId))
         == NextStaged(AsStaged(OpenTransfer(log, planId)), entry.event, entry.answer, planId)
  {
    hide Flatten;
    assert (log + [entry])[..|log|] == log;
    FlattenNothing<string>();
    if entry.event.Append? && OpenTransfer(log, planId).Some? {
      FlattenAppend(OpenTransfer(log, planId).value.chunks, entry.event.refs);
    }
  }

  lemma FlattenNothing<T>()
    ensures Flatten<T>([]) == []
  {}

  /** The node's staging area is a function of the log alone. */
  lemma StagingFollowsTheLog(s: System, e: Event, log: seq<Entry>, planId: string)
    requires StagedIn(s.node, planId) == AsStaged(OpenTransfer(log, planId))
    ensures StagedIn(Step(s, e).node, planId) == AsStaged(OpenTransfer(log + [Entry(e, AnswerTo(s, e))], planId))
  {
    hide StagedIn, AsStaged, OpenTransfer, NextStaged, Effect;
    NodeStagesNext(s, e, planId);
    LogStagesNext(log, Entry(e, AnswerTo(s, e)), planId);
  }

  // ------------------------------------------------------------ what every run keeps

  ghost predicate StagingOk(s: System, log: seq<Entry>) {
    forall planId: string :: StagedIn(s.node, planId) == AsStaged(OpenTransfer(log, planId))
  }

  ghost predicate FinishingOk(s: System, log: seq<Entry>) {
    forall batch :: batch in s.finishing ==>
      TakenAt(log, batch, s.finishing[batch].planId, s.finishing[batch].staged) && batch !in StartedBatches(log)
  }

  /** A plan is the transfer its finish took, that finish is over, and it was not started. */
  ghost predicate PlanOk(s: System, log: seq<Entry>, planId: string, plan: Plan) {
    && (exists staged :: TakenAt(log, plan.batch, planId, staged) && plan == PlanOf(staged, plan.batch))
    && plan.batch !in s.finishing && plan.batch !in StartedBatches(log)
  }

  ghost predicate PlansOk(s: System, log: seq<Entry>) {
    forall planId: string :: PlanIn(s.node, planId).Some? ==> PlanOk(s, log, planId, PlanIn(s.node, planId).value)
  }

  ghost predicate StartedOk(log: seq<Entry>) {
    forall batch :: batch in StartedBatches(log) ==> batch < |log|
  }

  ghost predicate Inv(s: System, log: seq<Entry>) {
    s.clock == |log| && StagingOk(s, log) && FinishingOk(s, log) && PlansOk(s, log) && StartedOk(log)
  }

  lemma TakenStays(log: seq<Entry>, entry: Entry, batch: nat, planId: string, staged: Staged)
    requires TakenAt(log, batch, planId, staged)
    ensures TakenAt(log + [entry], batch, planId, staged)
  {
    assert (log + [entry])[..batch] == log[..batch];
  }

  lemma StartedAfter(log: seq<Entry>, entry: Entry)
    ensures StartedBatches(log + [entry]) ==
            StartedBatches(log) + if entry.answer.Started? then {entry.answer.plan.batch} else {}
  {
    assert (log + [entry])[..|log|] == log;
  }

  /** An accepted Take holds what the log had open. */
  lemma TakeIsExact(s: System, e: Event, log: seq<Entry>)
    requires Inv(s, log) && e.Take? && AnswerTo(s, e).Accepted?
    ensures s.clock in Step(s, e).finishing && Step(s, e).finishing[s.clock].planId == e.planId
    ensures TakenAt(log + [Entry(e, Accepted)], s.clock, e.planId, Step(s, e).finishing[s.clock].staged)
  {
    assert (log + [Entry(e, Accepted)])[..|log|] == log;
    assert StagedIn(s.node, e.planId) == AsStaged(OpenTransfer(log, e.planId));
  }

  lemma FinishingKept(s: System, e: Event, log: seq<Entry>, batch: nat)
    requires Inv(s, log) && batch in Step(s, e).finishing
    ensures var log' := log + [Entry(e, AnswerTo(s, e))];
            var f := Step(s, e).finishing[batch];
            TakenAt(log', batch, f.planId, f.staged) && batch !in StartedBatches(log')
  {
    hide OpenTransfer, StartedBatches, StagedIn, BeginStaging, AppendStaging, StagingOk;
    var entry := Entry(e, AnswerTo(s, e));
    StartedAfter(log, entry);
    if batch in s.finishing && s.finishing[batch] == Step(s, e).finishing[batch] {
      TakenStays(log, entry, batch, s.finishing[batch].planId, s.finishing[batch].staged);
      if e.Start? && entry.answer.Started? {
        assert PlanIn(s.node, e.planId) == Some(entry.answer.plan);
      }
    } else {
      TakeIsExact(s, e, log);
    }
  }

  /** Where a plan after a step comes from. */
  lemma PlanComesFrom(s: System, e: Event, planId: string)
    requires PlanIn(Step(s, e).node, planId).Some?
    ensures var plan := PlanIn(Step(s, e).node, planId).value;
            || (PlanIn(s.node, planId) == Some(plan) && !(e.Start? && AnswerTo(s, e).Started? && e.planId == planId))
            || (e.Insert? && e.batch in s.finishing && plan == PlanOf(s.finishing[e.batch].staged, e.batch)
                && s.finishing[e.batch].planId == planId && Step(s, e).finishing == s.finishing - {e.batch})
    ensures e.Start? && AnswerTo(s, e).Started? ==> PlanIn(s.node, e.planId) == Some(AnswerTo(s, e).plan)
  {}

  lemma NotFinishingAgain(s: System, e: Event, batch: nat)
    requires batch < s.clock && batch !in s.finishing
    ensures batch !in Step(s, e).finishing
  {}

  lemma StartsAPlan(s: System, e: Event)
    requires AnswerTo(s, e).Started?
    ensures e.Start? && PlanIn(s.node, e.planId) == Some(AnswerTo(s, e).plan)
  {}

  /** Plans of different names come from different finishes. */
  lemma OtherPlanOtherBatch(s: System, log: seq<Entry>, p: string, q: string, a: Plan, b: Plan)
    requires PlanOk(s, log, p, a) && PlanOk(s, log, q, b) && p != q
    ensures a.batch != b.batch
  {}

  lemma KeptPlanOk(s: System, e: Event, log: seq<Entry>, planId: string, plan: Plan)
    requires Inv(s, log) && PlanIn(s.node, planId) == Some(plan)
    requires !(e.Start? && AnswerTo(s, e).Started? && e.planId == planId)
    ensures PlanOk(Step(s, e), log + [Entry(e, AnswerTo(s, e))], planId, plan)
  {
    hide OpenTransfer, StartedBatches, StagedIn, StagingOk, AsStaged, Effect, PlanIn;
    var entry := Entry(e, AnswerTo(s, e));
    StartedAfter(log, entry);
    var staged :| TakenAt(log, plan.batch, planId, staged) && plan == PlanOf(staged, plan.batch);
    TakenStays(log, entry, plan.batch, planId, staged);
    NotFinishingAgain(s, e, plan.batch);
    if entry.answer.Started? {
      StartsAPlan(s, e);
      OtherPlanOtherBatch(s, log, planId, e.planId, plan, entry.answer.plan);
    }
  }

  lemma InsertedPlanOk(s: System, e: Event, log: seq<Entry>)
    requires Inv(s, log) && e.Insert? && e.batch in s.finishing
    ensures var f := s.finishing[e.batch];
            PlanOk(Step(s, e), log + [Entry(e, AnswerTo(s, e))], f.planId, PlanOf(f.staged, e.batch))
  {
    hide OpenTransfer, StartedBatches, StagedIn, StagingOk, AsStaged, InsertPlan;
    var entry := Entry(e, AnswerTo(s, e));
    StartedAfter(log, entry);
    TakenStays(log, entry, e.batch, s.finishing[e.batch].planId, s.finishing[e.batch].staged);
  }

  lemma PlanKept(s: System, e: Event, log: seq<Entry>, planId: string)
    requires Inv(s, log) && PlanIn(Step(s, e).node, planId).Some?
    ensures PlanOk(Step(s, e), log + [Entry(e, AnswerTo(s, e))], planId, PlanIn(Step(s, e).node, planId).value)
  {
    hide OpenTransfer, StartedBatches, StagedIn, PlanIn, Effect, StagingOk, AsStaged, PlanOk, Inv;
    PlanComesFrom(s, e, planId);
    var plan := PlanIn(Step(s, e).node, planId).value;
    if PlanIn(s.node, planId) == Some(plan) && !(e.Start? && AnswerTo(s, e).Started? && e.planId == planId) {
      KeptPlanOk(s, e, log, planId, plan);
    } else {
      InsertedPlanOk(s, e, log);
    }
  }

  lemma StartedKept(s: System, e: Event, log: seq<Entry>)
    requires Inv(s, log)
    ensures StartedOk(log + [Entry(e, AnswerTo(s, e))])
  {
    hide OpenTransfer, StartedBatches, StagedIn, StagingOk, AsStaged, Effect, PlanIn;
    StartedAfter(log, Entry(e, AnswerTo(s, e)));
    if AnswerTo(s, e).Started? { StartsAPlan(s, e); }
  }

  lemma StepKeepsInv(s: System, e: Event, log: seq<Entry>)
    requires Inv(s, log)
    ensures Inv(Step(s, e), log + [Entry(e, AnswerTo(s, e))])
  {
    hide OpenTransfer, StartedBatches, StagedIn, PlanIn, Effect, AsStaged, PlanOk, TakenAt, StartedOk;
    var entry := Entry(e, AnswerTo(s, e));
    forall planId: string ensures StagedIn(Step(s, e).node, planId) == AsStaged(OpenTransfer(log + [entry], planId)) {
      StagingFollowsTheLog(s, e, log, planId);
    }
    forall batch | batch in Step(s, e).finishing
      ensures TakenAt(log + [entry], batch, Step(s, e).finishing[batch].planId, Step(s, e).finishing[batch].staged)
      ensures batch !in StartedBatches(log + [entry])
    {
      FinishingKept(s, e, log, batch);
    }
    forall planId: string | PlanIn(Step(s, e).node, planId).Some?
      ensures PlanOk(Step(s, e), log + [entry], planId, PlanIn(Step(s, e).node, planId).value)
    {
      PlanKept(s, e, log, planId);
    }
    StartedKept(s, e, log);
  }

  lemma {:induction false} EveryRunIsConsistent(events: seq<Event>)
    ensures Inv(Run(INITIAL, events), Log(INITIAL, events))
  {
    hide Effect, OpenTransfer, StartedBatches, AsStaged, StagedIn, PlanIn;
    if events == [] {
      InitiallyConsistent();
    } else {
      var before := events[..|events| - 1];
      EveryRunIsConsistent(before);
      StepKeepsInv(Run(INITIAL, before), events[|events| - 1], Log(INITIAL, before));
    }
  }

  lemma InitiallyConsistent()
    ensures Inv(INITIAL, [])
  {}

  // ------------------------------------------------------------ main results

  /** Whatever the interleaving, a started plan is the exact concatenation of the chunks its finish
      took: those accepted since the last begin of that plan before that finish. */
  lemma StartedPlanIsExact(events: seq<Event>, runId: string, planId: string)
    requires AnswerTo(Run(INITIAL, events), Start(runId, planId)).Started?
    ensures var plan := AnswerTo(Run(INITIAL, events), Start(runId, planId)).plan;
            var log := Log(INITIAL, events);
            && plan.batch < |log| && log[plan.batch].event.Take? && log[plan.batch].event.planId == planId
            && var open := OpenTransfer(log[..plan.batch], planId);
            && open.Some? && plan.refs == Flatten(open.value.chunks) && |plan.refs| == open.value.expected
            && plan.rate == open.value.rate && plan.maxInFlight == open.value.maxInFlight
  {
    hide OpenTransfer, StartedBatches, Flatten, PlanIn, Effect, Run, Log;
    EveryRunIsConsistent(events);
    StartsAPlan(Run(INITIAL, events), Start(runId, planId));
  }

  /** No finish is started twice. */
  lemma {:induction false} FinishedPlanStartsOnce(events: seq<Event>, i: nat, j: nat)
    requires i < j < |events|
    requires Log(INITIAL, events)[i].answer.Started? && Log(INITIAL, events)[j].answer.Started?
    ensures Log(INITIAL, events)[i].answer.plan.batch != Log(INITIAL, events)[j].answer.plan.batch
  {
    hide Effect, OpenTransfer, StartedBatches, AsStaged, StagedIn, PlanIn;
    var last := |events| - 1;
    if j < last {
      FinishedPlanStartsOnce(events[..last], i, j);
    } else {
      StartedIsSpent(events[..last], i);
      StartIsFresh(events[..last], events[last]);
    }
  }

  lemma {:induction false} StartedIsSpent(events: seq<Event>, i: nat)
    requires i < |events| && Log(INITIAL, events)[i].answer.Started?
    ensures Log(INITIAL, events)[i].answer.plan.batch in StartedBatches(Log(INITIAL, events))
  {
    hide Effect, OpenTransfer, AsStaged, StagedIn, PlanIn;
    var last := |events| - 1;
    if i < last { StartedIsSpent(events[..last], i); }
  }

  lemma StartIsFresh(events: seq<Event>, e: Event)
    requires AnswerTo(Run(INITIAL, events), e).Started?
    ensures AnswerTo(Run(INITIAL, events), e).plan.batch !in StartedBatches(Log(INITIAL, events))
  {
    hide OpenTransfer, StartedBatches, AsStaged, StagedIn, PlanIn, Effect, Run, Log;
    EveryRunIsConsistent(events);
    StartsAPlan(Run(INITIAL, events), e);
  }

  /** A refused append leaves the node as it was. */
  lemma RejectedAppendChangesNothing(s: System, e: Event)
    requires e.Append? && AnswerTo(s, e).Rejected?
    ensures Step(s, e).node == s.node && Step(s, e).finishing == s.finishing
  {}

  /** An append is accepted exactly when it is the next chunk of an open transfer and fits. */
  lemma AppendIsAcceptedIff(s: System, e: Event, log: seq<Entry>)
    requires Inv(s, log) && e.Append?
    ensures AnswerTo(s, e).Accepted? <==>
              && s.node.current.Some? && s.node.current.value.runId == e.runId
              && e.refs != []
              && var open := OpenTransfer(log, e.planId);
              && open.Some? && e.chunkIndex == |open.value.chunks|
              && SaturatingAdd(|Flatten(open.value.chunks)|, |e.refs|) <= open.value.expected
  {
    hide OpenTransfer, Flatten, StartedBatches, PlansOk, FinishingOk;
    assert StagedIn(s.node, e.planId) == AsStaged(OpenTransfer(log, e.planId));
  }

  ghost predicate OnRun(s: System, runId: string) {
    s.node.current.Some? && s.node.current.value.runId == runId
  }

  /** A begin is accepted exactly on the active run with a proper name, length, rate and bound, and then
      the log has an empty transfer open. */
  lemma BeginIsAcceptedIff(s: System, e: Event, log: seq<Entry>)
    requires Inv(s, log) && e.Begin?
    ensures AnswerTo(s, e).Accepted? <==>
              && OnRun(s, e.runId) && !Blank(e.planId)
              && e.expected > 0 && e.rate.Finite? && e.rate.value > 0.0 && e.maxInFlight > 0
    ensures AnswerTo(s, e).Accepted? ==>
              OpenTransfer(log + [Entry(e, Accepted)], e.planId)
              == Some(Transfer(e.expected, e.rate, e.maxInFlight, []))
    ensures !AnswerTo(s, e).Accepted? ==> Step(s, e).node == s.node && Step(s, e).finishing == s.finishing
  {
    hide Inv;
    assert (log + [Entry(e, Accepted)])[..|log|] == log;
  }

  /** A start is accepted exactly on the active run with that plan finished; the plan is then gone, and
      every other stays. */
  lemma StartIsAcceptedIff(s: System, e: Event)
    requires e.Start?
    ensures AnswerTo(s, e).Started? <==> OnRun(s, e.runId) && PlanIn(s.node, e.planId).Some?
    ensures AnswerTo(s, e).Started? ==> AnswerTo(s, e).plan == PlanIn(s.node, e.planId).value
    ensures AnswerTo(s, e).Started? ==> PlanIn(Step(s, e).node, e.planId).None?
    ensures !AnswerTo(s, e).Started? ==> Step(s, e).node == s.node
    ensures forall p: string :: p != e.planId ==> PlanIn(Step(s, e).node, p) == PlanIn(s.node, p)
  {}

  /** The last section of a finish stores its plan exactly if its run is still the active one. */
  lemma InsertIsAcceptedIff(s: System, e: Event)
    requires e.Insert? && e.batch in s.finishing
    ensures var f := s.finishing[e.batch];
            && (AnswerTo(s, e).Accepted? <==> OnRun(s, f.runId))
            && (AnswerTo(s, e).Accepted? ==>
                  PlanIn(Step(s, e).node, f.planId)
                  == Some(Plan(f.staged.rate, f.staged.maxInFlight, f.staged.refs, e.batch)))
            && (!AnswerTo(s, e).Accepted? ==> Step(s, e).node == s.node)
            && (forall p: string :: p != f.planId ==> PlanIn(Step(s, e).node, p) == PlanIn(s.node, p))
  {}

  /** Every refusal is true: what it says is so, of the call, the run and what the log left open. */
  ghost predicate RefusalIsTrue(s: System, e: Event, open: Option<Transfer>, error: TransferError)
    requires e.Begin? || e.Append? || e.Take? || e.Start?
  {
    match error
    case NoActiveRun => s.node.current.None?
    case OtherRun(active) => OnRun(s, active) && !OnRun(s, e.runId)
    case BlankPlanId => e.Begin? && Blank(e.planId)
    case ZeroExpected => e.Begin? && e.expected == 0
    case BadRate => e.Begin? && (e.rate.NotFinite? || e.rate.value <= 0.0)
    case ZeroInFlight => e.Begin? && e.maxInFlight == 0
    case EmptyChunk => e.Append? && e.refs == []
    case UnknownStaging => (e.Append? || e.Take?) && open.None?
    case WrongChunk(next) => e.Append? && open.Some? && next == |open.value.chunks| != e.chunkIndex
    case TooManyRefs =>
      && e.Append? && open.Some?
      && SaturatingAdd(|Flatten(open.value.chunks)|, |e.refs|) > open.value.expected
    case NoStore => e.Take? && OnRun(s, e.runId) && !s.node.current.value.hasStore
    case WrongCount(received) =>
      e.Take? && open.Some? && received == |Flatten(open.value.chunks)| != open.value.expected
    case UnknownPlan => e.Start? && PlanIn(s.node, e.planId).None?
  }

  lemma RefusalsAreTrue(s: System, e: Event, log: seq<Entry>)
    requires Inv(s, log) && (e.Begin? || e.Append? || e.Take? || e.Start?) && AnswerTo(s, e).Rejected?
    ensures RefusalIsTrue(s, e, OpenTransfer(log, e.planId), AnswerTo(s, e).error)
  {
    hide OpenTransfer, Flatten, StartedBatches, PlansOk, FinishingOk;
    assert StagedIn(s.node, e.planId) == AsStaged(OpenTransfer(log, e.planId));
  }

  /** The first section of a finish, accepted or not, changes nothing but the staging of its own plan,
      which is gone if the transfer was found, complete or not. */
  lemma TakeTakesOnlyTheStaging(s: System, e: Event)
    requires e.Take?
    ensures var answer, after := AnswerTo(s, e), Step(s, e).node;
            && after.generation == s.node.generation
            && (if answer.Accepted? || (answer.Rejected? && answer.error.WrongCount?)
                then && s.node.current.Some?
                     && after.current
                        == Some(s.node.current.value.(staging := s.node.current.value.staging - {e.planId}))
                else after == s.node && Step(s, e).finishing == s.finishing)
  {}

  /** An accepted call but a Take, whose finish shows at its end, raises the generation and shows its
      phase. */
  lemma AcceptedIsShown(s: System, e: Event)
    requires e.Begin? || e.Append? || e.Start? || (e.Insert? && e.batch in s.finishing)
    requires AnswerTo(s, e).Accepted? || AnswerTo(s, e).Started?
    ensures s.node.current.Some? && Step(s, e).node.current.Some?
    ensures Step(s, e).node.generation == s.node.generation + 1
    ensures var before, after := s.node.current.value, Step(s, e).node.current.value;
            && after.runId == before.runId && after.hasStore == before.hasStore
            && after.phase == match e case Start(_, _) => "blob_paced_get_armed"
                                      case Insert(_) => "blob_paced_get_ready"
                                      case _ => "blob_paced_get_staging"
  {}

  /** A finish gets past its count check exactly when the open transfer is complete. A store is the
      only other thing it needs, and without one the transfer stays open. */
  lemma FinishIsAcceptedIff(s: System, e: Event, log: seq<Entry>)
    requires Inv(s, log) && e.Take?
    requires s.node.current.Some? && s.node.current.value.runId == e.runId
    ensures var open := OpenTransfer(log, e.planId);
            && (AnswerTo(s, e).Accepted? <==>
                  (&& s.node.current.value.hasStore && open.Some?
                   && |Flatten(open.value.chunks)| == open.value.expected))
            && (OpenTransfer(log + [Entry(e, AnswerTo(s, e))], e.planId) ==
                  if s.node.current.value.hasStore then None else open)
  {
    hide Flatten, StartedBatches, PlansOk, FinishingOk;
    OpenAfter(log, Entry(e, AnswerTo(s, e)), e.planId);
    assert StagedIn(s.node, e.planId) == AsStaged(OpenTransfer(log, e.planId));
  }

  // ------------------------------------------------------------ the client's transfer

  predicate ChangesRun(e: Event) { e.DropRun? || e.InstallRun? }

  predicate Stages(e: Event, planId: string) { (e.Begin? || e.Append? || e.Take?) && e.planId == planId }

  /** The events that stage one plan, out of everything that happens on the node. */
  function Project(events: seq<Event>, planId: string): seq<Event> {
    if events == [] then []
    else
      var last := events[|events| - 1];
      Project(events[..|events| - 1], planId) + if Stages(last, planId) then [last] else []
  }

  /** Steps of other plans leave a plan's staging area alone, and only its own Insert and Start
      touch the finished plan. */
  lemma OthersDoNotInterfere(s: System, e: Event, planId: string)
    requires !ChangesRun(e)
    ensures !Stages(e, planId) ==> StagedIn(Step(s, e).node, planId) == StagedIn(s.node, planId)
    ensures !(e.Start? && e.planId == planId)
            && !(e.Insert? && e.batch in s.finishing && s.finishing[e.batch].planId == planId) ==>
              PlanIn(Step(s, e).node, planId) == PlanIn(s.node, planId)
  {}

  /** `slice::chunks`: chunk k of a list. */
  function ChunkCount(refs: seq<string>): nat { (|refs| + REF_CHUNK_SIZE - 1) / REF_CHUNK_SIZE }

  function Upto(refs: seq<string>, k: nat): nat {
    if k * REF_CHUNK_SIZE < |refs| then k * REF_CHUNK_SIZE else |refs|
  }

  function Chunk(refs: seq<string>, k: nat): seq<string> { refs[Upto(refs, k)..Upto(refs, k + 1)] }

  function Chunks(refs: seq<string>, k: nat): (chunks: seq<seq<string>>)
    ensures |chunks| == k
  {
    if k == 0 then [] else Chunks(refs, k - 1) + [Chunk(refs, k - 1)]
  }

  lemma TakeMore(refs: seq<string>, a: nat, b: nat)
    requires a <= b <= |refs|
    ensures refs[..a] + refs[a..b] == refs[..b]
  {}

  lemma {:induction false} ChunksRebuildPrefix(refs: seq<string>, k: nat)
    ensures Flatten(Chunks(refs, k)) == refs[..Upto(refs, k)]
  {
    hide Flatten;
    if k > 0 {
      ChunksRebuildPrefix(refs, k - 1);
      FlattenAppend(Chunks(refs, k - 1), Chunk(refs, k - 1));
      TakeMore(refs, Upto(refs, k - 1), Upto(refs, k));
    } else {
      FlattenNothing<string>();
    }
  }

  lemma ChunkIsProper(refs: seq<string>, k: nat)
    requires k < ChunkCount(refs)
    ensures 0 < |Chunk(refs, k)| <= REF_CHUNK_SIZE
    ensures k + 1 < ChunkCount(refs) ==> |Chunk(refs, k)| == REF_CHUNK_SIZE
  {}

  /** The chunks of a list are the list. */
  lemma ChunksRebuild(refs: seq<string>)
    ensures Upto(refs, ChunkCount(refs)) == |refs|
    ensures Flatten(Chunks(refs, ChunkCount(refs))) == refs
  {
    hide Flatten, Chunks;
    ChunksRebuildPrefix(refs, ChunkCount(refs));
    assert refs[..|refs|] == refs;
  }

  /** What run_datapoint sends before its finish, up to k chunks. */
  function ClientEvents(runId: string, planId: string, rate: Rate, maxInFlight: nat, refs: seq<string>, k: nat)
    : seq<Event>
  {
    if k == 0 then [Begin(runId, planId, |refs|, rate, maxInFlight)]
    else
      ClientEvents(runId, planId, rate, maxInFlight, refs, k - 1) +
      [Append(runId, planId, k - 1, Chunk(refs, k - 1))]
  }

  ghost predicate ReadyFor(s: System, runId: string) {
    s.node.current.Some? && s.node.current.value.runId == runId && s.node.current.value.hasStore
  }

  lemma StaysReady(s: System, e: Event, runId: string)
    requires ReadyFor(s, runId) && !ChangesRun(e)
    ensures ReadyFor(Step(s, e), runId)
  {}

  lemma ClientBegins(s: System, runId: string, planId: string, rate: Rate, maxInFlight: nat, refs: seq<string>)
    requires ReadyFor(s, runId) && !Blank(planId) && rate.Finite? && rate.value > 0.0 && maxInFlight > 0 && refs != []
    ensures var e := Begin(runId, planId, |refs|, rate, maxInFlight);
            && AnswerTo(s, e).Accepted?
            && StagedIn(Step(s, e).node, planId) == Some(Staged(|refs|, rate, maxInFlight, refs[..Upto(refs, 0)], 0))
  {}

  lemma ClientAppends(s: System, runId: string, planId: string, rate: Rate, maxInFlight: nat, refs: seq<string>, k: nat)
    requires ReadyFor(s, runId) && k < ChunkCount(refs)
    requires StagedIn(s.node, planId) == Some(Staged(|refs|, rate, maxInFlight, refs[..Upto(refs, k)], k))
    ensures var e := Append(runId, planId, k, Chunk(refs, k));
            && AnswerTo(s, e).Accepted?
            && StagedIn(Step(s, e).node, planId)
            == Some(Staged(|refs|, rate, maxInFlight, refs[..Upto(refs, k + 1)], k + 1))
  {
    ChunkIsProper(refs, k);
    TakeMore(refs, Upto(refs, k), Upto(refs, k + 1));
  }

  /** While a client sends its begin and its first k chunks, whatever other clients do in between,
      every one of its calls is accepted and the node holds the first k chunks. */
  lemma {:induction false} ClientProgress(s: System, events: seq<Event>, runId: string, planId: string, rate: Rate,
                                          maxInFlight: nat, refs: seq<string>, k: nat)
    requires ReadyFor(s, runId) && !Blank(planId) && rate.Finite? && rate.value > 0.0 && maxInFlight > 0 && refs != []
    requires k <= ChunkCount(refs)
    requires forall i :: 0 <= i < |events| ==> !ChangesRun(events[i])
    requires Project(events, planId) == ClientEvents(runId, planId, rate, maxInFlight, refs, k)
    ensures ReadyFor(Run(s, events), runId)
    ensures StagedIn(Run(s, events).node, planId) == Some(Staged(|refs|, rate, maxInFlight, refs[..Upto(refs, k)], k))
    ensures forall i :: 0 <= i < |events| && Stages(events[i], planId) ==> Log(s, events)[i].answer.Accepted?
    decreases |events|
  {
    hide Effect, StagedIn, ReadyFor, Upto, Chunk, ChunkCount, Stages;
    assert events != [];
    var before, last := events[..|events| - 1], events[|events| - 1];
    if !Stages(last, planId) {
      ClientProgress(s, before, runId, planId, rate, maxInFlight, refs, k);
      OthersDoNotInterfere(Run(s, before), last, planId);
    } else if k > 0 {
      var chunk := Append(runId, planId, k - 1, Chunk(refs, k - 1));
      LastOfBoth(Project(before, planId), last, ClientEvents(runId, planId, rate, maxInFlight, refs, k - 1), chunk);
      ClientProgress(s, before, runId, planId, rate, maxInFlight, refs, k - 1);
      ClientAppends(Run(s, before), runId, planId, rate, maxInFlight, refs, k - 1);
    } else {
      LastOfBoth(Project(before, planId), last, [], Begin(runId, planId, |refs|, rate, maxInFlight));
      NothingStagedBefore(s, before, runId, planId);
      ClientBegins(Run(s, before), runId, planId, rate, maxInFlight, refs);
    }
    StaysReady(Run(s, before), last, runId);
  }

  lemma LastOfBoth(a: seq<Event>, x: Event, b: seq<Event>, y: Event)
    requires a + [x] == b + [y]
    ensures a == b && x == y
  {
    assert a == (a + [x])[..|a + [x]| - 1] == b;
    assert x == (a + [x])[|a + [x]| - 1];
  }

  lemma {:induction false} NothingStagedBefore(s: System, events: seq<Event>, runId: string, planId: string)
    requires ReadyFor(s, runId) && Project(events, planId) == []
    requires forall i :: 0 <= i < |events| ==> !ChangesRun(events[i])
    ensures ReadyFor(Run(s, events), runId)
    ensures forall i :: 0 <= i < |events| ==> !Stages(events[i], planId)
  {
    hide Effect, ReadyFor;
    if events != [] {
      var before, last := events[..|events| - 1], events[|events| - 1];
      NothingStagedBefore(s, before, runId, planId);
      StaysReady(Run(s, before), last, runId);
    }
  }

  /** A finish in progress waits for its own last section, and the run stays active. */
  lemma {:induction false} FinishWaits(s: System, events: seq<Event>, runId: string, batch: nat)
    requires ReadyFor(s, runId) && batch in s.finishing && batch < s.clock
    requires forall i :: 0 <= i < |events| ==>
               !ChangesRun(events[i]) && events[i] != Insert(batch) && events[i] != Abandon(batch)
    ensures ReadyFor(Run(s, events), runId)
    ensures batch < Run(s, events).clock
    ensures batch in Run(s, events).finishing && Run(s, events).finishing[batch] == s.finishing[batch]
  {
    hide ReadyFor, BeginStaging, AppendStaging, TakeStaging, InsertPlan, TakePlan;
    if events != [] {
      var before, last := events[..|events| - 1], events[|events| - 1];
      FinishWaits(s, before, runId, batch);
      StaysReady(Run(s, before), last, runId);
    }
  }

  lemma CompleteTransferIsTaken(s: System, runId: string, planId: string, staged: Staged)
    requires ReadyFor(s, runId) && StagedIn(s.node, planId) == Some(staged) && |staged.refs| == staged.expected
    ensures var after := Step(s, Take(runId, planId));
            && AnswerTo(s, Take(runId, planId)).Accepted? && ReadyFor(after, runId) && after.clock == s.clock + 1
            && s.clock in after.finishing && after.finishing[s.clock] == Finishing(runId, planId, staged)
  {}

  lemma FinishedPlanIsStored(s: System, runId: string, planId: string, staged: Staged, batch: nat)
    requires ReadyFor(s, runId) && batch in s.finishing && s.finishing[batch] == Finishing(runId, planId, staged)
    ensures var after := Step(s, Insert(batch));
            && AnswerTo(s, Insert(batch)).Accepted? && ReadyFor(after, runId)
            && PlanIn(after.node, planId) == Some(PlanOf(staged, batch))
  {}

  lemma StoredPlanStarts(s: System, runId: string, planId: string, plan: Plan)
    requires ReadyFor(s, runId) && PlanIn(s.node, planId) == Some(plan)
    ensures AnswerTo(s, Start(runId, planId)) == Started(plan)
  {}

  /** A step that takes the finished plan away or puts another in its place: a start of it, or the
      last section of another finish of the same plan. */
  predicate Replaces(s: System, e: Event, planId: string) {
    || (e.Start? && e.planId == planId)
    || (e.Insert? && e.batch in s.finishing && s.finishing[e.batch].planId == planId)
  }

  ghost predicate LeavesPlan(s: System, events: seq<Event>, planId: string) {
    forall i :: 0 <= i < |events| ==> !ChangesRun(events[i]) && !Replaces(Run(s, events[..i]), events[i], planId)
  }

  /** A finished plan waits for its start. */
  lemma {:induction false} PlanWaits(s: System, events: seq<Event>, runId: string, planId: string, plan: Plan)
    requires ReadyFor(s, runId) && PlanIn(s.node, planId) == Some(plan) && LeavesPlan(s, events, planId)
    ensures ReadyFor(Run(s, events), runId) && PlanIn(Run(s, events).node, planId) == Some(plan)
    decreases |events|
  {
    hide Effect, ReadyFor, PlanIn;
    if events != [] {
      var before, last := events[..|events| - 1], events[|events| - 1];
      forall i | 0 <= i < |before|
        ensures !ChangesRun(before[i]) && !Replaces(Run(s, before[..i]), before[i], planId)
      {
        assert before[i] == events[i] && before[..i] == events[..i];
      }
      PlanWaits(s, before, runId, planId, plan);
      assert !Replaces(Run(s, events[..|before|]), last, planId);
      OthersDoNotInterfere(Run(s, before), last, planId);
      StaysReady(Run(s, before), last, runId);
    }
  }

  /** The whole transfer of run_datapoint: its staging calls, the two sections of its finish, and its
      start, each stretch between them filled with anything else on the same run. Every call is
      accepted, and what starts is the client's list, unless a step of someone else took or replaced
      that very plan first. */
  lemma ClientTransferIsExact(s: System, sending: seq<Event>, waiting: seq<Event>, resting: seq<Event>,
                              runId: string, planId: string, rate: Rate, maxInFlight: nat, refs: seq<string>)
    requires ReadyFor(s, runId) && !Blank(planId) && rate.Finite? && rate.value > 0.0 && maxInFlight > 0 && refs != []
    requires forall i :: 0 <= i < |sending| ==> !ChangesRun(sending[i])
    requires Project(sending, planId) == ClientEvents(runId, planId, rate, maxInFlight, refs, ChunkCount(refs))
    requires var batch := Run(s, sending).clock;
             forall i :: 0 <= i < |waiting| ==>
               !ChangesRun(waiting[i]) && waiting[i] != Insert(batch) && waiting[i] != Abandon(batch)
    requires var sent := Run(s, sending);
             var waited := Run(Step(sent, Take(runId, planId)), waiting);
             LeavesPlan(Step(waited, Insert(sent.clock)), resting, planId)
    ensures var sent := Run(s, sending);
            var batch := sent.clock;
            var waited := Run(Step(sent, Take(runId, planId)), waiting);
            var rested := Run(Step(waited, Insert(batch)), resting);
            && (forall i :: 0 <= i < |sending| && Stages(sending[i], planId) ==> Log(s, sending)[i].answer.Accepted?)
            && AnswerTo(sent, Take(runId, planId)).Accepted?
            && AnswerTo(waited, Insert(batch)).Accepted?
            && AnswerTo(rested, Start(runId, planId)) == Started(Plan(rate, maxInFlight, refs, batch))
  {
    hide Run, Log, Upto, ChunkCount, ClientEvents, Project, Effect, ReadyFor, StagedIn, PlanIn, Flatten, Chunks;
    hide LeavesPlan, Stages;
    ClientProgress(s, sending, runId, planId, rate, maxInFlight, refs, ChunkCount(refs));
    ChunksRebuild(refs);
    assert refs[..|refs|] == refs;
    var sent := Run(s, sending);
    var staged := Staged(|refs|, rate, maxInFlight, refs, ChunkCount(refs));
    CompleteTransferIsTaken(sent, runId, planId, staged);
    var taken := Step(sent, Take(runId, planId));
    FinishWaits(taken, waiting, runId, sent.clock);
    var waited := Run(taken, waiting);
    FinishedPlanIsStored(waited, runId, planId, staged, sent.clock);
    var stored := Step(waited, Insert(sent.clock));
    PlanWaits(stored, resting, runId, planId, PlanOf(staged, sent.clock));
    StoredPlanStarts(Run(stored, resting), runId, planId, PlanOf(staged, sent.clock));
  }
}
