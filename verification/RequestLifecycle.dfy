/** Runs of a node's registry: any number of requests, one worker per accepted request, any
    cancels, and any replacement of the current experiment, interleaved freely. */
module RequestLifecycle {
  import opened Numbers
  import opened RequestIds
  import opened RequestRegistry
  import opened Text
  import opened Wrappers

  const RECEIVER_KIND := "channel-receiver"
  const BLOB_PUT_KIND := "blob-put"

  /** What the worker of a request of this kind may finish with. */
  predicate Fits(kind: string, result: RequestResult) {
    if kind == RECEIVER_KIND then result.ChannelReceiver?
    else if kind == BLOB_PUT_KIND then result.BlobPut? && result.count == |result.refs|
    else result.Other?
  }

  /** The worker of an accepted request, which ends with a result or an error; only channel receivers
      pass through `PastReady`. */
  datatype Worker = Begun | PastReady | Returned(result: RequestResult) | GaveUp(error: string)

  /** `created` counts accepted requests and `serial` gives the number of each. */
  datatype System = System(node: Node, workers: map<Key, Worker>, created: nat, serial: map<Key, nat>)

  datatype Event =
    | Submit(runId: string, kind: string)
    | WorkerReady(key: Key)
    | WorkerFinishes(key: Key, result: RequestResult)
    | WorkerFails(key: Key, error: string)
    | Cancel(key: Key)
    | ReplaceCurrent(current: Option<Expr>)

  const INITIAL := System(Node(map[], 0, 0, None), map[], 0, map[])

  predicate At(s: System, key: Key, w: Worker) { key in s.workers && s.workers[key] == w }

  /** A worker finishes with the result of its kind, and a receiver's worker reaches its Ok return
      only past its ready mark. */
  predicate MayFinish(s: System, key: Key, result: RequestResult) {
    && key in s.node.requests && Fits(s.node.requests[key].kind, result)
    && (if s.node.requests[key].kind == RECEIVER_KIND then At(s, key, PastReady) else At(s, key, Begun))
  }

  predicate Enabled(s: System, e: Event) {
    match e
    case Submit(_, _) => true
    case WorkerReady(key) => At(s, key, Begun) && key in s.node.requests && s.node.requests[key].kind == RECEIVER_KIND
    case WorkerFinishes(key, result) => MayFinish(s, key, result)
    case WorkerFails(key, _) => At(s, key, Begun) || At(s, key, PastReady)
    case Cancel(_) => true
    case ReplaceCurrent(_) => true
  }

  function Step(s: System, e: Event): System {
    match e
    case Submit(runId, kind) =>
      var (node, accepted) := CreateRequest(s.node, runId, kind);
      if accepted.reqId.None? then s.(node := node)
      else
        var key := (runId, accepted.reqId.value);
        System(node, s.workers[key := Begun], s.created + 1, s.serial[key := s.created + 1])
    case WorkerReady(key) => s.(node := MarkReady(s.node, key), workers := s.workers[key := PastReady])
    case WorkerFinishes(key, result) =>
      s.(node := FinishRequest(s.node, key, result), workers := s.workers[key := Returned(result)])
    case WorkerFails(key, error) =>
      s.(node := FailRequest(s.node, key, error), workers := s.workers[key := GaveUp(error)])
    case Cancel(key) => s.(node := CancelRequest(s.node, key))
    case ReplaceCurrent(current) => s.(node := s.node.(current := current))
  }

  function Run(s: System, run: seq<Event>): Option<System>
    decreases |run|
  {
    if run == [] then Some(s)
    else if Enabled(s, run[0]) then Run(Step(s, run[0]), run[1..])
    else None
  }

  // ------------------------------------------------------------ the invariant

  /** Running carries nothing, Finished exactly a result, Failed exactly an error. */
  predicate StatusMatchesContent(r: RequestRecord) {
    match r.status
    case Running => r.result.None? && r.error.None?
    case Finished => r.result.Some? && r.error.None?
    case Failed => r.result.None? && r.error.Some?
    case Missing => false
  }

  /** What is stored is what the worker ended with. */
  predicate WorkerMatches(r: RequestRecord, w: Worker) {
    && (w.Begun? || w.PastReady? <==> r.status == Running)
    && (w.Returned? <==> r.status == Finished) && (w.Returned? ==> r.result == Some(w.result))
    && (w.GaveUp? <==> r.status == Failed) && (w.GaveUp? ==> r.error == Some(w.error))
    && (w == PastReady ==> r.ready && r.kind == RECEIVER_KIND)
    && (r.ready ==> r.kind == RECEIVER_KIND)
    && (w == Begun ==> !r.ready)
    && (r.kind == RECEIVER_KIND && r.status == Finished ==> r.ready)
    && (r.result.Some? ==> Fits(r.kind, r.result.value))
  }

  /** The record belongs to its key, agrees with its worker, and its id was made from its number. */
  predicate KeyOk(s: System, key: Key)
    requires key in s.node.requests && key in s.workers
  {
    var r := s.node.requests[key];
    && key == (r.runId, r.reqId) && StatusMatchesContent(r) && WorkerMatches(r, s.workers[key])
    && key in s.serial && 1 <= s.serial[key] <= s.created
    && key.1 == FormatId(r.kind, s.serial[key] % U64_SPAN)
  }

  ghost predicate Inv(s: System) {
    && s.node.nextRequestSeq == s.created % U64_SPAN
    && s.workers.Keys == s.node.requests.Keys && |s.node.requests| == s.created
    && forall key :: key in s.node.requests ==> KeyOk(s, key)
  }

  /** Up to 2^64 accepted requests, a new id is none of the old ones. */
  lemma NewIdIsFresh(s: System, runId: string, kind: string)
    requires Inv(s) && s.created < U64_SPAN
    ensures (runId, FormatId(kind, NextSeq(s.node))) !in s.node.requests
  {
    var key := (runId, FormatId(kind, NextSeq(s.node)));
    if key in s.node.requests {
      assert KeyOk(s, key);
      var n := s.serial[key];
      IdsAreInjective(kind, NextSeq(s.node), s.node.requests[key].kind, n % U64_SPAN);
      SerialsDiffer(n, s.created);
    }
  }

  lemma SerialsDiffer(n: nat, created: nat)
    requires 1 <= n <= created < U64_SPAN
    ensures n % U64_SPAN != (created % U64_SPAN + 1) % U64_SPAN
  {}

  /** The n-th and m-th accepted requests of one run and kind share their id exactly when the
      64-bit counter has gone round in between. */
  lemma IdsRepeatExactlyOnWrap(kind: string, n: nat, m: nat)
    requires n <= m
    ensures FormatId(kind, n % U64_SPAN) == FormatId(kind, m % U64_SPAN) <==> (m - n) % U64_SPAN == 0
  {
    hide FormatId;
    IdsAreInjective(kind, n % U64_SPAN, kind, m % U64_SPAN);
    SameResidue(n, m);
  }

  lemma SameResidue(n: nat, m: nat)
    requires n <= m
    ensures n % U64_SPAN == m % U64_SPAN <==> (m - n) % U64_SPAN == 0
  {}

  // ------------------------------------------------------------ every step keeps the invariant

  lemma SerialAdvances(s: System)
    requires s.node.nextRequestSeq == s.created % U64_SPAN
    ensures NextSeq(s.node) == (s.created + 1) % U64_SPAN
  {}

  lemma SubmitKeepsInv(s: System, runId: string, kind: string)
    requires Inv(s) && Step(s, Submit(runId, kind)).created <= U64_SPAN
    ensures Inv(Step(s, Submit(runId, kind)))
  {
    hide FormatId, Blank, InPhase, Fits;
    SerialAdvances(s);
    var s' := Step(s, Submit(runId, kind));
    if !Blank(runId) {
      NewIdIsFresh(s, runId, kind);
      forall key | key in s'.node.requests ensures KeyOk(s', key) {
        if key in s.node.requests {
          assert KeyOk(s, key);
        } else {
          assert key == (runId, FormatId(kind, NextSeq(s.node)));
        }
      }
    }
  }

  lemma UnnamedKeyKept(s: System, e: Event, key: Key)
    requires Inv(s) && Enabled(s, e) && !e.Submit? && !Names(e, key) && key in s.node.requests
    ensures key in Step(s, e).node.requests && key in Step(s, e).workers && KeyOk(Step(s, e), key)
  {
    hide FormatId, InPhase, Fits, StatusMatchesContent, WorkerMatches;
    assert KeyOk(s, key);
  }

  lemma NamedKeyKept(s: System, e: Event, key: Key)
    requires Inv(s) && Enabled(s, e) && !e.Submit? && Names(e, key) && key in s.node.requests
    ensures key in Step(s, e).node.requests && key in Step(s, e).workers && KeyOk(Step(s, e), key)
  {
    hide FormatId, InPhase, Fits;
    assert KeyOk(s, key);
  }

  /** A step of one worker or a cancel touches one record and keeps its number. */
  lemma KeyKept(s: System, e: Event, key: Key)
    requires Inv(s) && Enabled(s, e) && !e.Submit? && key in Step(s, e).node.requests
    ensures key in s.node.requests && key in Step(s, e).workers && KeyOk(Step(s, e), key)
  {
    hide Step, Enabled, Inv, KeyOk;
    CountersKept(s, e);
    if Names(e, key) { NamedKeyKept(s, e, key); } else { UnnamedKeyKept(s, e, key); }
  }

  lemma CountersKept(s: System, e: Event)
    requires Inv(s) && Enabled(s, e) && !e.Submit?
    ensures Step(s, e).created == s.created && Step(s, e).node.nextRequestSeq == s.node.nextRequestSeq
    ensures Step(s, e).node.requests.Keys == s.node.requests.Keys && Step(s, e).workers.Keys == s.workers.Keys
  {
    hide KeyOk, FormatId, InPhase, Fits;
    assert forall key :: key in s.node.requests ==> key in s.workers;
  }

  lemma StepKeepsInv(s: System, e: Event)
    requires Inv(s) && Enabled(s, e) && Step(s, e).created <= U64_SPAN
    ensures Inv(Step(s, e))
    ensures s.node.requests.Keys <= Step(s, e).node.requests.Keys
    ensures s.created <= Step(s, e).created <= s.created + 1
  {
    if e.Submit? {
      hide FormatId, Blank, InPhase;
      SubmitKeepsInv(s, e.runId, e.kind);
    } else {
      hide Step, Enabled, KeyOk;
      CountersKept(s, e);
      forall key | key in Step(s, e).node.requests ensures KeyOk(Step(s, e), key) {
        KeyKept(s, e, key);
      }
    }
  }

  /** Only an accepted submission counts, and nothing is uncounted. */
  lemma {:induction false} CreatedGrows(s: System, run: seq<Event>)
    requires Run(s, run).Some?
    ensures s.created <= Run(s, run).value.created
    decreases |run|
  {
    if run != [] { CreatedGrows(Step(s, run[0]), run[1..]); }
  }

  lemma {:induction false} RunKeepsInv(s: System, run: seq<Event>)
    requires Inv(s) && Run(s, run).Some? && Run(s, run).value.created <= U64_SPAN
    ensures Inv(Run(s, run).value)
    ensures s.node.requests.Keys <= Run(s, run).value.node.requests.Keys
    decreases |run|
  {
    if run != [] {
      CreatedGrows(Step(s, run[0]), run[1..]);
      StepKeepsInv(s, run[0]);
      RunKeepsInv(Step(s, run[0]), run[1..]);
    }
  }

  /** Over every run from the empty node: there is one record for each accepted request, so no id was
      used twice; each record carries what its status says and a result of its kind; and a finished
      receiver request has been marked ready. */
  lemma EveryRunIsConsistent(run: seq<Event>, key: Key)
    requires Run(INITIAL, run).Some? && Run(INITIAL, run).value.created <= U64_SPAN
    requires key in Run(INITIAL, run).value.node.requests
    ensures |Run(INITIAL, run).value.node.requests| == Run(INITIAL, run).value.created
    ensures var r := Run(INITIAL, run).value.node.requests[key];
            && key == (r.runId, r.reqId) && StatusMatchesContent(r)
            && (r.result.Some? ==> Fits(r.kind, r.result.value))
            && (r.kind == RECEIVER_KIND && r.status == Finished ==> r.ready)
  {
    RunKeepsInv(INITIAL, run);
  }

  // ------------------------------------------------------------ one key, seen on its own

  predicate Names(e: Event, key: Key) {
    match e
    case Submit(_, _) => false
    case WorkerReady(k) => k == key
    case WorkerFinishes(k, _) => k == key
    case WorkerFails(k, _) => k == key
    case Cancel(k) => k == key
    case ReplaceCurrent(_) => false
  }

  function Naming(run: seq<Event>, key: Key): seq<Event> {
    if run == [] then []
    else (if Names(run[0], key) then [run[0]] else []) + Naming(run[1..], key)
  }

  /** Both systems hold the same record and worker for the key. */
  predicate SameAt(s: System, t: System, key: Key) {
    && key in s.node.requests && key in t.node.requests && s.node.requests[key] == t.node.requests[key]
    && key in s.workers && key in t.workers && s.workers[key] == t.workers[key]
  }

  lemma OtherStepsLeaveKey(s: System, e: Event, key: Key)
    requires Inv(s) && Enabled(s, e) && Step(s, e).created <= U64_SPAN && key in s.node.requests && !Names(e, key)
    ensures SameAt(s, Step(s, e), key)
  {
    if e.Submit? && !Blank(e.runId) {
      NewIdIsFresh(s, e.runId, e.kind);
    }
  }

  lemma NamedStepsAgree(s: System, t: System, e: Event, key: Key)
    requires SameAt(s, t, key) && Names(e, key) && Enabled(s, e)
    ensures Enabled(t, e) && SameAt(Step(s, e), Step(t, e), key)
  {}

  /** From its creation on, what happens at a key is what the steps naming it do on their own:
      submissions, other requests and replaced experiments do not reach it. */
  lemma {:induction false} KeyDependsOnItsSteps(s: System, t: System, run: seq<Event>, key: Key)
    requires Inv(s) && SameAt(s, t, key) && Run(s, run).Some? && Run(s, run).value.created <= U64_SPAN
    ensures Run(t, Naming(run, key)).Some?
    ensures SameAt(Run(s, run).value, Run(t, Naming(run, key)).value, key)
    decreases |run|
  {
    if run != [] {
      CreatedGrows(Step(s, run[0]), run[1..]);
      StepKeepsInv(s, run[0]);
      if Names(run[0], key) {
        NamedStepsAgree(s, t, run[0], key);
        KeyDependsOnItsSteps(Step(s, run[0]), Step(t, run[0]), run[1..], key);
        assert Naming(run, key)[1..] == Naming(run[1..], key);
      } else {
        OtherStepsLeaveKey(s, run[0], key);
        KeyDependsOnItsSteps(Step(s, run[0]), t, run[1..], key);
        assert Naming(run, key) == Naming(run[1..], key);
      }
    }
  }

  lemma PollDependsOnItsSteps(s: System, run: seq<Event>, key: Key, includeResult: bool)
    requires Inv(s) && key in s.node.requests && Run(s, run).Some? && Run(s, run).value.created <= U64_SPAN
    ensures Run(s, Naming(run, key)).Some?
    ensures PollRequest(Run(s, run).value.node, key, includeResult)
         == PollRequest(Run(s, Naming(run, key)).value.node, key, includeResult)
  {
    KeyDependsOnItsSteps(s, s, run, key);
  }

  lemma TerminalStep(s: System, e: Event, key: Key)
    requires Inv(s) && Enabled(s, e) && Step(s, e).created <= U64_SPAN
    requires key in s.node.requests && s.node.requests[key].status != Running
    ensures var after := Step(s, e).node;
            key in after.requests
            && after.requests[key] == s.node.requests[key].(cancelled := after.requests[key].cancelled)
  {
    assert KeyOk(s, key);
    if !Names(e, key) {
      OtherStepsLeaveKey(s, e, key);
    }
  }

  /** With one worker per request a terminal state is permanent: whatever follows, the record
      changes at most in its cancel flag, so every later poll gives the same answer. */
  lemma {:induction false} TerminalIsPermanent(s: System, run: seq<Event>, key: Key, includeResult: bool)
    requires Inv(s) && Run(s, run).Some? && Run(s, run).value.created <= U64_SPAN
    requires key in s.node.requests && s.node.requests[key].status != Running
    ensures var after := Run(s, run).value.node;
            && key in after.requests
            && after.requests[key] == s.node.requests[key].(cancelled := after.requests[key].cancelled)
            && PollRequest(after, key, includeResult) == PollRequest(s.node, key, includeResult)
    decreases |run|
  {
    hide Inv, Step, Enabled;
    if run != [] {
      CreatedGrows(Step(s, run[0]), run[1..]);
      StepKeepsInv(s, run[0]);
      TerminalStep(s, run[0], key);
      TerminalIsPermanent(Step(s, run[0]), run[1..], key, includeResult);
    }
  }

  lemma ReadyStep(s: System, e: Event, key: Key)
    requires Inv(s) && Enabled(s, e) && Step(s, e).created <= U64_SPAN && key in s.node.requests
    ensures var after := Step(s, e).node;
            && key in after.requests && after.requests[key].kind == s.node.requests[key].kind
            && (s.node.requests[key].ready ==> after.requests[key].ready)
  {
    if !Names(e, key) {
      OtherStepsLeaveKey(s, e, key);
    }
  }

  // ------------------------------------------------------------ what a record says of its run

  /** The record after says what it said before and what the events tell, and nothing else. */
  ghost predicate Tells(before: RequestRecord, events: seq<Event>, key: Key, after: RequestRecord) {
    && after.runId == before.runId && after.reqId == before.reqId && after.kind == before.kind
    && (after.ready <==> before.ready || WorkerReady(key) in events)
    && (after.cancelled <==> before.cancelled || Cancel(key) in events)
    && (forall result :: after.result == Some(result) <==>
          before.result == Some(result) || WorkerFinishes(key, result) in events)
    && (forall error :: after.error == Some(error) <==>
          before.error == Some(error) || WorkerFails(key, error) in events)
  }

  lemma OtherStepTells(s: System, e: Event, key: Key)
    requires Inv(s) && Enabled(s, e) && Step(s, e).created <= U64_SPAN && key in s.node.requests && !Names(e, key)
    ensures key in Step(s, e).node.requests
    ensures Tells(s.node.requests[key], [e], key, Step(s, e).node.requests[key])
  {
    hide Inv, Enabled, Step;
    OtherStepsLeaveKey(s, e, key);
  }

  lemma NamedStepTells(s: System, e: Event, key: Key)
    requires Inv(s) && Enabled(s, e) && key in s.node.requests && Names(e, key)
    ensures key in Step(s, e).node.requests
    ensures Tells(s.node.requests[key], [e], key, Step(s, e).node.requests[key])
  {
    hide FormatId, InPhase, Fits;
    assert KeyOk(s, key);
  }

  lemma TellsFurther(a: RequestRecord, e: Event, b: RequestRecord, rest: seq<Event>, c: RequestRecord, key: Key)
    requires Tells(a, [e], key, b) && Tells(b, rest, key, c)
    ensures Tells(a, [e] + rest, key, c)
  {
    forall f: Event ensures f in [e] + rest <==> f == e || f in rest {}
  }

  /** Over any run a record is marked ready, cancelled, finished with a result or failed with an error
      exactly when the run holds the event for it, with that very result or error. */
  lemma {:induction false} RecordTellsItsRun(s: System, run: seq<Event>, key: Key)
    requires Inv(s) && Run(s, run).Some? && Run(s, run).value.created <= U64_SPAN && key in s.node.requests
    ensures key in Run(s, run).value.node.requests
    ensures Tells(s.node.requests[key], run, key, Run(s, run).value.node.requests[key])
    decreases |run|
  {
    hide Inv, Enabled, Step, Tells;
    if run == [] {
      NothingTells(s.node.requests[key], key);
    } else {
      var next := Step(s, run[0]);
      CreatedGrows(next, run[1..]);
      StepKeepsInv(s, run[0]);
      StepTells(s, run[0], key);
      RecordTellsItsRun(next, run[1..], key);
      assert run == [run[0]] + run[1..];
      TellsFurther(s.node.requests[key], run[0], next.node.requests[key], run[1..],
                   Run(s, run).value.node.requests[key], key);
    }
  }

  lemma NothingTells(r: RequestRecord, key: Key)
    ensures Tells(r, [], key, r)
  {}

  lemma StepTells(s: System, e: Event, key: Key)
    requires Inv(s) && Enabled(s, e) && Step(s, e).created <= U64_SPAN && key in s.node.requests
    ensures key in Step(s, e).node.requests
    ensures Tells(s.node.requests[key], [e], key, Step(s, e).node.requests[key])
  {
    hide Inv, Enabled, Step, Tells;
    if Names(e, key) { NamedStepTells(s, e, key); } else { OtherStepTells(s, e, key); }
  }

  function AcceptedIn(run: seq<Event>): nat {
    if run == [] then 0
    else (if run[0].Submit? && !Blank(run[0].runId) then 1 else 0) + AcceptedIn(run[1..])
  }

  lemma {:induction false} CreatedCounts(s: System, run: seq<Event>)
    requires Run(s, run).Some?
    ensures Run(s, run).value.created == s.created + AcceptedIn(run)
    decreases |run|
  {
    if run != [] { CreatedCounts(Step(s, run[0]), run[1..]); }
  }

  lemma {:induction false} RunsJoin(s: System, first: seq<Event>, second: seq<Event>)
    requires Run(s, first + second).Some?
    ensures Run(s, first).Some? && Run(s, first + second) == Run(Run(s, first).value, second)
    decreases |first|
  {
    if first == [] {
      assert first + second == second;
    } else {
      assert (first + second)[1..] == first[1..] + second;
      RunsJoin(Step(s, first[0]), first[1..], second);
    }
  }

  /** What the events after its submission did to a request, and nothing else, is in its record. */
  ghost predicate TellsLife(r: RequestRecord, key: Key, kind: string, after: seq<Event>) {
    && key == (r.runId, r.reqId) && r.kind == kind && StatusMatchesContent(r)
    && (r.ready <==> WorkerReady(key) in after)
    && (r.cancelled <==> Cancel(key) in after)
    && (forall result :: r.result == Some(result) <==> WorkerFinishes(key, result) in after)
    && (forall error :: r.error == Some(error) <==> WorkerFails(key, error) in after)
  }

  lemma LifeOfNew(s: System, key: Key, kind: string, after: seq<Event>)
    requires Inv(s) && Run(s, after).Some? && Run(s, after).value.created <= U64_SPAN
    requires key in s.node.requests
    requires s.node.requests[key] == RequestRecord(key.0, key.1, kind, Running, false, false, None, None)
    ensures key in Run(s, after).value.node.requests
    ensures TellsLife(Run(s, after).value.node.requests[key], key, kind, after)
  {
    hide Inv, Run, StatusMatchesContent;
    RecordTellsItsRun(s, after, key);
    RunKeepsInv(s, after);
    KeptContent(Run(s, after).value, key);
  }

  /** The whole life of a request: submitted after `before` and followed by `after`, its id is made of
      its kind and its number, and its record says exactly what `after` did to it. */
  lemma RequestTellsItsLife(before: seq<Event>, runId: string, kind: string, after: seq<Event>)
    requires !Blank(runId) && Run(INITIAL, before + ([Submit(runId, kind)] + after)).Some?
    requires AcceptedIn(before + ([Submit(runId, kind)] + after)) <= U64_SPAN
    ensures var end := Run(INITIAL, before + ([Submit(runId, kind)] + after)).value;
            var key := (runId, FormatId(kind, (AcceptedIn(before) + 1) % U64_SPAN));
            key in end.node.requests && TellsLife(end.node.requests[key], key, kind, after)
  {
    hide Inv, Enabled, Step, FormatId, TellsLife;
    var submit := Submit(runId, kind);
    var rest := [submit] + after;
    CreatedCounts(INITIAL, before + rest);
    RunsJoin(INITIAL, before, rest);
    CreatedCounts(INITIAL, before);
    var s := Run(INITIAL, before).value;
    RunsFirst(s, submit, after);
    CreatedGrows(s, rest);
    CreatedGrows(Step(s, submit), after);
    InitialInv();
    RunKeepsInv(INITIAL, before);
    StepKeepsInv(s, submit);
    SubmittedIsNew(s, runId, kind);
    LifeOfNew(Step(s, submit), (runId, FormatId(kind, (s.created + 1) % U64_SPAN)), kind, after);
  }

  lemma RunsFirst(s: System, e: Event, rest: seq<Event>)
    requires Run(s, [e] + rest).Some?
    ensures Enabled(s, e) && Run(s, [e] + rest) == Run(Step(s, e), rest)
  {
    assert ([e] + rest)[1..] == rest;
  }

  lemma InitialInv()
    ensures Inv(INITIAL)
  {}

  lemma SubmittedIsNew(s: System, runId: string, kind: string)
    requires Inv(s) && !Blank(runId)
    ensures var key := (runId, FormatId(kind, (s.created + 1) % U64_SPAN));
            var after := Step(s, Submit(runId, kind)).node.requests;
            key in after && after[key] == RequestRecord(runId, key.1, kind, Running, false, false, None, None)
  {
    hide FormatId, Blank;
    SerialAdvances(s);
  }

  lemma KeptContent(s: System, key: Key)
    requires Inv(s) && key in s.node.requests
    ensures StatusMatchesContent(s.node.requests[key])
  {
    assert KeyOk(s, key);
  }

  /** What a section changes besides the record: the generation goes up, and the experiment shows the
      step and the kind of the request if the request is of its run. */
  lemma StepIsShown(s: System, e: Event, key: Key)
    requires Enabled(s, e) && Names(e, key) && key in s.node.requests
    ensures var before, after := s.node, Step(s, e).node;
            var phase := match e case WorkerReady(_) => "request_ready" case WorkerFinishes(_, _) => "request_finished"
                                 case WorkerFails(_, _) => "request_failed" case _ => "request_cancelled";
            && after.generation == before.generation + 1
            && (if before.current.Some? && before.current.value.runId == key.0
                then after.current == Some(Expr(key.0, phase + ":" + before.requests[key].kind))
                else after.current == before.current)
  {}

  /** Once ready, always ready. */
  lemma {:induction false} ReadyIsPermanent(s: System, run: seq<Event>, key: Key)
    requires Inv(s) && Run(s, run).Some? && Run(s, run).value.created <= U64_SPAN
    requires key in s.node.requests
    ensures key in Run(s, run).value.node.requests
    ensures Run(s, run).value.node.requests[key].kind == s.node.requests[key].kind
    ensures s.node.requests[key].ready ==> Run(s, run).value.node.requests[key].ready
    decreases |run|
  {
    if run != [] {
      CreatedGrows(Step(s, run[0]), run[1..]);
      StepKeepsInv(s, run[0]);
      ReadyStep(s, run[0], key);
      ReadyIsPermanent(Step(s, run[0]), run[1..], key);
    }
  }
}
