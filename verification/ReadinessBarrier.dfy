/** Waiting on requests from a client (src/rpc/client.rs, both control.rs files) and the order in
    which an experiment starts its receivers and its sender
    (src/experiments/channel/single_sender_multi_receiver.rs). */
module ReadinessBarrier {
  import opened Numbers
  import opened RequestIds
  import opened RequestLifecycle
  import opened RequestRegistry
  import opened Text
  import opened Wrappers

  const REQUEST_POLL_INTERVAL: nat := 500
  const RESULT_POLL_INTERVAL: nat := 5000

  datatype WaitError =
    | Rejected(message: string)
    | NoRequestId
    | Rpc(message: string)
    | FinishedWithoutResult
    | RequestFailed(message: string)
    | Unknown
    | TimedOut
    | CounterSpent

  /** What one poll tells a waiting client. */
  datatype Answer<T> = Ready(value: T) | Pending | Gone(error: WaitError)

  function EnsureFinishedResult(response: PollResponse): Result<Option<RequestResult>, WaitError> {
    match response.status
    case Finished => if response.result.Some? then Ok(response.result) else Err(FinishedWithoutResult)
    case Failed => Err(RequestFailed(response.message))
    case Missing => Err(Unknown)
    case Running => Ok(None)
  }

  function RequestId(accepted: Accepted): Result<string, WaitError> {
    if !accepted.ok then Err(Rejected(accepted.message))
    else if accepted.reqId.None? then Err(NoRequestId)
    else Ok(accepted.reqId.value)
  }

  /** The key of an accepted request and the kind under which it was accepted. */
  ghost predicate Knows(s: System, key: Key, kind: string) {
    Inv(s) && key in s.node.requests && s.node.requests[key].kind == kind
  }

  /** The request has finished and `result` is its result as a poll answers it. */
  ghost predicate HoldsResult(s: System, key: Key, result: RequestResult) {
    key in s.node.requests &&
    var record := s.node.requests[key];
    record.status == Finished && record.result.Some? && AnsweredFor(record.result.value, result)
  }

  /** The request has failed with this message. */
  ghost predicate HasFailed(s: System, key: Key, message: string) {
    key in s.node.requests && s.node.requests[key].status == Failed && s.node.requests[key].error == Some(message)
  }

  ghost predicate HasFinished(s: System, key: Key) {
    key in s.node.requests && s.node.requests[key].status == Finished && s.node.requests[key].result.Some?
  }

  ghost predicate IsRunning(s: System, key: Key) {
    key in s.node.requests && s.node.requests[key].status == Running
  }

  /** A receiver request that is neither ready nor at its end. */
  ghost predicate Unready(s: System, key: Key) {
    IsRunning(s, key) && !ReadyReceiver(s, key)
  }

  /** What a poll for the bare status can tell of an accepted request. */
  lemma StatusPoll(s: System, key: Key, kind: string)
    requires Knows(s, key, kind)
    ensures var response := PollRequest(s.node, key, false);
            && response.status != Missing
            && (response.status == Finished ==> HasFinished(s, key))
            && (response.status == Failed ==> HasFailed(s, key, response.message))
            && (response.status == Running ==> IsRunning(s, key))
  {
    assert KeyOk(s, key);
  }

  /** What a poll for the result of an accepted request can lead to, whatever has happened since. */
  lemma ResultPoll(s: System, key: Key, kind: string)
    requires Knows(s, key, kind)
    ensures var answer := EnsureFinishedResult(PollRequest(s.node, key, true));
            && (answer.Err? ==> answer.error.RequestFailed? && HasFailed(s, key, answer.error.message))
            && (answer.Ok? && answer.value.Some? ==> HoldsResult(s, key, answer.value.value))
            && (answer.Ok? && answer.value.None? ==> IsRunning(s, key))
  {
    assert KeyOk(s, key);
  }

  /** A readiness poll asks for no result. Since a finished receiver is ready, one that is not
      ready is running or has failed, and "finished without result" cannot come up. */
  lemma ReadinessPoll(s: System, key: Key)
    requires Knows(s, key, RECEIVER_KIND)
    ensures var response := PollRequest(s.node, key, false);
            && (response.ready ==> ReadyReceiver(s, key))
            && (!response.ready ==>
                  var answer := EnsureFinishedResult(response);
                  if answer.Ok? then Unready(s, key)
                  else answer.error.RequestFailed? && HasFailed(s, key, answer.error.message))
  {
    assert KeyOk(s, key);
  }

  /** The kind stays, ready stays ready, and a record that is no longer running changes at most in
      its cancel flag. */
  predicate KeepsRecord(r: RequestRecord, r': RequestRecord) {
    && r'.kind == r.kind && (r.ready ==> r'.ready)
    && (r.status != Running ==> r' == r.(cancelled := r'.cancelled))
  }

  /** What steps of the nodes cannot undo. */
  ghost predicate Advanced(before: seq<System>, after: seq<System>) {
    |before| == |after| && forall i :: 0 <= i < |before| ==> KeepsRequests(before[i], after[i])
  }

  ghost predicate KeepsRequests(s: System, t: System) {
    && s.created <= t.created
    && forall key :: key in s.node.requests ==>
         key in t.node.requests && KeepsRecord(s.node.requests[key], t.node.requests[key])
  }

  lemma AdvancedFurther(a: seq<System>, b: seq<System>, c: seq<System>)
    requires Advanced(a, b) && Advanced(b, c)
    ensures Advanced(a, c)
  {
    forall i | 0 <= i < |a| ensures KeepsRequests(a[i], c[i]) {
      assert KeepsRequests(a[i], b[i]) && KeepsRequests(b[i], c[i]);
    }
  }

  lemma SameLength(a: seq<System>, b: seq<System>)
    requires Advanced(a, b)
    ensures |a| == |b|
  {}

  lemma AdvancedItself(nodes: seq<System>)
    ensures Advanced(nodes, nodes)
  {}

  lemma AdvancedByStep(nodes: seq<System>, i: nat, e: Event)
    requires i < |nodes| && Inv(nodes[i]) && Enabled(nodes[i], e) && Step(nodes[i], e).created <= U64_SPAN
    ensures Inv(Step(nodes[i], e)) && Advanced(nodes, nodes[i := Step(nodes[i], e)])
  {
    hide Inv, Step, Enabled;
    StepKeepsInv(nodes[i], e);
    forall key | key in nodes[i].node.requests
      ensures key in Step(nodes[i], e).node.requests
      ensures KeepsRecord(nodes[i].node.requests[key], Step(nodes[i], e).node.requests[key])
    {
      ReadyStep(nodes[i], e, key);
      if nodes[i].node.requests[key].status != Running { TerminalStep(nodes[i], e, key); }
    }
  }

  /** An accepted request stays known, and ready once it is, at node i. */
  lemma StillKnown(before: seq<System>, after: seq<System>, i: nat, key: Key, kind: string)
    requires Advanced(before, after) && i < |before| && Inv(after[i])
    ensures Knows(before[i], key, kind) ==> Knows(after[i], key, kind)
    ensures ReadyReceiver(before[i], key) ==> ReadyReceiver(after[i], key)
  {
    assert KeepsRequests(before[i], after[i]);
  }

  ghost predicate ReadyReceiver(s: System, key: Key) {
    key in s.node.requests && s.node.requests[key].kind == RECEIVER_KIND && s.node.requests[key].ready
  }

  /** The key of the request that an answer speaks of. */
  function KeyOf(runId: string, accepted: Accepted): Key {
    (runId, if accepted.reqId.Some? then accepted.reqId.value else "")
  }

  /** The key under which an accepted request is known; a refused one promises nothing. */
  ghost predicate Promised(s: System, runId: string, accepted: Accepted) {
    accepted.ok ==> accepted.reqId.Some? && Knows(s, KeyOf(runId, accepted), RECEIVER_KIND)
  }

  lemma StillPromised(before: seq<System>, after: seq<System>, i: nat, runId: string, accepted: Accepted)
    requires Advanced(before, after) && i < |before| && Inv(after[i]) && Promised(before[i], runId, accepted)
    ensures Promised(after[i], runId, accepted)
  {
    if accepted.ok {
      StillKnown(before, after, i, KeyOf(runId, accepted), RECEIVER_KIND);
    }
  }

  /** The request was not there before. */
  ghost predicate NewSince(before: System, runId: string, accepted: Accepted) {
    accepted.ok ==> accepted.reqId.Some? && KeyOf(runId, accepted) !in before.node.requests
  }

  lemma NewEarlier(before: seq<System>, after: seq<System>, i: nat, runId: string, accepted: Accepted)
    requires Advanced(before, after) && i < |before| && NewSince(after[i], runId, accepted)
    ensures NewSince(before[i], runId, accepted)
  {
    assert KeepsRequests(before[i], after[i]);
  }

  lemma AcceptedIsNew(s: System, runId: string)
    requires Inv(s) && Step(s, Submit(runId, RECEIVER_KIND)).created <= U64_SPAN
    ensures var accepted := CreateRequest(s.node, runId, RECEIVER_KIND).1;
            && NewSince(s, runId, accepted) && Promised(Step(s, Submit(runId, RECEIVER_KIND)), runId, accepted)
            && (accepted.ok <==> !Blank(runId))
  {
    hide FormatId, Blank;
    StepKeepsInv(s, Submit(runId, RECEIVER_KIND));
    if !Blank(runId) { NewIdIsFresh(s, runId, RECEIVER_KIND); }
  }

  /** Some node has accepted all the requests its counter can tell apart. */
  ghost predicate Spent(nodes: seq<System>) {
    exists i :: 0 <= i < |nodes| && nodes[i].created >= U64_SPAN
  }

  lemma SpentStays(before: seq<System>, after: seq<System>)
    requires Advanced(before, after) && Spent(before)
    ensures Spent(after)
  {
    var i :| 0 <= i < |before| && before[i].created >= U64_SPAN;
    assert KeepsRequests(before[i], after[i]);
  }

  lemma NoRoomIsSpent(nodes: seq<System>, i: nat, e: Event)
    requires i < |nodes| && Inv(nodes[i]) && Enabled(nodes[i], e) && Step(nodes[i], e).created > U64_SPAN
    ensures Spent(nodes)
  {}

  /** A receiver request made in between, and how it let the wait for it down. */
  ghost predicate TargetFailed(before: System, s: System, key: Key, error: WaitError) {
    && key !in before.node.requests
    && match error
       case RequestFailed(message) => HasFailed(s, key, message)
       case TimedOut => Unready(s, key)
       case _ => false
  }

  /** What the answer to one start call tells, `before` being the node when all calls were made. */
  ghost predicate StartKept(before: System, s: System, runId: string, answer: Result<Accepted, WaitError>,
                            lost: bool, spent: bool)
  {
    match answer
    case Ok(accepted) =>
      Promised(s, runId, accepted) && NewSince(before, runId, accepted) && (accepted.ok <==> !Blank(runId))
    case Err(error) => (error.Rpc? && lost) || (error.CounterSpent? && spent)
  }

  lemma StartStaysKept(start: seq<System>, before: seq<System>, after: seq<System>, i: nat, runId: string,
                       answer: Result<Accepted, WaitError>, lost: bool, lostLater: bool)
    requires Advanced(before, after) && i < |start| == |before| && Inv(after[i]) && (lost ==> lostLater)
    requires StartKept(start[i], before[i], runId, answer, lost, Spent(before))
    ensures StartKept(start[i], after[i], runId, answer, lostLater, Spent(after))
  {
    hide Spent;
    if answer.Ok? { StillPromised(before, after, i, runId, answer.value); }
    if Spent(before) { SpentStays(before, after); }
  }

  /** The answers if every call got one, else the first error. */
  method AllAccepted(answers: seq<Result<Accepted, WaitError>>) returns (r: Result<seq<Accepted>, WaitError>)
    ensures r.Ok? <==> forall j :: 0 <= j < |answers| ==> answers[j].Ok?
    ensures r.Ok? ==> |r.value| == |answers| && forall j :: 0 <= j < |answers| ==> answers[j] == Ok(r.value[j])
    ensures r.Err? ==> exists j :: 0 <= j < |answers| && answers[j] == Err(r.error)
  {
    var accepted: seq<Accepted> := [];
    for j := 0 to |answers|
      invariant |accepted| == j && forall k :: 0 <= k < j ==> answers[k] == Ok(accepted[k])
    {
      if answers[j].Err? {
        return Err(answers[j].error);
      }
      accepted := accepted + [answers[j].value];
    }
    r := Ok(accepted);
  }

  /** The nodes of an experiment, a clock in milliseconds, and the number of calls that failed on
      the way. */
  class Cluster {
    var nodes: seq<System>
    var clock: nat
    ghost var lostCalls: nat

    ghost predicate Valid()
      reads `nodes
    {
      forall i :: 0 <= i < |nodes| ==> Inv(nodes[i])
    }

    ghost function Node(i: nat): System
      reads `nodes
    {
      if i < |nodes| then nodes[i] else INITIAL
    }

    twostate predicate Onward()
      reads this
    {
      old(clock) <= clock && old(lostCalls) <= lostCalls && Advanced(old(nodes), nodes)
    }

    constructor (count: nat)
      ensures Valid() && |nodes| == count && clock == 0
    {
      nodes, clock, lostCalls := seq(count, _ => INITIAL), 0, 0;
    }

    /** Any number of steps of any nodes and of the clock; each counter stays within its 64 bits. */
    method Interleave()
      requires Valid()
      modifies `nodes, `clock
      ensures Valid() && Onward()
    {
      hide Inv, Advanced, Step, Enabled;
      AdvancedItself(nodes);
      var steps: int :| steps >= 0;
      while steps > 0
        invariant Valid() && Onward()
        decreases steps
      {
        var i: int := *;
        var e: Event := *;
        if 0 <= i < |nodes| && Enabled(nodes[i], e) && Step(nodes[i], e).created <= U64_SPAN {
          AdvancedByStep(nodes, i, e);
          AdvancedFurther(old(nodes), nodes, nodes[i := Step(nodes[i], e)]);
          nodes := nodes[i := Step(nodes[i], e)];
        }
        var elapsed: int :| elapsed >= 0;
        clock := clock + elapsed;
        steps := steps - 1;
      }
    }

    /** A remote call: anything may happen on the way, and it may be lost. */
    method Call() returns (answered: bool)
      requires Valid()
      modifies `nodes, `clock, `lostCalls
      ensures |nodes| == |old(nodes)| && Valid() && Onward()
      ensures !answered ==> lostCalls > old(lostCalls)
    {
      hide Inv;
      Interleave();
      answered := *;
      if !answered { lostCalls := lostCalls + 1; }
    }

    /** A poll of node i. */
    method Poll(i: nat, key: Key, includeResult: bool) returns (response: Result<PollResponse, WaitError>)
      requires Valid() && i < |nodes|
      modifies `nodes, `clock, `lostCalls
      ensures Valid() && Onward()
      ensures response.Ok? ==> response.value == PollRequest(nodes[i].node, key, includeResult)
      ensures response.Err? ==> response.error.Rpc? && lostCalls > old(lostCalls)
    {
      var answered := Call();
      if !answered {
        return Err(Rpc("poll_request failed"));
      }
      response := Ok(PollRequest(nodes[i].node, key, includeResult));
    }

    method Sleep(interval: nat)
      modifies `clock
      ensures clock == old(clock) + interval
    {
      clock := clock + interval;
    }

    /** What a failed poll of an accepted request may be due to. */
    twostate predicate AskFailed(i: nat, key: Key, new error: WaitError)
      reads this
    {
      || (error.Rpc? && lostCalls > old(lostCalls))
      || (error.RequestFailed? && i < |nodes| && HasFailed(nodes[i], key, error.message))
    }

    /** And a failed wait of up to `timeout` for it: a timeout leaves the request running. */
    twostate predicate WaitFailed(i: nat, key: Key, timeout: nat, new error: WaitError)
      reads this
    {
      || AskFailed(i, key, error)
      || (error.TimedOut? && clock >= old(clock) + timeout && i < |nodes| && IsRunning(nodes[i], key))
    }

    /** One poll for readiness. */
    method AskReadiness(i: nat, key: Key) returns (answer: Answer<()>)
      requires Valid() && i < |nodes| && Knows(nodes[i], key, RECEIVER_KIND)
      modifies `nodes, `clock, `lostCalls
      ensures Valid() && Onward() && |nodes| == |old(nodes)| && Knows(nodes[i], key, RECEIVER_KIND)
      ensures answer.Ready? ==> ReadyReceiver(nodes[i], key)
      ensures answer.Pending? ==> Unready(nodes[i], key)
      ensures answer.Gone? ==> AskFailed(i, key, answer.error)
    {
      hide Inv, Advanced, Knows, ReadyReceiver, Unready, HasFailed, PollRequest, EnsureFinishedResult;
      var response := Poll(i, key, false);
      SameLength(old(nodes), nodes);
      StillKnown(old(nodes), nodes, i, key, RECEIVER_KIND);
      if response.Err? {
        return Gone(response.error);
      }
      ReadinessPoll(nodes[i], key);
      if response.value.ready {
        return Ready(());
      }
      var finished := EnsureFinishedResult(response.value);
      answer := if finished.Err? then Gone(finished.error) else Pending;
    }

    /** One poll for the result. */
    method AskResult(i: nat, key: Key, kind: string) returns (answer: Answer<RequestResult>)
      requires Valid() && i < |nodes| && Knows(nodes[i], key, kind)
      modifies `nodes, `clock, `lostCalls
      ensures Valid() && Onward() && |nodes| == |old(nodes)| && Knows(nodes[i], key, kind)
      ensures answer.Ready? ==> HoldsResult(nodes[i], key, answer.value)
      ensures answer.Pending? ==> IsRunning(nodes[i], key)
      ensures answer.Gone? ==> AskFailed(i, key, answer.error)
    {
      hide Inv, Advanced, Knows, HoldsResult, HasFailed, IsRunning, PollRequest, EnsureFinishedResult;
      var response := Poll(i, key, true);
      SameLength(old(nodes), nodes);
      StillKnown(old(nodes), nodes, i, key, kind);
      if response.Err? {
        return Gone(response.error);
      }
      ResultPoll(nodes[i], key, kind);
      var finished := EnsureFinishedResult(response.value);
      answer := if finished.Err? then Gone(finished.error)
                else if finished.value.Some? then Ready(finished.value.value) else Pending;
    }

    /** Polls until the request is ready, has failed, or the deadline is past. */
    method AwaitReady(i: nat, key: Key, timeout: nat) returns (r: Result<(), WaitError>)
      requires Valid() && i < |nodes| && Knows(nodes[i], key, RECEIVER_KIND)
      modifies this
      ensures |nodes| == |old(nodes)| && Valid() && Onward()
      ensures r.Ok? ==> ReadyReceiver(nodes[i], key)
      ensures r.Err? ==> WaitFailed(i, key, timeout, r.error)
      ensures r.Err? && r.error.TimedOut? ==> Unready(nodes[i], key)
    {
      hide Valid, Inv, Advanced, Knows, ReadyReceiver, HasFailed, IsRunning;
      AdvancedItself(nodes);
      var deadline := clock + timeout;
      while true
        invariant Valid() && Onward() && |nodes| == |old(nodes)| && Knows(nodes[i], key, RECEIVER_KIND)
        decreases deadline + REQUEST_POLL_INTERVAL - clock
      {
        ghost var before := nodes;
        var answer := AskReadiness(i, key);
        AdvancedFurther(old(nodes), before, nodes);
        if answer.Ready? {
          return Ok(());
        }
        if answer.Gone? {
          return Err(answer.error);
        }
        if clock >= deadline {
          return Err(TimedOut);
        }
        Sleep(REQUEST_POLL_INTERVAL);
      }
    }

    /** Polls until the request has its result, has failed, or the deadline is past. */
    method AwaitResult(i: nat, key: Key, kind: string, timeout: nat) returns (r: Result<RequestResult, WaitError>)
      requires Valid() && i < |nodes| && Knows(nodes[i], key, kind)
      modifies this
      ensures |nodes| == |old(nodes)| && Valid() && Onward()
      ensures r.Ok? ==> HoldsResult(nodes[i], key, r.value)
      ensures r.Err? ==> WaitFailed(i, key, timeout, r.error)
    {
      hide Valid, Inv, Advanced, Knows, HoldsResult, HasFailed, IsRunning;
      AdvancedItself(nodes);
      var deadline := clock + timeout;
      while true
        invariant Valid() && Onward() && |nodes| == |old(nodes)| && Knows(nodes[i], key, kind)
        decreases deadline + RESULT_POLL_INTERVAL - clock
      {
        ghost var before := nodes;
        var answer := AskResult(i, key, kind);
        AdvancedFurther(old(nodes), before, nodes);
        var transient: bool := *;
        if answer.Ready? {
          return Ok(answer.value);
        }
        if answer.Gone? && !(answer.error.Rpc? && transient && clock < deadline) {
          return Err(answer.error);
        }
        if answer.Pending? && clock >= deadline {
          return Err(TimedOut);
        }
        Sleep(RESULT_POLL_INTERVAL);
      }
    }

    /** wait_receiver_ready_on_target: succeeds only with the request ready, and never fails for want
        of a result or of the request. */
    method WaitReceiverReady(i: nat, runId: string, accepted: Accepted, timeout: nat) returns (r: Result<(), WaitError>)
      requires Valid() && i < |nodes|
      requires Promised(Node(i), runId, accepted)
      modifies this
      ensures |nodes| == |old(nodes)| && Valid() && Onward()
      ensures r.Ok? ==> accepted.ok && accepted.reqId.Some? && ReadyReceiver(Node(i), KeyOf(runId, accepted))
      ensures accepted.ok && r.Err? ==> WaitFailed(i, KeyOf(runId, accepted), timeout, r.error)
      ensures accepted.ok && r.Err? && r.error.TimedOut? ==> Unready(Node(i), KeyOf(runId, accepted))
      ensures !accepted.ok ==> r == Err(Rejected(accepted.message))
    {
      hide Valid, Inv, Advanced, Knows, ReadyReceiver, HoldsResult, HasFailed, WaitFailed, Unready;
      var id := RequestId(accepted);
      AdvancedItself(nodes);
      if id.Err? {
        return Err(id.error);
      }
      r := AwaitReady(i, (runId, id.value), timeout);
    }

    /** wait_for_request_result_on_target: a result is the stored one, without its samples. A failed
        call that looks transient is retried until the deadline. */
    method WaitForRequestResult(i: nat, runId: string, accepted: Accepted, kind: string, timeout: nat)
      returns (r: Result<RequestResult, WaitError>)
      requires Valid() && i < |nodes|
      requires accepted.ok ==> accepted.reqId.Some? && Knows(Node(i), KeyOf(runId, accepted), kind)
      modifies this
      ensures |nodes| == |old(nodes)| && Valid() && Onward()
      ensures !accepted.ok ==> r == Err(Rejected(accepted.message))
      ensures r.Ok? ==> accepted.ok && HoldsResult(Node(i), KeyOf(runId, accepted), r.value)
      ensures accepted.ok && r.Err? ==> WaitFailed(i, KeyOf(runId, accepted), timeout, r.error)
    {
      hide Valid, Inv, Advanced, Knows, ReadyReceiver, HoldsResult, HasFailed, WaitFailed;
      var id := RequestId(accepted);
      AdvancedItself(nodes);
      if id.Err? {
        return Err(id.error);
      }
      r := AwaitResult(i, (runId, id.value), kind, timeout);
    }

    /** One poll for the bare status. */
    method AskFinished(i: nat, key: Key, kind: string) returns (answer: Answer<()>)
      requires Valid() && i < |nodes| && Knows(nodes[i], key, kind)
      modifies `nodes, `clock, `lostCalls
      ensures Valid() && Onward() && |nodes| == |old(nodes)| && Knows(nodes[i], key, kind)
      ensures answer.Ready? ==> HasFinished(nodes[i], key)
      ensures answer.Pending? ==> IsRunning(nodes[i], key)
      ensures answer.Gone? ==> AskFailed(i, key, answer.error)
    {
      hide Inv, Advanced, Knows, HasFinished, HasFailed, IsRunning, PollRequest;
      var response := Poll(i, key, false);
      SameLength(old(nodes), nodes);
      StillKnown(old(nodes), nodes, i, key, kind);
      if response.Err? {
        return Gone(response.error);
      }
      StatusPoll(nodes[i], key, kind);
      match response.value.status {
        case Finished => answer := Ready(());
        case Failed => answer := Gone(RequestFailed(response.value.message));
        case Missing => answer := Gone(Unknown);
        case Running => answer := Pending;
      }
    }

    /** wait_for_request_finished_on_target: the same wait without the result. */
    method WaitForRequestFinished(i: nat, runId: string, accepted: Accepted, kind: string, timeout: nat)
      returns (r: Result<(), WaitError>)
      requires Valid() && i < |nodes|
      requires accepted.ok ==> accepted.reqId.Some? && Knows(Node(i), KeyOf(runId, accepted), kind)
      modifies this
      ensures |nodes| == |old(nodes)| && Valid() && Onward()
      ensures !accepted.ok ==> r == Err(Rejected(accepted.message))
      ensures r.Ok? ==> accepted.ok && HasFinished(Node(i), KeyOf(runId, accepted))
      ensures accepted.ok && r.Err? ==> WaitFailed(i, KeyOf(runId, accepted), timeout, r.error)
    {
      hide Valid, Inv, Advanced, Knows, HasFinished, HasFailed, WaitFailed;
      var id := RequestId(accepted);
      AdvancedItself(nodes);
      if id.Err? {
        return Err(id.error);
      }
      r := AwaitFinished(i, (runId, id.value), kind, timeout);
    }

    method AwaitFinished(i: nat, key: Key, kind: string, timeout: nat) returns (r: Result<(), WaitError>)
      requires Valid() && i < |nodes| && Knows(nodes[i], key, kind)
      modifies this
      ensures |nodes| == |old(nodes)| && Valid() && Onward()
      ensures r.Ok? ==> HasFinished(nodes[i], key)
      ensures r.Err? ==> WaitFailed(i, key, timeout, r.error)
    {
      hide Valid, Inv, Advanced, Knows, HasFinished, HasFailed, IsRunning;
      AdvancedItself(nodes);
      var deadline := clock + timeout;
      while true
        invariant Valid() && Onward() && |nodes| == |old(nodes)| && Knows(nodes[i], key, kind)
        decreases deadline + REQUEST_POLL_INTERVAL - clock
      {
        ghost var before := nodes;
        var answer := AskFinished(i, key, kind);
        AdvancedFurther(old(nodes), before, nodes);
        var transient: bool := *;
        if answer.Ready? {
          return Ok(());
        }
        if answer.Gone? && !(answer.error.Rpc? && transient && clock < deadline) {
          return Err(answer.error);
        }
        if answer.Pending? && clock >= deadline {
          return Err(TimedOut);
        }
        Sleep(REQUEST_POLL_INTERVAL);
      }
    }

    /** Why a start call may fail. */
    twostate predicate StartFailed(new error: WaitError)
      reads this
    {
      (error.Rpc? && lostCalls > old(lostCalls)) || (error.CounterSpent? && Spent(nodes))
    }

    /** Starts one receiver on node i; the call may fail. */
    method StartReceiver(i: nat, runId: string) returns (accepted: Result<Accepted, WaitError>)
      requires Valid() && i < |nodes|
      modifies `nodes, `clock, `lostCalls
      ensures Valid() && Onward()
      ensures accepted.Ok? ==> Promised(nodes[i], runId, accepted.value)
      ensures accepted.Ok? ==> NewSince(old(nodes[i]), runId, accepted.value)
      ensures accepted.Ok? ==> (accepted.value.ok <==> !Blank(runId))
      ensures accepted.Err? ==> StartFailed(accepted.error)
    {
      hide Inv, Advanced, Promised, NewSince, FormatId, Blank, Step, CreateRequest, Spent;
      var answered := Call();
      if !answered {
        return Err(Rpc("start_channel_receiver failed"));
      }
      var submit := Submit(runId, RECEIVER_KIND);
      if Step(nodes[i], submit).created > U64_SPAN {
        NoRoomIsSpent(nodes, i, submit);
        return Err(CounterSpent);
      }
      AcceptedIsNew(nodes[i], runId);
      accepted := Ok(CreateRequest(nodes[i].node, runId, RECEIVER_KIND).1);
      NewEarlier(old(nodes), nodes, i, runId, accepted.value);
      AdvancedByStep(nodes, i, submit);
      AdvancedFurther(old(nodes), nodes, nodes[i := Step(nodes[i], submit)]);
      nodes := nodes[i := Step(nodes[i], submit)];
    }

    /** All receivers are started at once, so their calls reach the nodes in any order; every call is
        made, whatever the others answer, and the answers are in the order of the targets. */
    method StartReceivers(targets: seq<nat>, runId: string) returns (r: Result<seq<Accepted>, WaitError>)
      requires Valid() && forall j :: 0 <= j < |targets| ==> targets[j] < |nodes|
      modifies `nodes, `clock, `lostCalls
      ensures |nodes| == |old(nodes)| && Valid() && Onward()
      ensures r.Ok? ==> |r.value| == |targets|
      ensures r.Ok? ==> forall j :: 0 <= j < |targets| ==> Promised(nodes[targets[j]], runId, r.value[j])
      ensures r.Ok? ==> forall j :: 0 <= j < |targets| ==> NewSince(old(nodes)[targets[j]], runId, r.value[j])
      ensures r.Ok? ==> forall j :: 0 <= j < |targets| ==> (r.value[j].ok <==> !Blank(runId))
      ensures r.Err? ==> StartFailed(r.error)
    {
      hide Inv, Advanced, Promised, NewSince, Blank, Spent;
      AdvancedItself(nodes);
      var answers: seq<Result<Accepted, WaitError>> := seq(|targets|, _ => Err(NoRequestId));
      var pending := Below(|targets|);
      while pending != {}
        invariant Valid() && Onward() && |answers| == |targets| && |nodes| == |old(nodes)|
        invariant forall j :: j in pending ==> 0 <= j < |targets|
        invariant forall k :: 0 <= k < |targets| && k !in pending ==>
                    StartKept(old(nodes)[targets[k]], nodes[targets[k]], runId, answers[k],
                              lostCalls > old(lostCalls), Spent(nodes))
        decreases |pending|
      {
        ghost var before, lost := nodes, lostCalls > old(lostCalls);
        var j: nat :| j in pending;
        var answer := StartReceiver(targets[j], runId);
        SameLength(before, nodes);
        AdvancedFurther(old(nodes), before, nodes);
        if answer.Ok? { NewEarlier(old(nodes), before, targets[j], runId, answer.value); }
        forall k | 0 <= k < |targets| && k !in pending
          ensures StartKept(old(nodes)[targets[k]], nodes[targets[k]], runId, answers[k],
                            lostCalls > old(lostCalls), Spent(nodes))
        {
          StartStaysKept(old(nodes), before, nodes, targets[k], runId, answers[k], lost, lostCalls > old(lostCalls));
        }
        answers, pending := answers[j := answer], pending - {j};
      }
      r := AllAccepted(answers);
    }

    /** Why the send may not be issued. */
    twostate predicate BarrierFailed(targets: seq<nat>, runId: string, timeout: nat, new error: WaitError)
      requires forall j :: 0 <= j < |targets| ==> targets[j] < |nodes| == |old(nodes)|
      reads this
    {
      || (error.Rpc? && lostCalls > old(lostCalls))
      || (error.Rejected? && Blank(runId))
      || (error.CounterSpent? && Spent(nodes))
      || (&& (error.RequestFailed? || (error.TimedOut? && clock >= old(clock) + timeout))
          && exists j, id: string :: 0 <= j < |targets|
               && TargetFailed(old(nodes)[targets[j]], nodes[targets[j]], (runId, id), error))
    }

    /** The part of run_datapoint between the receivers and the sender: all receivers are started,
        each is waited for in turn, and only then is the send issued. When it is, the keys are those of
        receiver requests made by this call, one per target, and all are ready at that moment. When it
        is not, a call was lost, the run id is blank, a counter is spent, or a request of this call
        failed or is still not ready after the whole timeout. */
    method StartReceiversThenSend(targets: seq<nat>, runId: string, timeout: nat)
      returns (r: Result<seq<Key>, WaitError>)
      requires Valid() && forall j :: 0 <= j < |targets| ==> targets[j] < |nodes|
      modifies this
      ensures |nodes| == |old(nodes)| && Valid() && Onward()
      ensures r.Ok? ==> |r.value| == |targets|
      ensures r.Ok? ==> forall j :: 0 <= j < |targets| ==> ReadyReceiver(nodes[targets[j]], r.value[j])
      ensures r.Ok? ==> forall j :: 0 <= j < |targets| ==>
                r.value[j].0 == runId && r.value[j] !in old(nodes)[targets[j]].node.requests
      ensures r.Err? ==> BarrierFailed(targets, runId, timeout, r.error)
    {
      hide Inv, Advanced, Promised, ReadyReceiver, Blank, Spent, HasFailed, Unready;
      var keys: seq<Key> := [];
      var accepted := StartReceivers(targets, runId);
      if accepted.Err? {
        return Err(accepted.error);
      }
      for j := 0 to |targets|
        invariant Valid() && Onward() && |nodes| == |old(nodes)| && |keys| == j
        invariant forall k :: 0 <= k < |targets| ==> Promised(nodes[targets[k]], runId, accepted.value[k])
        invariant forall k :: 0 <= k < j ==> ReadyReceiver(nodes[targets[k]], keys[k])
        invariant forall k :: 0 <= k < j ==> keys[k].0 == runId && keys[k] !in old(nodes)[targets[k]].node.requests
      {
        ghost var before := nodes;
        var ready := WaitReceiverReady(targets[j], runId, accepted.value[j], timeout);
        AdvancedFurther(old(nodes), before, nodes);
        if ready.Err? {
          if accepted.value[j].ok {
            ghost var key := KeyOf(runId, accepted.value[j]);
            assert ready.error.Rpc? || TargetFailed(old(nodes)[targets[j]], nodes[targets[j]], key, ready.error);
          }
          return Err(ready.error);
        }
        forall k | 0 <= k < |targets| ensures Promised(nodes[targets[k]], runId, accepted.value[k]) {
          StillPromised(before, nodes, targets[k], runId, accepted.value[k]);
        }
        forall k | 0 <= k < j ensures ReadyReceiver(nodes[targets[k]], keys[k]) {
          StillKnown(before, nodes, targets[k], keys[k], RECEIVER_KIND);
        }
        keys := keys + [KeyOf(runId, accepted.value[j])];
      }
      r := Ok(keys);
    }
  }
}
