/** The request registry of a node (src/rpc/server/state.rs). Each critical section under the
    runtime lock is one method of `NodeRuntime`, specified by a function on `Node` values;
    runs over those functions are studied in RequestLifecycle. */
module RequestRegistry {
  import opened Numbers
  import opened RequestIds
  import opened Text
  import opened Wrappers

  /** A list held in memory: its length is a 64-bit number. */
  type InMemory<T> = xs: seq<T> | |xs| < U64_SPAN witness []

  datatype RequestResult =
    | BlobPut(count: nat, totalBytes: nat, elapsedMs: real, refs: InMemory<string>)
    | ChannelReceiver(summary: string, deliverySamplesMs: InMemory<real>, materializeSamplesMs: InMemory<real>)
    | Other(description: string)

  datatype RequestStatus = Missing | Running | Finished | Failed

  datatype RequestRecord = RequestRecord(
    runId: string, reqId: string, kind: string, status: RequestStatus, ready: bool, cancelled: bool,
    result: Option<RequestResult>, error: Option<string>)

  type Key = (string, string)

  datatype Expr = Expr(runId: string, phase: string)

  datatype Node = Node(requests: map<Key, RequestRecord>, nextRequestSeq: nat, generation: nat, current: Option<Expr>)

  datatype Accepted = Accepted(ok: bool, runId: string, reqId: Option<string>, message: string)

  datatype PollResponse = PollResponse(
    runId: string, reqId: string, status: RequestStatus, ready: bool, result: Option<RequestResult>, message: string)

  // ------------------------------------------------------------ the critical sections

  function InPhase(current: Option<Expr>, runId: string, phase: string): Option<Expr> {
    if current.Some? && current.value.runId == runId then Some(current.value.(phase := phase)) else current
  }

  function Stored(node: Node, key: Key, record: RequestRecord, phase: string): Node {
    Node(node.requests[key := record], node.nextRequestSeq, node.generation + 1,
         InPhase(node.current, key.0, phase + ":" + record.kind))
  }

  function NextSeq(node: Node): nat { (node.nextRequestSeq + 1) % U64_SPAN }

  function NewRecord(runId: string, reqId: string, kind: string): RequestRecord {
    RequestRecord(runId, reqId, kind, Running, false, false, None, None)
  }

  function CreateRequest(node: Node, runId: string, kind: string): (Node, Accepted) {
    if Blank(runId) then (node, Accepted(false, runId, None, "run_id must not be empty"))
    else
      var reqId := FormatId(kind, NextSeq(node));
      (Stored(node.(nextRequestSeq := NextSeq(node)), (runId, reqId), NewRecord(runId, reqId, kind), "request_running"),
       Accepted(true, runId, Some(reqId), "request accepted"))
  }

  /** The other sections fail on an unknown key and then change nothing. */
  function MarkReady(node: Node, key: Key): Node {
    if key !in node.requests then node
    else Stored(node, key, node.requests[key].(ready := true), "request_ready")
  }

  function CancelRequest(node: Node, key: Key): Node {
    if key !in node.requests then node
    else Stored(node, key, node.requests[key].(cancelled := true), "request_cancelled")
  }

  function FinishRequest(node: Node, key: Key, result: RequestResult): Node {
    if key !in node.requests then node
    else
      var finished := node.requests[key].(status := Finished, result := Some(result), error := None);
      Stored(node, key, finished, "request_finished")
  }

  function FailRequest(node: Node, key: Key, error: string): Node {
    if key !in node.requests then node
    else
      var failed := node.requests[key].(status := Failed, result := None, error := Some(error));
      Stored(node, key, failed, "request_failed")
  }

  /** Samples travel in chunks, not in the poll answer. */
  function StripLargeResult(result: RequestResult): RequestResult {
    match result
    case ChannelReceiver(summary, _, _) => ChannelReceiver(summary, [], [])
    case other => other
  }

  function StatusName(status: RequestStatus): string {
    match status
    case Missing => "Missing"
    case Running => "Running"
    case Finished => "Finished"
    case Failed => "Failed"
  }

  function PollRecord(record: RequestRecord, includeResult: bool): PollResponse {
    PollResponse(
      record.runId, record.reqId, record.status, record.ready,
      if includeResult && record.result.Some? then Some(StripLargeResult(record.result.value)) else None,
      if record.error.Some? then record.error.value else record.kind + " request is " + StatusName(record.status))
  }

  function PollRequest(node: Node, key: Key, includeResult: bool): PollResponse {
    if key !in node.requests then PollResponse(key.0, key.1, Missing, false, None, "unknown request id")
    else PollRecord(node.requests[key], includeResult)
  }

  /** A poll that asks for the result gets it whole, but for the samples of a receiver. */
  ghost predicate AnsweredFor(stored: RequestResult, answered: RequestResult) {
    if stored.ChannelReceiver? then answered == ChannelReceiver(stored.summary, [], []) else answered == stored
  }

  lemma PollTellsTheRecord(node: Node, key: Key, includeResult: bool)
    ensures var poll := PollRequest(node, key, includeResult);
            if key !in node.requests then
              && (poll.runId, poll.reqId) == key && poll.status == Missing && !poll.ready && poll.result.None?
              && poll.message == "unknown request id"
            else
              var r := node.requests[key];
              && poll.runId == r.runId && poll.reqId == r.reqId && poll.status == r.status && poll.ready == r.ready
              && (r.error.Some? ==> poll.message == r.error.value)
              && (r.error.None? && r.status == Running ==> poll.message == r.kind + " request is Running")
              && (r.error.None? && r.status == Finished ==> poll.message == r.kind + " request is Finished")
              && (poll.result.Some? <==> includeResult && r.result.Some?)
              && (poll.result.Some? ==> AnsweredFor(r.result.value, poll.result.value))
  {}

  lemma BlankIsRefused(node: Node, runId: string, kind: string)
    ensures var (after, accepted) := CreateRequest(node, runId, kind);
            && accepted.runId == runId
            && (Blank(runId) ==> after == node && !accepted.ok && accepted.reqId.None?)
            && (!Blank(runId) ==> accepted.ok && accepted.reqId.Some?
                                  && after.requests.Keys == node.requests.Keys + {(runId, accepted.reqId.value)})
  {
    hide FormatId, Blank, InPhase;
  }

  // ------------------------------------------------------------ the shared state

  class NodeRuntime {
    var requests: map<Key, RequestRecord>
    var nextRequestSeq: nat
    var generation: nat
    var current: Option<Expr>

    function State(): Node
      reads this
    {
      Node(requests, nextRequestSeq, generation, current)
    }

    constructor ()
      ensures State() == Node(map[], 0, 0, None)
    {
      requests, nextRequestSeq, generation, current := map[], 0, 0, None;
    }

    method EnterPhase(runId: string, phase: string)
      modifies `current, `generation
      ensures current == InPhase(old(current), runId, phase) && generation == old(generation) + 1
    {
      if current.Some? && current.value.runId == runId {
        current := Some(current.value.(phase := phase));
      }
      generation := generation + 1;
    }

    method CreateRequestOnNode(runId: string, kind: string) returns (accepted: Accepted)
      modifies this
      ensures (State(), accepted) == CreateRequest(old(State()), runId, kind)
    {
      if Blank(runId) {
        return Accepted(false, runId, None, "run_id must not be empty");
      }
      nextRequestSeq := (nextRequestSeq + 1) % U64_SPAN;
      var reqId := FormatId(kind, nextRequestSeq);
      requests := requests[(runId, reqId) := RequestRecord(runId, reqId, kind, Running, false, false, None, None)];
      EnterPhase(runId, "request_running" + ":" + kind);
      accepted := Accepted(true, runId, Some(reqId), "request accepted");
    }

    method MarkRequestReadyOnNode(runId: string, reqId: string) returns (ok: bool)
      modifies this
      ensures ok == ((runId, reqId) in old(requests)) && State() == MarkReady(old(State()), (runId, reqId))
    {
      var key := (runId, reqId);
      if key !in requests {
        return false;
      }
      requests := requests[key := requests[key].(ready := true)];
      EnterPhase(runId, "request_ready" + ":" + requests[key].kind);
      ok := true;
    }

    method CancelRequestOnNode(runId: string, reqId: string) returns (ok: bool)
      modifies this
      ensures ok == ((runId, reqId) in old(requests)) && State() == CancelRequest(old(State()), (runId, reqId))
    {
      var key := (runId, reqId);
      if key !in requests {
        return false;
      }
      requests := requests[key := requests[key].(cancelled := true)];
      EnterPhase(runId, "request_cancelled" + ":" + requests[key].kind);
      ok := true;
    }

    method FinishRequestOnNode(runId: string, reqId: string, result: RequestResult) returns (ok: bool)
      modifies this
      ensures ok == ((runId, reqId) in old(requests)) && State() == FinishRequest(old(State()), (runId, reqId), result)
    {
      var key := (runId, reqId);
      if key !in requests {
        return false;
      }
      requests := requests[key := requests[key].(status := Finished, result := Some(result), error := None)];
      EnterPhase(runId, "request_finished" + ":" + requests[key].kind);
      ok := true;
    }

    method FailRequestOnNode(runId: string, reqId: string, error: string) returns (ok: bool)
      modifies this
      ensures ok == ((runId, reqId) in old(requests)) && State() == FailRequest(old(State()), (runId, reqId), error)
    {
      var key := (runId, reqId);
      if key !in requests {
        return false;
      }
      requests := requests[key := requests[key].(status := Failed, result := None, error := Some(error))];
      EnterPhase(runId, "request_failed" + ":" + requests[key].kind);
      ok := true;
    }

    method PollRequestOnNode(runId: string, reqId: string, includeResult: bool) returns (response: PollResponse)
      ensures response == PollRequest(State(), (runId, reqId), includeResult)
    {
      var key := (runId, reqId);
      if key !in requests {
        return PollResponse(runId, reqId, Missing, false, None, "unknown request id");
      }
      var record := requests[key];
      var result: Option<RequestResult> := None;
      if includeResult && record.result.Some? {
        result := Some(StripLargeResult(record.result.value));
      }
      var message := record.kind + " request is " + StatusName(record.status);
      if record.error.Some? {
        message := record.error.value;
      }
      response := PollResponse(record.runId, record.reqId, record.status, record.ready, result, message);
    }
  }
}
