/** Download of a large result in chunks: the server side is blob_put_refs_chunk_on_node and
    channel_receiver_samples_chunk_on_node (src/rpc/server/state.rs), the client side
    fetch_blob_put_result_chunks_on_target (src/experiments/blob/control.rs) and
    fetch_receiver_samples_on_target (src/experiments/channel/control.rs). The nodes go on moving
    between any two calls. */
module ChunkedDownload {
  import opened Numbers
  import opened ReadinessBarrier
  import opened RequestLifecycle
  import opened RequestRegistry
  import opened Wrappers

  const BLOB_REF_FETCH_CHUNK_SIZE: nat := 1024
  const RECEIVER_SAMPLE_CHUNK_SIZE: nat := 16 * 1024

  datatype FetchError =
    | CallLost | Refused | PutFailed | NotKnown | StillRunning | NotReady
    | WrongOffset(offset: nat) | WrongCount(received: nat, expected: nat)

  // ------------------------------------------------------------ the server

  datatype RefsChunk = RefsChunk(ok: bool, status: RequestStatus, count: nat, totalBytes: nat, elapsedMs: real,
                                 offset: nat, refs: seq<string>, hasMore: bool)

  function NoRefs(ok: bool, status: RequestStatus, offset: nat): RefsChunk {
    RefsChunk(ok, status, 0, 0, 0.0, offset, [], false)
  }

  function BlobPutRefsChunk(record: Option<RequestRecord>, offset: nat, limit: nat): RefsChunk {
    if limit == 0 then NoRefs(false, Missing, offset)
    else if record.None? then NoRefs(true, Missing, offset)
    else if record.value.status == Finished && record.value.result.Some? then
      match record.value.result.value
      case BlobPut(count, totalBytes, elapsedMs, refs) =>
        var start := Min(offset, |refs|);
        var end := Min(SaturatingAdd(start, limit), |refs|);
        RefsChunk(true, Finished, count, totalBytes, elapsedMs, start,
                  if start <= end then refs[start..end] else [], end < |refs|)
      case _ => NoRefs(false, Finished, offset)
    else NoRefs(true, record.value.status, offset)
  }

  datatype SamplesChunk = SamplesChunk(ok: bool, status: RequestStatus, offset: nat, deliveryCount: nat,
                                       materializeCount: nat, delivery: seq<real>, materialize: seq<real>,
                                       hasMore: bool)

  function NoSamples(ok: bool, status: RequestStatus, offset: nat): SamplesChunk {
    SamplesChunk(ok, status, offset, 0, 0, [], [], false)
  }

  function PageStart(samples: seq<real>, offset: nat): (start: nat)
    ensures start <= |samples|
  {
    Min(offset, |samples|)
  }

  function PageEnd(samples: seq<real>, offset: nat, limit: nat): (end: nat)
    ensures end <= |samples|
  {
    Min(SaturatingAdd(PageStart(samples, offset), limit), |samples|)
  }

  function Page(samples: seq<real>, offset: nat, limit: nat): seq<real> {
    var start, end := PageStart(samples, offset), PageEnd(samples, offset, limit);
    if start <= end then samples[start..end] else []
  }

  function ChannelReceiverSamplesChunk(record: Option<RequestRecord>, offset: nat, limit: nat): SamplesChunk {
    if limit == 0 then NoSamples(false, Missing, offset)
    else if record.None? then NoSamples(true, Missing, offset)
    else if record.value.status == Finished && record.value.result.Some? then
      match record.value.result.value
      case ChannelReceiver(_, delivery, materialize) =>
        SamplesChunk(true, Finished, offset, |delivery|, |materialize|,
                     Page(delivery, offset, limit), Page(materialize, offset, limit),
                     || PageEnd(delivery, offset, limit) < |delivery|
                     || PageEnd(materialize, offset, limit) < |materialize|)
      case _ => NoSamples(false, Finished, offset)
    else NoSamples(true, record.value.status, offset)
  }

  /** What both kinds of call answer when there is nothing to page: a limit of zero is refused, and
      else the status tells. */
  lemma NothingToPage(record: Option<RequestRecord>, offset: nat, limit: nat)
    requires limit == 0 || record.None? || record.value.status != Finished || record.value.result.None?
    ensures var refs := BlobPutRefsChunk(record, offset, limit);
            var samples := ChannelReceiverSamplesChunk(record, offset, limit);
            var status := if limit == 0 || record.None? then Missing else record.value.status;
            && refs.ok == samples.ok == (limit > 0) && refs.status == samples.status == status
            && !refs.hasMore && !samples.hasMore
            && refs.refs == [] && samples.delivery == samples.materialize == []
  {}

  // ------------------------------------------------------------ the client

  /** The record of a key as a node holds it. */
  function RecordAt(s: System, key: Key): Option<RequestRecord> {
    if key in s.node.requests then Some(s.node.requests[key]) else None
  }

  predicate Stored(record: Option<RequestRecord>) { record.Some? && record.value.status == Finished }

  /** What a download of the refs must come to, said without chunks. */
  function RefsDownload(record: Option<RequestRecord>, chunkSize: nat): Result<RequestResult, FetchError> {
    if chunkSize == 0 then Err(Refused)
    else if record.None? then Err(NotKnown)
    else
      match record.value.status
      case Missing => Err(NotKnown)
      case Failed => Err(PutFailed)
      case Running => Err(StillRunning)
      case Finished =>
        if record.value.result.None? then Ok(BlobPut(0, 0, 0.0, []))
        else if !record.value.result.value.BlobPut? then Err(Refused)
        else
          var stored := record.value.result.value;
          if |stored.refs| == stored.count then Ok(stored) else Err(WrongCount(|stored.refs|, stored.count))
  }

  /** The stored refs that a download goes through. */
  function StoredRefs(record: Option<RequestRecord>): InMemory<string> {
    if Stored(record) && record.value.result.Some? && record.value.result.value.BlobPut?
    then record.value.result.value.refs else []
  }

  /** A chunk asked for at the point reached so far. */
  lemma RefsChunkExtends(record: Option<RequestRecord>, got: nat, limit: nat)
    requires limit > 0 && got <= |StoredRefs(record)|
    ensures var stored, chunk := StoredRefs(record), BlobPutRefsChunk(record, got, limit);
            chunk.ok && chunk.status == Finished ==>
              && chunk.offset == got && got + |chunk.refs| <= |stored|
              && stored[..got] + chunk.refs == stored[..got + |chunk.refs|]
              && (chunk.hasMore <==> got + |chunk.refs| < |stored|)
              && (chunk.hasMore ==> chunk.refs != [])
  {}

  /** Any answer settles what the download must come to. */
  lemma RefsChunkSettles(record: Option<RequestRecord>, got: nat, limit: nat)
    requires got <= |StoredRefs(record)|
    ensures var chunk := BlobPutRefsChunk(record, got, limit);
            RefsDownload(record, limit) ==
              if !chunk.ok then Err(Refused)
              else
                match chunk.status
                case Missing => Err(NotKnown)
                case Failed => Err(PutFailed)
                case Running => Err(StillRunning)
                case Finished =>
                  var refs := StoredRefs(record);
                  if |refs| == chunk.count then Ok(BlobPut(chunk.count, chunk.totalBytes, chunk.elapsedMs, refs))
                  else Err(WrongCount(|refs|, chunk.count))
  {}

  /** What is stored stays stored, whatever the nodes do meanwhile. */
  lemma StaysStored(before: seq<System>, after: seq<System>, i: nat, key: Key)
    requires Advanced(before, after) && i < |before|
    ensures Stored(RecordAt(before[i], key)) ==>
              && Stored(RecordAt(after[i], key))
              && StoredRefs(RecordAt(after[i], key)) == StoredRefs(RecordAt(before[i], key))
              && SamplesDownload(RecordAt(after[i], key)) == SamplesDownload(RecordAt(before[i], key))
              && RecordAt(after[i], key).value.result == RecordAt(before[i], key).value.result
  {
    assert KeepsRequests(before[i], after[i]);
  }

  /** One call for a chunk of refs: it may be lost, and is answered from the node as it then is. */
  method CallRefsChunk(cluster: Cluster, i: nat, key: Key, offset: nat, limit: nat) returns (answer: Option<RefsChunk>)
    requires cluster.Valid() && i < |cluster.nodes|
    modifies cluster
    ensures cluster.Valid() && cluster.Onward() && |cluster.nodes| == |old(cluster.nodes)|
    ensures answer.Some? ==> answer.value == BlobPutRefsChunk(RecordAt(cluster.nodes[i], key), offset, limit)
    ensures answer.None? ==> cluster.lostCalls > old(cluster.lostCalls)
  {
    hide Advanced, BlobPutRefsChunk;
    var answered := cluster.Call();
    SameLength(old(cluster.nodes), cluster.nodes);
    answer := if answered then Some(BlobPutRefsChunk(RecordAt(cluster.nodes[i], key), offset, limit)) else None;
  }

  /** Whatever the chunk size, the download ends, and unless a call of it is lost it comes to the
      refs the node has stored. */
  method FetchBlobPutResultChunks(cluster: Cluster, i: nat, key: Key, chunkSize: nat)
    returns (r: Result<RequestResult, FetchError>)
    requires cluster.Valid() && i < |cluster.nodes|
    modifies cluster
    ensures cluster.Valid() && cluster.Onward() && |cluster.nodes| == |old(cluster.nodes)|
    ensures || r == RefsDownload(RecordAt(cluster.nodes[i], key), chunkSize)
            || (r == Err(CallLost) && cluster.lostCalls > old(cluster.lostCalls))
  {
    hide Cluster.Valid, BlobPutRefsChunk, StoredRefs, RefsDownload, Stored, RecordAt, Advanced;
    AdvancedItself(cluster.nodes);
    var refs: seq<string> := [];
    while true
      invariant cluster.Valid() && cluster.Onward() && |cluster.nodes| == |old(cluster.nodes)|
      invariant refs == [] || Stored(RecordAt(cluster.nodes[i], key))
      invariant refs <= StoredRefs(RecordAt(cluster.nodes[i], key))
      decreases refs == [], |StoredRefs(RecordAt(cluster.nodes[i], key))| - |refs|
    {
      ghost var before := cluster.nodes;
      var answer := CallRefsChunk(cluster, i, key, |refs|, chunkSize);
      AdvancedFurther(old(cluster.nodes), before, cluster.nodes);
      StaysStored(before, cluster.nodes, i, key);
      if answer.None? { return Err(CallLost); }
      var response := answer.value;
      ghost var record := RecordAt(cluster.nodes[i], key);
      RefsChunkSettles(record, |refs|, chunkSize);
      if !response.ok { return Err(Refused); }
      match response.status {
        case Finished =>
        case Failed => return Err(PutFailed);
        case Missing => return Err(NotKnown);
        case Running => return Err(StillRunning);
      }
      FinishedIsStored(record, |refs|, chunkSize);
      RefsChunkExtends(record, |refs|, chunkSize);
      if response.offset != |refs| { return Err(WrongOffset(response.offset)); }
      refs := refs + response.refs;
      if !response.hasMore {
        assert refs == StoredRefs(record);
        if |refs| != response.count { return Err(WrongCount(|refs|, response.count)); }
        return Ok(BlobPut(response.count, response.totalBytes, response.elapsedMs, refs));
      }
    }
  }

  lemma FinishedIsStored(record: Option<RequestRecord>, offset: nat, limit: nat)
    requires var chunk := BlobPutRefsChunk(record, offset, limit); chunk.ok && chunk.status == Finished
    ensures limit > 0 && Stored(record)
  {}

  /** What a download of the samples must come to. */
  function SamplesDownload(record: Option<RequestRecord>): Result<(InMemory<real>, InMemory<real>), FetchError> {
    if record.None? || record.value.status != Finished then Err(NotReady)
    else if record.value.result.None? then Ok(([], []))
    else
      match record.value.result.value
      case ChannelReceiver(_, delivery, materialize) => Ok((delivery, materialize))
      case _ => Err(Refused)
  }

  function StoredSamples(record: Option<RequestRecord>): (InMemory<real>, InMemory<real>) {
    if SamplesDownload(record).Ok? then SamplesDownload(record).value else ([], [])
  }

  /** The two lists paged up to a shared offset that may lie beyond the end of either. */
  function Paged(samples: seq<real>, offset: nat): seq<real> { samples[..PageStart(samples, offset)] }

  lemma PageExtends(samples: seq<real>, offset: nat, limit: nat)
    requires |samples| <= U64_MAX && limit > 0
    ensures Paged(samples, offset) + Page(samples, offset, limit) == samples[..PageEnd(samples, offset, limit)]
    ensures PageEnd(samples, offset, limit) == PageStart(samples, offset + limit)
    ensures PageEnd(samples, offset, limit) < |samples| <==> offset + limit < |samples|
  {}

  lemma SamplesChunkExtends(record: Option<RequestRecord>, offset: nat, limit: nat)
    requires limit > 0
    ensures var stored, chunk := StoredSamples(record), ChannelReceiverSamplesChunk(record, offset, limit);
            chunk.ok && chunk.status == Finished ==>
              && Paged(stored.0, offset) + chunk.delivery == Paged(stored.0, offset + limit)
              && Paged(stored.1, offset) + chunk.materialize == Paged(stored.1, offset + limit)
              && (chunk.hasMore <==> offset + limit < |stored.0| || offset + limit < |stored.1|)
              && (chunk.hasMore ==> SaturatingAdd(offset, limit) == offset + limit)
              && chunk.deliveryCount == |stored.0| && chunk.materializeCount == |stored.1|
  {
    var stored := StoredSamples(record);
    PageExtends(stored.0, offset, limit);
    PageExtends(stored.1, offset, limit);
  }

  lemma SamplesChunkSettles(record: Option<RequestRecord>, offset: nat, limit: nat)
    requires limit > 0
    ensures var chunk := ChannelReceiverSamplesChunk(record, offset, limit);
            SamplesDownload(record) ==
              if !chunk.ok then Err(Refused) else if chunk.status != Finished then Err(NotReady)
              else Ok(StoredSamples(record))
  {}

  lemma WholeIsPaged(samples: seq<real>, offset: nat)
    ensures offset >= |samples| ==> Paged(samples, offset) == samples
    ensures Paged(samples, 0) == []
  {}

  lemma SampledIsStored(record: Option<RequestRecord>, offset: nat, limit: nat)
    requires var chunk := ChannelReceiverSamplesChunk(record, offset, limit); chunk.ok && chunk.status == Finished
    ensures Stored(record)
  {}

  method CallSamplesChunk(cluster: Cluster, i: nat, key: Key, offset: nat, limit: nat)
    returns (answer: Option<SamplesChunk>)
    requires cluster.Valid() && i < |cluster.nodes|
    modifies cluster
    ensures cluster.Valid() && cluster.Onward() && |cluster.nodes| == |old(cluster.nodes)|
    ensures answer.Some? ==> answer.value == ChannelReceiverSamplesChunk(RecordAt(cluster.nodes[i], key), offset, limit)
    ensures answer.None? ==> cluster.lostCalls > old(cluster.lostCalls)
  {
    hide Advanced, ChannelReceiverSamplesChunk;
    var answered := cluster.Call();
    SameLength(old(cluster.nodes), cluster.nodes);
    answer := if answered then Some(ChannelReceiverSamplesChunk(RecordAt(cluster.nodes[i], key), offset, limit))
              else None;
  }

  /** What is paged so far, and whether anything is still to come. */
  ghost predicate PagedUpto(record: Option<RequestRecord>, offset: nat, delivery: seq<real>, materialize: seq<real>) {
    && (offset == 0 || Stored(record))
    && delivery == Paged(StoredSamples(record).0, offset) && materialize == Paged(StoredSamples(record).1, offset)
  }

  lemma NothingPaged(record: Option<RequestRecord>)
    ensures PagedUpto(record, 0, [], [])
  {}

  lemma PagedStays(before: seq<System>, after: seq<System>, i: nat, key: Key, offset: nat,
                   delivery: seq<real>, materialize: seq<real>)
    requires Advanced(before, after) && i < |before|
    requires PagedUpto(RecordAt(before[i], key), offset, delivery, materialize)
    ensures PagedUpto(RecordAt(after[i], key), offset, delivery, materialize)
    ensures offset > 0 ==> StoredSamples(RecordAt(after[i], key)) == StoredSamples(RecordAt(before[i], key))
  {
    StaysStored(before, after, i, key);
  }

  lemma PagedOn(record: Option<RequestRecord>, offset: nat, delivery: seq<real>, materialize: seq<real>, limit: nat)
    requires PagedUpto(record, offset, delivery, materialize) && limit > 0
    ensures var chunk := ChannelReceiverSamplesChunk(record, offset, limit);
            var stored := StoredSamples(record);
            chunk.ok && chunk.status == Finished ==>
              && PagedUpto(record, offset + limit, delivery + chunk.delivery, materialize + chunk.materialize)
              && (chunk.hasMore ==> && SaturatingAdd(offset, limit) == offset + limit
                                    && offset + limit < |stored.0| + |stored.1|)
              && (!chunk.hasMore ==> && delivery + chunk.delivery == stored.0 && chunk.deliveryCount == |stored.0|
                                     && materialize + chunk.materialize == stored.1
                                     && chunk.materializeCount == |stored.1|)
  {
    hide ChannelReceiverSamplesChunk, Paged, StoredSamples, SaturatingAdd;
    var chunk := ChannelReceiverSamplesChunk(record, offset, limit);
    if chunk.ok && chunk.status == Finished {
      SampledIsStored(record, offset, limit);
      SamplesChunkExtends(record, offset, limit);
      WholeIsPaged(StoredSamples(record).0, offset + limit);
      WholeIsPaged(StoredSamples(record).1, offset + limit);
    }
  }

  /** Both lists arrive whole, without gap or repeat, though one offset pages the two and one of
      them may end long before the other. */
  method FetchReceiverSamples(cluster: Cluster, i: nat, key: Key)
    returns (r: Result<(InMemory<real>, InMemory<real>), FetchError>)
    requires cluster.Valid() && i < |cluster.nodes|
    modifies cluster
    ensures cluster.Valid() && cluster.Onward() && |cluster.nodes| == |old(cluster.nodes)|
    ensures || r == SamplesDownload(RecordAt(cluster.nodes[i], key))
            || (r == Err(CallLost) && cluster.lostCalls > old(cluster.lostCalls))
  {
    hide Cluster.Valid, SamplesDownload, StoredSamples, PagedUpto, RecordAt, ChannelReceiverSamplesChunk;
    hide SaturatingAdd, Advanced;
    AdvancedItself(cluster.nodes);
    NothingPaged(RecordAt(cluster.nodes[i], key));
    var offset: nat := 0;
    var delivery: seq<real>, materialize: seq<real> := [], [];
    while true
      invariant cluster.Valid() && cluster.Onward() && |cluster.nodes| == |old(cluster.nodes)|
      invariant PagedUpto(RecordAt(cluster.nodes[i], key), offset, delivery, materialize)
      decreases offset == 0, SamplesLeft(RecordAt(cluster.nodes[i], key), offset)
    {
      ghost var before := cluster.nodes;
      var answer := CallSamplesChunk(cluster, i, key, offset, RECEIVER_SAMPLE_CHUNK_SIZE);
      AdvancedFurther(old(cluster.nodes), before, cluster.nodes);
      PagedStays(before, cluster.nodes, i, key, offset, delivery, materialize);
      if answer.None? { return Err(CallLost); }
      var response := answer.value;
      ghost var record := RecordAt(cluster.nodes[i], key);
      SamplesChunkSettles(record, offset, RECEIVER_SAMPLE_CHUNK_SIZE);
      if !response.ok { return Err(Refused); }
      if response.status != Finished { return Err(NotReady); }
      PagedOn(record, offset, delivery, materialize, RECEIVER_SAMPLE_CHUNK_SIZE);
      delivery := delivery + response.delivery;
      materialize := materialize + response.materialize;
      if !response.hasMore {
        var deliveries: nat, materializes: nat := |delivery|, |materialize|;
        if deliveries != response.deliveryCount {
          return Err(WrongCount(deliveries, response.deliveryCount));
        }
        if materializes != response.materializeCount {
          return Err(WrongCount(materializes, response.materializeCount));
        }
        return Ok((delivery, materialize));
      }
      offset := SaturatingAdd(offset, RECEIVER_SAMPLE_CHUNK_SIZE);
    }
  }

  ghost function SamplesLeft(record: Option<RequestRecord>, offset: nat): int {
    |StoredSamples(record).0| + |StoredSamples(record).1| - offset
  }

  // ------------------------------------------------------------ wait and download

  datatype FinishError = Waiting(wait: WaitError) | Fetching(fetch: FetchError) | UnexpectedResult

  /** Why a client may end without the result of an accepted request: a call was lost, the request
      failed, or it was still running after the whole timeout. Nothing is wrong with a stored result. */
  ghost predicate FinishFailed(s: System, key: Key, error: FinishError, lost: bool, late: bool) {
    match error
    case Waiting(wait) => || (wait.Rpc? && lost) || (wait.TimedOut? && late)
                          || (wait.RequestFailed? && HasFailed(s, key, wait.message))
    case Fetching(fetch) => fetch == CallLost && lost && HasFinished(s, key)
    case UnexpectedResult => false
  }

  /** The result the node holds, in full. */
  ghost predicate HoldsWhole(s: System, key: Key, result: RequestResult) {
    key in s.node.requests && s.node.requests[key].status == Finished && s.node.requests[key].result == Some(result)
  }

  /** The worker of the request ended with that result. */
  ghost predicate WorkerReturned(s: System, key: Key, result: RequestResult) {
    key in s.workers && s.workers[key] == Returned(result)
  }

  lemma HeldIsReturned(s: System, key: Key, result: RequestResult)
    requires Inv(s)
    ensures HoldsWhole(s, key, result) <==> WorkerReturned(s, key, result)
  {
    if key in s.workers { assert KeyOk(s, key); }
  }

  lemma FailedIsGivenUp(s: System, key: Key, message: string)
    requires Inv(s)
    ensures HasFailed(s, key, message) <==> key in s.workers && s.workers[key] == GaveUp(message)
  {
    if key in s.workers { assert KeyOk(s, key); }
  }

  /** A receiver's result is of its kind, and what polling strips of it is what the download brings. */
  lemma StripAndDownload(s: System, key: Key, polled: RequestResult)
    requires Knows(s, key, RECEIVER_KIND) && HoldsResult(s, key, polled)
    ensures polled.ChannelReceiver? && HasFinished(s, key) && SamplesDownload(RecordAt(s, key)).Ok?
    ensures var samples := SamplesDownload(RecordAt(s, key)).value;
            HoldsWhole(s, key, ChannelReceiver(polled.summary, samples.0, samples.1))
  {
    assert KeyOk(s, key);
  }

  lemma ResultStays(before: seq<System>, after: seq<System>, i: nat, key: Key, result: RequestResult)
    requires Advanced(before, after) && i < |before| && HoldsResult(before[i], key, result)
    ensures HoldsResult(after[i], key, result)
  {
    assert KeepsRequests(before[i], after[i]);
  }

  /** finish_receiver_on_target: whatever the nodes do between the poll and the calls of the
      download, the client ends with the whole stored result of that receiver. */
  method FinishReceiver(cluster: Cluster, i: nat, runId: string, accepted: Accepted, timeout: nat)
    returns (r: Result<RequestResult, FinishError>)
    requires cluster.Valid() && i < |cluster.nodes| && Promised(cluster.nodes[i], runId, accepted)
    modifies cluster
    ensures |cluster.nodes| == |old(cluster.nodes)| && cluster.Valid() && cluster.Onward()
    ensures r.Ok? ==> accepted.ok && r.value.ChannelReceiver?
    ensures r.Ok? ==> HoldsWhole(cluster.nodes[i], KeyOf(runId, accepted), r.value)
    ensures !accepted.ok ==> r == Err(Waiting(Rejected(accepted.message)))
    ensures r.Ok? ==> WorkerReturned(cluster.nodes[i], KeyOf(runId, accepted), r.value)
    ensures accepted.ok && r.Err? ==> FinishFailed(cluster.nodes[i], KeyOf(runId, accepted), r.error,
                                                   cluster.lostCalls > old(cluster.lostCalls),
                                                   cluster.clock >= old(cluster.clock) + timeout)
    ensures accepted.ok && r.Err? && r.error.Waiting? && r.error.wait.TimedOut? ==>
              IsRunning(cluster.nodes[i], KeyOf(runId, accepted))
  {
    hide Advanced, HoldsResult, HoldsWhole, WorkerReturned, SamplesDownload, Inv, Knows;
    hide HasFailed, HasFinished, IsRunning;
    var polled := cluster.WaitForRequestResult(i, runId, accepted, RECEIVER_KIND, timeout);
    if polled.Err? {
      return Err(Waiting(polled.error));
    }
    var key := KeyOf(runId, accepted);
    ghost var waited := cluster.nodes;
    StillKnown(old(cluster.nodes), waited, i, key, RECEIVER_KIND);
    StripAndDownload(waited[i], key, polled.value);
    if !polled.value.ChannelReceiver? {
      return Err(UnexpectedResult);
    }
    var samples := FetchReceiverSamples(cluster, i, key);
    AdvancedFurther(old(cluster.nodes), waited, cluster.nodes);
    StillKnown(waited, cluster.nodes, i, key, RECEIVER_KIND);
    ResultStays(waited, cluster.nodes, i, key, polled.value);
    StripAndDownload(cluster.nodes[i], key, polled.value);
    if samples.Err? {
      return Err(Fetching(samples.error));
    }
    r := Ok(ChannelReceiver(polled.value.summary, samples.value.0, samples.value.1));
    HeldIsReturned(cluster.nodes[i], key, r.value);
  }

  /** put_blob_batch_on_target_chunked_refs after the submission: the client ends with the whole stored
      result of that put. */
  method FinishPut(cluster: Cluster, i: nat, runId: string, accepted: Accepted, timeout: nat)
    returns (r: Result<RequestResult, FinishError>)
    requires cluster.Valid() && i < |cluster.nodes|
    requires accepted.ok ==> accepted.reqId.Some? && Knows(cluster.nodes[i], KeyOf(runId, accepted), BLOB_PUT_KIND)
    modifies cluster
    ensures |cluster.nodes| == |old(cluster.nodes)| && cluster.Valid() && cluster.Onward()
    ensures r.Ok? ==> accepted.ok && r.value.BlobPut? && |r.value.refs| == r.value.count
    ensures r.Ok? ==> HoldsWhole(cluster.nodes[i], KeyOf(runId, accepted), r.value)
    ensures !accepted.ok ==> r == Err(Waiting(Rejected(accepted.message)))
    ensures r.Ok? ==> WorkerReturned(cluster.nodes[i], KeyOf(runId, accepted), r.value)
    ensures accepted.ok && r.Err? ==> FinishFailed(cluster.nodes[i], KeyOf(runId, accepted), r.error,
                                                   cluster.lostCalls > old(cluster.lostCalls),
                                                   cluster.clock >= old(cluster.clock) + timeout)
    ensures accepted.ok && r.Err? && r.error.Waiting? && r.error.wait.TimedOut? ==>
              IsRunning(cluster.nodes[i], KeyOf(runId, accepted))
  {
    hide Advanced, HoldsWhole, WorkerReturned, RefsDownload, Inv, Knows, HasFailed, HasFinished, IsRunning;
    var finished := cluster.WaitForRequestFinished(i, runId, accepted, BLOB_PUT_KIND, timeout);
    if finished.Err? {
      return Err(Waiting(finished.error));
    }
    var key := KeyOf(runId, accepted);
    ghost var waited := cluster.nodes;
    var fetched := FetchBlobPutResultChunks(cluster, i, key, BLOB_REF_FETCH_CHUNK_SIZE);
    AdvancedFurther(old(cluster.nodes), waited, cluster.nodes);
    StillKnown(old(cluster.nodes), cluster.nodes, i, key, BLOB_PUT_KIND);
    FinishedStays(waited, cluster.nodes, i, key);
    FinishedPutDownloads(cluster.nodes[i], key, BLOB_REF_FETCH_CHUNK_SIZE);
    r := if fetched.Ok? then Ok(fetched.value) else Err(Fetching(fetched.error));
    if r.Ok? { HeldIsReturned(cluster.nodes[i], key, r.value); }
  }

  lemma FinishedStays(before: seq<System>, after: seq<System>, i: nat, key: Key)
    requires Advanced(before, after) && i < |before| && HasFinished(before[i], key)
    ensures HasFinished(after[i], key)
  {
    assert KeepsRequests(before[i], after[i]);
  }

  /** The refs of a finished record come back exactly when it is a put's and its count is the number of
      its refs; then the whole result comes back. */
  lemma PutDownloadsIff(s: System, key: Key, chunkSize: nat)
    requires chunkSize > 0 && HasFinished(s, key)
    ensures var result := s.node.requests[key].result.value;
            var download := RefsDownload(RecordAt(s, key), chunkSize);
            && (download.Ok? <==> result.BlobPut? && |result.refs| == result.count)
            && (download.Ok? ==> HoldsWhole(s, key, download.value))
  {}

  /** Without a finished record the download fails with what the record says. */
  lemma DownloadFailsAs(s: System, key: Key, chunkSize: nat)
    requires Inv(s) && chunkSize > 0
    ensures var download := RefsDownload(RecordAt(s, key), chunkSize);
            && (download == Err(NotKnown) <==> key !in s.node.requests)
            && (download == Err(StillRunning) <==> IsRunning(s, key))
            && (download == Err(PutFailed) <==> key in s.node.requests && s.node.requests[key].status == Failed)
            && (download == Err(Refused) <==> HasFinished(s, key) && !s.node.requests[key].result.value.BlobPut?)
  {
    if key in s.node.requests { assert KeyOk(s, key); }
  }

  /** And what a put's worker stores always is so. */
  lemma FinishedPutDownloads(s: System, key: Key, chunkSize: nat)
    requires chunkSize > 0 && HasFinished(s, key) && Knows(s, key, BLOB_PUT_KIND)
    ensures RefsDownload(RecordAt(s, key), chunkSize).Ok?
    ensures var result := RefsDownload(RecordAt(s, key), chunkSize).value;
            result.BlobPut? && |result.refs| == result.count && HoldsWhole(s, key, result)
  {
    assert KeyOk(s, key);
    PutDownloadsIff(s, key, chunkSize);
  }
}
