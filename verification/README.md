# Verified model of the lambda-channel benchmark harness

This project models the parts of the benchmark harness whose correctness does not hang on the
measured stores: the channel receiver pipeline, the pacer and its report, the request registry and
the clients that poll it, staged transfer of get plans, the bounded parallel put, chunked downloads,
throughput sweeps, sharing out and interleaving of refs, payload generation, latency summaries and
the text and value encoders. `dafny verify dfyconfig.toml` checks all of it.

- **Receiver** (`ReceiverTally`, `ChannelReceiver`): one object whose methods are the loops and
  helpers of the source. Pop tasks, materialize tasks, the canceller and the clock take any number
  of steps between any two of its own, and every join takes any task that has ended.
- **Pacer** (`Pacer`, `PacedReport`, `Latency`, `Sorting`): a state machine in which each atomic
  operation, clock reading and channel operation is one step; then the report of the executions.
- **Requests** (`RequestIds`, `RequestRegistry`, `RequestLifecycle`, `ReadinessBarrier`): each
  critical section under the runtime lock is one step, with one worker per accepted request; clients
  poll nodes that go on moving between any two polls.
- **Staged transfer** (`StagedTransfer`): finish is two critical sections that other steps may
  separate. The reference is a log of calls and answers that never looks at the node.
- **Put, download, sweep, interleaving** (`ParallelPut`, `ChunkedDownload`, `Sweep`, `RoundRobin`):
  methods with the loops of the source, each proved equal to a specification whose properties are
  lemmas.
- **Encoders** (`PayloadFile`, `CsvText`, `CsvAppend`, `JsonText`, `NativeJson`): each with a reader
  or an inverse written from the standard concerned.
- The node state is one structure in the source; `RequestRegistry` and `StagedTransfer` each model
  the fields that their own operations touch.
- `Wrappers`, `Text` and `Numbers` hold shared datatypes, the notion of blank text and saturating
  64-bit addition.

Where a property holds only under a condition, the condition is stated as an if-and-only-if:
`UniqueInBatchIffSixteenBytes`, `IdsRepeatExactlyOnWrap`, `SweepsAgreeIff`, `RecordReadsBackIff`,
`AppendReadsBackIff`, `AppendIsCleanIff`, `PutDownloadsIff`,
`RoundTripIff`, `JsonRoundTripIff`.

## Model

| member | source | states |
|---|---|---|
| `ChannelReceiver.Receiver.ChannelReceiverOnNode` | `src/rpc/server/channel.rs:263-512` | for every interleaving and any number of main-loop rounds: it errs iff the request is bad or something broke; on every Ok return each spawned pop was joined once and what it brought counted as what it is, an empty poll, a transient error, an EOF or an element; the elements started are those popped, in the order in which their pops were joined; each was materialized once, and what that brought stands in the result, a delivery by its samples and bytes, a failure by its message among the first 64; cancelled and timed out exclude each other and each has its cause and message; without either, the reported EOF is the first one handled; it is left in the main loop after n rounds only with all but the last of its pops made before the deadline, so (n - 2) poll periods fit before it |
| `ChannelReceiver.Receiver.ChannelReceiverToDeadline` | `src/rpc/server/channel.rs:303-512` | with a deadline and a positive poll period the receiver returns, whatever the interleaving, with the same conservation and the same account of its end |
| `ChannelReceiver.Receiver.MainLoopRound` | `src/rpc/server/channel.rs:331-413` | keeps the whole invariant; never goes on with the EOF flag up, or with a cancel requested or the deadline past when it begins, and leaves only for one of these three, without spawning; going on means one pop spawned, not before the poll time, which it moves by one period |
| `ChannelReceiver.Receiver.DrainAll` | `src/rpc/server/channel.rs:415-462` | terminates, the weight 3 per pop + 2 per queued element + 1 per materialization falling in every round, and leaves no pop, no queued element and no materialization behind |
| `ChannelReceiver.Receiver.DrainedIsConserved` | `src/rpc/server/channel.rs:464-512` | the drained invariant implies that account of pops, elements, materializations, messages and the end for the result that is built |
| `ChannelReceiver.Receiver.Interleave` | `src/rpc/server/channel.rs:404-412` | any number of steps of pop tasks, materialize tasks, the canceller and the clock keep the invariant; flags and clock only rise |
| `ChannelReceiver.Receiver.AdvancePop` | `src/rpc/server/channel.rs:529-553` | a pop task that starts after EOF or a cancel is seen brings an empty poll; one that meets an EOF raises the shared flag in that step, so the flag is up exactly when an EOF has been handled or waits to be |
| `ChannelReceiver.Receiver.HandlePopResult` | `src/rpc/server/channel.rs:640-669` | counts, EOF mark and queue stay those of the handled outcomes, whose reading `TallyTellsPops` gives: an empty poll, a transient error or an EOF in its own count, an element queued last; only the first EOF sets the mark; a join error is passed on |
| `ChannelReceiver.Receiver.CollectPop` | `src/rpc/server/channel.rs:592-614` | waits for one pop and takes it out of the set; the work left falls |
| `ChannelReceiver.Receiver.DrainReadyPops` | `src/rpc/server/channel.rs:616-638` | takes ended pops until none is ready, in any order; never adds work |
| `ChannelReceiver.Receiver.HandleMaterializeResult` | `src/rpc/server/channel.rs:729-756` | counts, bytes (saturating), both sample lists and the first 64 failure messages follow the handled outcomes |
| `ChannelReceiver.Receiver.JoinMaterialize` | `src/rpc/server/channel.rs:708-756` | the element of the joined task becomes handled, exactly once |
| `ChannelReceiver.Receiver.CollectMaterialized` | `src/rpc/server/channel.rs:687-706` | waits for one materialization and handles it; the work left falls |
| `ChannelReceiver.Receiver.DrainReadyMaterialized` | `src/rpc/server/channel.rs:708-727` | takes ended materializations until none is ready, in any order; never adds work |
| `ChannelReceiver.Receiver.SpawnPendingMaterializeTasks` | `src/rpc/server/channel.rs:671-685` | elements leave the queue in order into at most `materialize_concurrency` tasks, and afterwards the queue is empty or the limit is reached |
| `ChannelReceiver.Receiver.AwaitPopRoom` | `src/rpc/server/channel.rs:369-394` | terminates with fewer than `poll_concurrency` pops in flight |
| `ChannelReceiver.Receiver.StopEarly` | `src/rpc/server/channel.rs:355-368` | records the early end, its cause and its message in order among the failures; possible once only |
| `ChannelReceiver.FinishOne` | `src/rpc/server/channel.rs:729-756` | moving a task from the set to the joined list keeps each task in exactly one place and handles what it brought |
| `ChannelReceiver.LogAppend` | `src/rpc/server/channel.rs:355-368` | the failure log is that of the handled outcomes with the early-end message at its place |
| `ChannelReceiver.RetainedTells` | `src/rpc/server/channel.rs:346-368` | the kept messages, place by place: those of the failures in order with that of an early end where it came, cut at 64 |
| `ReceiverTally.PopsAreConserved` | `src/rpc/server/channel.rs:640-669` | every pop is an empty poll, a transient error, an EOF or an element |
| `ReceiverTally.TallyTellsPops` | `src/rpc/server/channel.rs:640-669` | for every list of outcomes: the two counts are the numbers of empty polls and of transient errors, and the elements are those popped, each after exactly the elements before it |
| `ReceiverTally.EofIsTheFirst` | `src/rpc/server/channel.rs:656-662` | the recorded EOF is that of the first EOF handled, and there is one iff any was handled |
| `ReceiverTally.MaterializedAreConserved` | `src/rpc/server/channel.rs:729-756` | every materialization is a delivery or a failure, and the bytes are the true total cut at 2^64 - 1 |
| `ReceiverTally.TallyTellsDeliveries` | `src/rpc/server/channel.rs:738-747` | each delivery leaves its own pair of samples, at the same place of both lists, after exactly those of the deliveries before it |
| `ReceiverTally.TallyTellsFailures` | `src/rpc/server/channel.rs:748-752` | each failure leaves its own message, in order |
| `Pacer.StepKeepsInv` | `src/driver/paced.rs:122-172` | every atomic step of pacer, tasks, collector and clock keeps the invariant although load and decrement are separate steps |
| `Pacer.SlotsAreConserved` | `src/driver/paced.rs:110-167` | in every reachable state free slots + held slots = `max_in_flight`; neither the decrement nor the increment wraps; at most `max_in_flight` tasks hold a slot; a task that gave its slot back finds room in the result channel |
| `Pacer.RunCounts` | `src/driver/paced.rs:129-184` | in every run each step that is neither a tick nor a spin uses up one of the steps still to go |
| `Pacer.ProgressIsBounded` | `src/driver/paced.rs:129-184` | so every run has at most nine such steps per index: none makes progress for ever |
| `Pacer.NextEvents` | `src/driver/paced.rs:312-319` | until all results are collected some thread can take a step that counts, at most after a wait for the scheduled time; failed and panicked tasks return their slot too |
| `Pacer.CanFinish` | `src/driver/paced.rs:129-195` | from every reachable state the run can be completed: no deadlock |
| `Pacer.FinishedIsComplete` | `src/driver/paced.rs:179-195` | a finished run has exactly one execution per index, scheduled = start + index * period <= started <= completed; each says what happened to its task in that run: its readings are the clock at its start and end events, its result the one its end event gives, an error if it panicked; all slots are free and the pacer gone |
| `Pacer.ExecutionsAreTold` | `src/driver/paced.rs:144-167` | the same of every execution ever sent, at any moment of any run, told from the events alone |
| `Pacer.ClosedChannelMeansComplete` | `src/driver/paced.rs:179-195` | a closed and empty channel means all results are there, so the short-collection error cannot arise |
| `PacedReport.BuildReport` | `src/driver/paced.rs:219-288` | computes the report of the executions in index order, which the next lemmas read off the executions |
| `PacedReport.ReportForgetsArrivalOrder` | `src/driver/paced.rs:179-288` | any permutation of the same executions yields the same report |
| `PacedReport.OrderedIsComplete` | `src/driver/paced.rs:225` | sorted by index, the execution of task k is at position k |
| `PacedReport.ReportKeepsFirstSamples` | `src/driver/paced.rs:233-268` | counts are exact and the samples kept are those of the first 1024 indices, each with the outcome of its own task and the times between its readings |
| `PacedReport.ReportKeepsFirstFailures` | `src/driver/paced.rs:252-260` | the failure of a task is kept, with its message, iff fewer than 256 tasks with a smaller index failed, and then at that position |
| `PacedReport.FailuresAreCounted` | `src/driver/paced.rs:252-260` | failures are counted exactly and kept up to 256 |
| `PacedReport.ReportSummarizesReadings` | `src/driver/paced.rs:239-287` | the three summaries are those of the times from schedule to end, from start to end and from schedule to start, in milliseconds |
| `PacedReport.WallTimeEndsWithTheLast` | `src/driver/paced.rs:197-202` | the wall time runs from the start of the pacer to the latest completion |
| `PacedReport.OfferedIsLagPlusService` | `src/driver/paced.rs:239-246` | per task, offered latency = schedule lag + service latency, neither negative |
| `PacedReport.ReportAddsUp` | `src/driver/paced.rs:239-287` | over a run the mean offered latency is mean lag + mean service time, all three summaries count every task, and rates times wall time give back the counts, or are 0 without wall time |
| `PacedReport.LastCompletionIsMaximum` | `src/driver/paced.rs:197-201` | the wall time ends at the latest completion |
| `Latency.FromSamples` | `src/driver/latency.rs:18-36` | computes the summary of the sorted copy, with the defaults for no samples |
| `Latency.PercentileIsNearestRank` | `src/driver/latency.rs:39-44` | for 0 < p <= 1 the percentile is a sample, at least ceil(p * n) samples are at most it and fewer than that are below it |
| `Latency.PercentilesAreNearestRanks` | `src/driver/latency.rs:30-33` | so each of p50, p90, p95 and p99 is the nearest-rank value of its own percentage |
| `Latency.PercentilesAreOrdered` | `src/driver/latency.rs:26-35` | min <= p50 <= p90 <= p95 <= p99 <= max for every non-empty list |
| `Latency.MeanIsBetweenExtremes` | `src/driver/latency.rs:27-29` | min <= mean <= max, and the mean is that of the samples as given |
| `Latency.ExtremesBound` | `src/driver/latency.rs:28-35` | min and max are samples and bound every sample |
| `Latency.SummaryForgetsOrder` | `src/driver/latency.rs:18-36` | the summary depends only on the multiset of samples |
| `Sorting.SortedIsUnique` | `src/driver/paced.rs:225` | two sorted arrangements of the same elements whose keys tell them apart are equal |
| `PayloadFile.MixIsBijective` | `src/payload_file.rs:109-115` | the 64-bit mixer has a two-sided inverse |
| `PayloadFile.MixerAnswers` | `src/payload_file.rs:109-115` | it gives the published first outputs of splitmix64 for the seed 0 |
| `PayloadFile.Splitmix64` | `src/payload_file.rs:109-115` | the word updates compute the mixer |
| `PayloadFile.HashRunId` | `src/payload_file.rs:100-107` | the loop computes the FNV-1a fold |
| `PayloadFile.HashAnswers` | `src/payload_file.rs:100-107` | the fold gives the published FNV-1a hashes of nothing and of one letter |
| `PayloadFile.OneByteChangesHash` | `src/payload_file.rs:100-107` | run ids of one length that differ in a single byte have different hashes |
| `PayloadFile.SeededIsBijectiveInIndex` | `src/payload_file.rs:74-77` | for fixed run id, seed and size the seed word determines the index and every word is reached |
| `PayloadFile.SeedTells` | `src/payload_file.rs:74-77` | hash, seed, index and size each alone make a difference to the seed word |
| `PayloadFile.SpecsTell` | `src/payload_file.rs:72-85` | so two specs that differ in one byte of the run id, the seed, the index or the size modulo 2^64 alone have different seed words |
| `PayloadFile.UniqueHeaderWithoutTimestamp` | `src/payload_file.rs:72-85` | fills the header in place with three successive mixed words after eight zero bytes |
| `PayloadFile.HeaderIs` | `src/payload_file.rs:78-85` | the header is eight zero bytes and the mixer applied once, twice and three times to the seed word |
| `PayloadFile.LeBytesShift` | `src/payload_file.rs:81-83` | a word is written least significant byte first |
| `PayloadFile.CreateTimestampedPayloadFile` | `src/payload_file.rs:18-70` | the file holds timestamp, header remainder and zeros, each cut at the size; size zero is an error |
| `PayloadFile.PayloadBytes` | `src/payload_file.rs:36-55` | byte by byte the file holds the timestamp, the header from its ninth byte on, and zeros |
| `PayloadFile.PayloadWord` | `src/payload_file.rs:36-55` | bytes 8 to 16 of a payload, cut at the size, are the first mixed word in little-endian order |
| `PayloadFile.DistinctIndicesDistinctPayloads` | `src/payload_file.rs:72-85` | within a batch, payloads of at least 16 bytes and different indices differ in bytes 8 to 16, whatever the timestamps |
| `PayloadFile.UniqueInBatchBySize` | `src/payload_file.rs:36-85` | a batch with indices 0..count: from 16 bytes on its payloads always differ outside the timestamp; up to 8 bytes they do iff count <= 1, as indices 0 and 1 agree; from 8 to 15 bytes they can only if count <= 256^(size - 8) |
| `PayloadFile.StringsMustRepeat` | `src/payload_file.rs:36-55` | any list of more than 256^n payload remainders of n bytes contains one twice |
| `PayloadFile.UniqueInBatchIffSixteenBytes` | `src/payload_file.rs:36-85` | no batch of any count has two payloads alike outside the timestamp iff the size is at least 16 |
| `RequestIds.DecimalReadsBack` | `src/rpc/server/state.rs:571` | the decimal text of a number reads back as it |
| `RequestIds.IdsAreInjective` | `src/rpc/server/state.rs:571` | two formatted ids are equal iff kind and number are, whatever dashes and digits the kinds contain |
| `RequestIds.IdIsSpelled` | `src/rpc/server/state.rs:571` | an id is the kind, a dash and the number in at least six digits, more only if needed |
| `RequestRegistry.NodeRuntime.CreateRequestOnNode` | `src/rpc/server/state.rs:554-602` | the next number, a new Running record, the phase and the generation; a blank run id changes nothing |
| `RequestRegistry.NodeRuntime.MarkRequestReadyOnNode` | `src/rpc/server/state.rs:604-628` | sets only the ready flag of that record; an unknown key changes nothing |
| `RequestRegistry.NodeRuntime.CancelRequestOnNode` | `src/rpc/server/state.rs:643-668` | sets only the cancel flag of that record; an unknown key changes nothing |
| `RequestRegistry.NodeRuntime.FinishRequestOnNode` | `src/rpc/server/state.rs:670-697` | Finished with exactly the result; an unknown key changes nothing |
| `RequestRegistry.NodeRuntime.FailRequestOnNode` | `src/rpc/server/state.rs:699-726` | Failed with exactly the error; an unknown key changes nothing |
| `RequestRegistry.NodeRuntime.PollRequestOnNode` | `src/rpc/server/state.rs:728-767` | answers from the record without changing the node, samples stripped |
| `RequestRegistry.PollTellsTheRecord` | `src/rpc/server/state.rs:728-779` | a poll tells status, readiness and error of the record, and with the result asked for, all of it but the samples of a receiver |
| `RequestRegistry.BlankIsRefused` | `src/rpc/server/state.rs:554-602` | a blank run id is refused and changes nothing; any other adds one key |
| `RequestLifecycle.NewIdIsFresh` | `src/rpc/server/state.rs:570-585` | over 2^64 accepted requests a new id is none of the old ones, so insertion never overwrites |
| `RequestLifecycle.IdsRepeatExactlyOnWrap` | `src/rpc/server/state.rs:570-571` | two ids of one kind coincide iff the 64-bit counter went round in between |
| `RequestLifecycle.StepKeepsInv` | `src/rpc/server/state.rs:554-726` | every critical section keeps every record consistent with its key, its status, its worker and its number |
| `RequestLifecycle.EveryRunIsConsistent` | `src/rpc/server/state.rs:554-767` | over every run: one record per accepted request, as numbers are not reused; Running has neither result nor error, Finished exactly a result, which fits its kind, Failed exactly an error; a finished receiver request is ready |
| `RequestLifecycle.RecordTellsItsRun` | `src/rpc/server/state.rs:604-726` | over every run a record is ready, cancelled, finished with a result or failed with an error iff the run holds that event for its key, with that very result or error |
| `RequestLifecycle.RequestTellsItsLife` | `src/rpc/server/state.rs:554-726` | a request submitted after any run gets the id of its kind and number, and its record says exactly what the events after did to it |
| `RequestLifecycle.StepIsShown` | `src/rpc/server/state.rs:604-726` | a step of a known key raises the generation by one and is shown in the phase of the experiment iff the request is of its run |
| `RequestLifecycle.KeyDependsOnItsSteps` | `src/rpc/server/state.rs:604-726` | from its creation on, record and worker of a key are what the steps naming it do on their own |
| `RequestLifecycle.PollDependsOnItsSteps` | `src/rpc/server/state.rs:728-767` | so is every poll answer |
| `RequestLifecycle.TerminalIsPermanent` | `src/rpc/server/state.rs:670-726` | with one worker per request a terminal record changes at most in its cancel flag, and polls keep their answer |
| `RequestLifecycle.ReadyIsPermanent` | `src/rpc/server/state.rs:604-628` | once ready, always ready |
| `ReadinessBarrier.ReadinessPoll` | `src/rpc/client.rs:20-38` | for an accepted receiver request, a poll without result that is not ready is pending or failed, never "finished without result" |
| `ReadinessBarrier.ResultPoll` | `src/rpc/client.rs:20-38` | a poll with result answers pending, the request failure, or the stored result without its samples |
| `ReadinessBarrier.Cluster.WaitReceiverReady` | `src/experiments/channel/control.rs:167-208` | ends; succeeds only with the request ready; for an accepted request fails only by a lost call, by the stored failure of that request, or after the whole timeout with the request running and still not ready |
| `ReadinessBarrier.Cluster.WaitForRequestResult` | `src/experiments/channel/control.rs:381-438` | ends; a result is the stored one of that request; fails only by a lost call, its stored failure, or after the whole timeout with the request still running |
| `ReadinessBarrier.Cluster.WaitForRequestFinished` | `src/experiments/blob/control.rs:619-685` | ends; succeeds only with that request finished and its result stored; fails only by a lost call, its stored failure, or after the whole timeout with the request still running |
| `ReadinessBarrier.Cluster.StartReceivers` | `src/experiments/channel/single_sender_multi_receiver.rs:236-256` | the calls reach the nodes in any order; every receiver gets a request made by this call, the answers in the order of the targets |
| `ReadinessBarrier.Cluster.StartReceiversThenSend` | `src/experiments/channel/single_sender_multi_receiver.rs:236-285` | whenever the send is issued, each target has a receiver request made by this call and every one of them is ready at that moment; when it is not, a call was lost, the run id is blank, a counter is spent, or a request made by this call failed or is still not ready after the whole timeout |
| `StagedTransfer.NodeRuntime.PrepareBlobGetBegin` | `src/rpc/server/blob.rs:192-224` | an accepted begin opens an empty transfer for the plan; a refused one changes nothing |
| `StagedTransfer.NodeRuntime.PrepareBlobGetAppend` | `src/rpc/server/blob.rs:226-257` | an accepted append extends the transfer by its chunk; a refused one changes nothing |
| `StagedTransfer.NodeRuntime.PrepareBlobGetFinishTake` | `src/rpc/server/blob.rs:259-289` | removes the transfer; hands it on only if complete |
| `StagedTransfer.NodeRuntime.PrepareBlobGetFinishInsert` | `src/rpc/server/blob.rs:302-316` | stores the finished plan under its name |
| `StagedTransfer.NodeRuntime.StartPreparedBlobGet` | `src/rpc/server/blob.rs:671-685` | hands out the plan and removes it |
| `StagedTransfer.StagingFollowsTheLog` | `src/rpc/server/blob.rs:192-289` | after every step the staged transfer of every plan is what the log of calls and answers says: the chunks accepted since its last begin |
| `StagedTransfer.EveryRunIsConsistent` | `src/rpc/server/blob.rs:192-316` | over all interleavings staging, finishes in progress and plans agree with the log |
| `StagedTransfer.StartedPlanIsExact` | `src/rpc/server/blob.rs:671-685` | a started plan is the concatenation of exactly the chunks accepted since the last begin before its finish, of the declared length, rate and bound |
| `StagedTransfer.FinishedPlanStartsOnce` | `src/rpc/server/blob.rs:671-685` | no finish is started twice in any run |
| `StagedTransfer.AppendIsAcceptedIff` | `src/rpc/server/blob.rs:226-257` | an append is accepted iff the run is active, the chunk is not empty, a transfer is open, the index is the next one and the refs fit |
| `StagedTransfer.RejectedAppendChangesNothing` | `src/rpc/server/blob.rs:226-257` | a refused append leaves node and finishes as they were |
| `StagedTransfer.BeginIsAcceptedIff` | `src/rpc/server/blob.rs:192-224` | a begin is accepted iff the run is active and name, length, rate and bound are proper; then the log has an empty transfer open, else nothing changes |
| `StagedTransfer.StartIsAcceptedIff` | `src/rpc/server/blob.rs:671-685` | a start is accepted iff the run is active and the plan finished; the plan is then gone and every other stays |
| `StagedTransfer.InsertIsAcceptedIff` | `src/rpc/server/blob.rs:302-316` | the last section stores its plan iff its run is still active |
| `StagedTransfer.RefusalsAreTrue` | `src/rpc/server/blob.rs:192-289` | what a refusal says is so, of the call, the run and what the log left open |
| `StagedTransfer.AcceptedIsShown` | `src/rpc/server/blob.rs:192-316` | an accepted begin, append, last section or start raises the generation and shows its phase |
| `StagedTransfer.FinishIsAcceptedIff` | `src/rpc/server/blob.rs:259-289` | on the active run a finish is accepted iff there is a store and the open transfer is complete; with a store the transfer is gone either way |
| `StagedTransfer.TakeTakesOnlyTheStaging` | `src/rpc/server/blob.rs:259-289` | the first section of a finish changes nothing but the staging of its own plan, and that only if the transfer was found |
| `StagedTransfer.OthersDoNotInterfere` | `src/rpc/server/blob.rs:192-316` | steps of other plans touch neither the staging nor the finished plan of this one |
| `StagedTransfer.ChunksRebuild` | `src/experiments/blob/single_getter.rs:238-251` | the 1024-ref chunks of any list flatten to the list |
| `StagedTransfer.ClientProgress` | `src/experiments/blob/single_getter.rs:224-251` | while a client sends begin and its chunks, whatever else happens on the run, all its calls are accepted and the node holds exactly the chunks sent |
| `StagedTransfer.PlanWaits` | `src/rpc/server/blob.rs:302-316` | a finished plan survives every run in which the experiment stays and no one starts it or finishes another transfer of its name |
| `StagedTransfer.ClientTransferIsExact` | `src/experiments/blob/single_getter.rs:223-263` | the client's begin and chunks, the two sections of its finish and its start, each stretch between them filled with anything else on the same run, are accepted and start exactly its list, unless someone else starts or replaces that very plan first |
| `ParallelPut.PutGeneratedFilesConcurrent` | `src/rpc/server/blob.rs:437-505` | for every completion order and bound >= 1: it succeeds iff the sequential put does, with the same refs and paths, and otherwise errs with the error of some task, never for a missing slot; its spawns and joins are a run of the state machine, with at most `max_in_flight` in flight at every moment; it ends |
| `ParallelPut.InFlightIsBounded` | `src/rpc/server/blob.rs:450-490` | at every moment of every run, spawns minus joins lie between 0 and `max_in_flight` |
| `ParallelPut.JoinsOnlyWhenFull` | `src/rpc/server/blob.rs:450-490` | a task is joined only with `max_in_flight` in flight or nothing left to spawn |
| `ParallelPut.RunGoesOn` | `src/rpc/server/blob.rs:449-490` | no run is stuck before it is drained or has given up |
| `ParallelPut.RunIsShort` | `src/rpc/server/blob.rs:449-490` | every run has at most two steps per index |
| `ParallelPut.DrainedIsSequential` | `src/rpc/server/blob.rs:491-504` | a drained run has filled every slot, with exactly the refs and paths of the sequential put |
| `ParallelPut.SequentialPutIsAMap` | `src/rpc/server/blob.rs:491-504` | the sequential put succeeds iff every task does, and lists each ref and path at its index |
| `ParallelPut.Collect` | `src/rpc/server/blob.rs:491-504` | succeeds iff every slot is filled, with the values in index order; else it names the first empty slot |
| `ParallelPut.StepKeepsInv` | `src/rpc/server/blob.rs:449-490` | every spawn and every join keeps each ended index at its own slots and the tasks within the bound |
| `ParallelPut.PathsAreDistinct` | `src/rpc/server/blob.rs:454` | no two tasks of a batch write the same file |
| `ParallelPut.PathIsInDirectory` | `src/rpc/server/blob.rs:454` | every file lies in the directory itself, named by its index |
| `ParallelPut.PutFileWithRetry` | `src/rpc/server/blob.rs:507-528` | the first of at most five attempts that succeeds counts, else the last error |
| `Sweep.RunAdaptive` | `src/experiments/blob/put/mod.rs:53-70` | the adaptive loop computes the adaptive sweep (the loop of src/experiments/metadata/mod.rs is the same) |
| `Sweep.RunList` | `src/experiments/blob/multi_getter.rs:53-80` | the list loop computes the list sweep |
| `Sweep.TargetRates` | `src/experiments/blob/multi_getter.rs:367-391` | explicit points, else the offered rate, else the multiples of the start within the maximum and the point count; none is an error |
| `Sweep.DecisionIff` | `src/driver/sweep.rs:74-107` | when each reason is given for the outcome of a point and when the sweep goes on, without division: failures first if asked for, then saturation, then the point count, then the maximum |
| `Sweep.DriversAgreeFrom` | `src/experiments/blob/multi_getter.rs:53-80` | from any point on, the adaptive and the list driver visit the same rates and stop alike |
| `Sweep.SweepsAgreeIff` | `src/driver/sweep.rs:74-107` | for every outcome function that echoes the target, with no explicit points and no offered rate, both sweeps give the same rates and reason iff start <= maximum, and then the list never runs out without a stop |
| `Sweep.StartAboveMaximum` | `src/experiments/blob/multi_getter.rs:367-391` | start above the maximum: the list sweep errs, the adaptive one runs exactly one point |
| `Sweep.SweepIsExplained` | `src/experiments/blob/put/mod.rs:53-70` | the rates visited are the start times successive powers, at most `max_points`, each after the first within the maximum; each point but the last had no failures to stop for and achieved its fraction; the last one accounts for the reason by its own numbers; an error is that of the next point |
| `Sweep.ListIsExplained` | `src/experiments/blob/multi_getter.rs:53-80` | the same of a list sweep, which runs the rates in order; a list that runs out counts as MaxPoints |
| `Sweep.ListedRatesAre` | `src/experiments/blob/multi_getter.rs:367-391` | explicit points as they are, else the offered rate, else as many multiples of the start as point count and maximum allow, and an error iff there is none |
| `Sweep.ValidIff` | `src/driver/sweep.rs:29-59` | when a policy is valid |
| `RoundRobin.SharesAreEven` | `src/experiments/blob/single_getter.rs:452-463` | the shares sum to the total, keep the putters in order and differ by at most one, larger first |
| `RoundRobin.RoundRobinRefs` | `src/experiments/blob/single_getter.rs:465-477` | the two loops compute the interleaving |
| `RoundRobin.InterleavedPlaces` | `src/experiments/blob/single_getter.rs:465-477` | for ragged lists the interleaving takes every place exactly once, round by round, each putter in its own order |
| `RoundRobin.InterleavedFollowsPlaces` | `src/experiments/blob/single_getter.rs:465-477` | each interleaved ref is the item at its place |
| `RoundRobin.InterleavedLength` | `src/experiments/blob/single_getter.rs:215-221` | the interleaved list is as long as the lists together |
| `RoundRobin.RoundRobinClosedForm` | `src/experiments/blob/single_getter.rs:198-221` | over the putters of an even distribution that got anything, ref k is putter (k mod m)'s item (k div m), and there are exactly `total_refs`: the length check cannot fail |
| `ChunkedDownload.FetchBlobPutResultChunks` | `src/experiments/blob/control.rs:687-764` | with the nodes moving before every call, for any list length and chunk size: it ends, and unless a call it made is lost it comes to exactly what the node has stored, or the error the record calls for |
| `ChunkedDownload.RefsChunkExtends` | `src/rpc/server/state.rs:824-842` | the next chunk continues exactly where the download stands, and is not empty while more is to come |
| `ChunkedDownload.FetchReceiverSamples` | `src/experiments/channel/control.rs:274-335` | with the nodes moving before every call: two lists of any lengths paged by one shared offset arrive whole, without gap or repeat, unless a call it made is lost; the loop ends |
| `ChunkedDownload.PageExtends` | `src/rpc/server/state.rs:920-955` | a page continues a list at the shared offset, also when that lies beyond its end |
| `ChunkedDownload.NothingToPage` | `src/rpc/server/state.rs:781-955` | a limit of zero is refused by both calls, and without a stored result they answer the status and nothing else |
| `ChunkedDownload.StripAndDownload` | `src/experiments/channel/control.rs:210-244` | the stored result of a finished receiver is of its kind, and what polling strips from it is what the download brings |
| `ChunkedDownload.FinishReceiver` | `src/experiments/channel/control.rs:210-244` | whatever the nodes do between poll and download, the client ends with the very result that the worker of that receiver ended with; it fails only for a lost call, its stored failure, or the whole timeout with the request still running |
| `ChunkedDownload.FinishPut` | `src/experiments/blob/control.rs:295-315` | whatever the nodes do between poll and download, the client ends with the very result that the worker of that put ended with, as many refs as counted; it fails only for a lost call (in the download: once the put is finished), its stored failure, or the whole timeout with the request still running |
| `ChunkedDownload.PutDownloadsIff` | `src/experiments/blob/control.rs:752-764` | any finished record downloads as stored iff it is a put's and its count is the number of its refs |
| `ChunkedDownload.FinishedPutDownloads` | `src/rpc/server/blob.rs:79-115` | what the worker of a put stores always meets that condition, so a finished put always downloads whole |
| `ChunkedDownload.DownloadFailsAs` | `src/experiments/blob/control.rs:700-735` | without a finished put the download fails with what the record says |
| `ChunkedDownload.HeldIsReturned` | `src/rpc/server/state.rs:670-697` | a node holds a result iff the worker of the request ended with it |
| `CsvText.WriteCsvRecord` | `src/output.rs:496-516` | the loop appends exactly the escaped fields, commas and line end |
| `CsvText.RecordsReadBack` | `src/output.rs:496-524` | a reader by section 2 of RFC 4180 (LF accepted) recovers every list of non-empty records |
| `CsvText.RecordReadsBackIff` | `src/output.rs:496-524` | one record reads back iff it has a field; no field and one empty field are written alike |
| `CsvText.RecordAddsOne` | `src/output.rs:496-516` | written anywhere outside quotes, a record completes exactly one record or breaks the text |
| `CsvText.AppendReadsBackIff` | `src/output.rs:496-516` | records appended to a readable text come out after the old ones iff the text is empty or ends with a line feed |
| `CsvText.RecordRunsOn` | `src/output.rs:496-524` | a record written after an open unquoted field joins its first field to that one, or breaks the text if it needs quotes |
| `CsvAppend.CsvFile.AppendExperimentCsv` | `src/output.rs:203-235` | the new file content, header included when the file was absent or empty; an error or no rows leaves the file alone |
| `CsvAppend.CheckedHeaderIsFirstRecord` | `src/output.rs:421-448` | in a readable file that the raw header check accepts, the first record is the schema up to the reported width |
| `CsvAppend.AppendExtendsTable` | `src/output.rs:203-235` | an append to a rectangular file keeps it rectangular and adds each row cut to its width |
| `CsvAppend.SeriesExtendsTable` | `src/output.rs:203-235` | so does any series of appends |
| `CsvAppend.SeriesMakesTable` | `src/output.rs:203-235` | a series that starts with no file or an empty one leaves the schema followed by every row |
| `CsvAppend.AppendIsCleanIff` | `src/output.rs:203-235` | for a readable file with an accepted header the new rows follow the old records iff the file ends with a line feed |
| `CsvAppend.UnendedFileRunsOn` | `src/output.rs:203-235` | for the header cut to any width and left without its line feed, and any full rows: the append is accepted, the first row runs into the header as one record of 2 * width - 1 fields, and nothing can be read if its first cell needs quotes |
| `JsonText.JsonEscape` | `src/output.rs:73-87` | the loop computes the escaped text |
| `JsonText.CharReadsBack` | `src/output.rs:75-84` | each escaped character decodes to itself and leaves what follows |
| `JsonText.EscapeIsShort` | `src/output.rs:75-84` | escaped text holds no control character; the five special characters take two letters, other controls six, the rest one |
| `JsonText.EscapedReadsBack` | `src/output.rs:73-87` | a decoder by section 7 of RFC 8259 recovers every string, wherever in a document it stands |
| `JsonText.EscapingIsInjective` | `src/output.rs:73-87` | no two strings escape alike |
| `NativeJson.RoundTripCleans` | `src/rpc/server/blob.rs:839-899` | native to JSON to native changes, on any tree, nothing but non-finite floats, which become Null |
| `NativeJson.RoundTripIff` | `src/rpc/server/blob.rs:847-899` | the round trip is the identity iff every float is finite |
| `NativeJson.RefRoundTripIff` | `src/rpc/server/blob.rs:736-761` | the same for the maps blob refs travel as |
| `NativeJson.ToJsonMirrors` | `src/rpc/server/blob.rs:839-861` | place by place the JSON says what the value is: same texts, same integers, items in order, same keys |
| `NativeJson.OnlyObjectsAreRefs` | `src/rpc/server/blob.rs:863-871` | a ref is read from a JSON object and from nothing else |
| `NativeJson.JsonRoundTripIff` | `src/rpc/server/blob.rs:863-899` | JSON to native to JSON is the identity iff no integer exceeds 64 signed bits |
| `NativeJson.LargeIntegerIsRounded` | `src/rpc/server/blob.rs:879-884` | a larger integer becomes a finite double within half a step, the even one of two equally near |

## Left out

- Stores, senders and receivers of the `lambda_channel` library: results of pop, put, get and mark are arbitrary inputs. The library is not part of this model.
- RPC transport, tokio scheduling, file I/O and AWS clients: steps that may fail. A failed write in the middle of a CSV append or a payload is not modelled.
- Memory orderings and thread pinning: atomic operations interleave one at a time. Wall clocks are one natural-number clock that never goes back.
- Rounding of floating point: rates, ratios, percentiles and means are reals, so non-finite rates appear only where the source tests for them in a staged transfer; NaN samples and signed zeros are not modelled in summaries. `NativeJson` alone works on the 64 bits of a double.
- Tasks are taken to end: a join waits for some task that has ended, and a task whose future never ends would hold it up for ever, as in the source.
- ChannelReceiver.Receiver.ChannelReceiverOnNode: without a deadline the main loop may go on for ever, so it is followed for any given number of rounds; with one and a positive poll period it ends. A poll rate beyond about 2 * 10^9 per second rounds the period to zero, and then only conservation on return is claimed. Elapsed times, artifacts, metrics and the output directory of the result are left out; a poll period is a given natural number rather than the capped reciprocal of the rate.
- RequestLifecycle.NewIdIsFresh: freshness, and with it every claim over runs, is for nodes with at most 2^64 accepted requests; the counter is modelled as wrapping.
- RequestLifecycle.StepKeepsInv: `ReplaceCurrent` stands for begin and reset of an experiment; that only a forced call displaces another run is not claimed, since begin gives up the lock between taking the old run and installing the new one.
- StagedTransfer.ClientTransferIsExact: covers runs in which the experiment is not replaced meanwhile and no one else starts or finishes a plan of the same name in between; parsing of refs and creation of the output directory either succeed or abandon the finish, and parsed refs are taken to stand for the JSON refs one for one.
- PayloadFile.UniqueInBatchIffSixteenBytes: claimed within one batch only; batches on different nodes share run id, seed and indices.
- CsvAppend.AppendExtendsTable: the 111 column names are not written out; the schema is any non-empty list of names without separators, quotes or line breaks, and a full row has as many cells. Building the cells of a row from a report is left out. Text is a sequence of characters; its UTF-8 bytes are not modelled.
- Sweep.SweepsAgreeIff: says nothing of explicit points or an offered rate, for which the list sweep is meant to differ.
- Library sorting is modelled as a stable insertion sort, `str::trim` as a test for blank text, and ordered maps as maps without order.
- Config validation, command line and address parsing, name sanitizers, resource summaries, stub workloads, the send side of the channel experiment, and all Python under `cloudlab/`: easy members only.
