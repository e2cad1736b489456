# Snowglobe: verified model of the request, result-stream and viewer core

Snowglobe lets an analyst's agent submit a governed Snowflake query while the result goes only to a
local viewer. This project models the part of it that has to be right for every interleaving, every
byte boundary and every failure, and proves that it is:

- **The request broker** (`BrokerModel`, `Broker`, `BrokerProofs`, `BrokerRuns`, `BrokerTheorems`,
  `BrokerTouch`, `BrokerAvailability`, `BrokerLifetime`, `BrokerAnswers`, `BrokerClockFailure`). `Broker` holds the class
  with its record objects, changed in place; every method is proved to be one function of the record table,
  `BrokerModel.Apply`, which also says which driver cancellations are issued once the lock is released. All
  later results are about runs of that function, with one clock reading per live record, as lazy expiry makes
  them.
- **Executor, worker threads and driver** (`Execution`, `QueryAdmission`, `Runtime`, `RuntimeInvariant`,
  `RuntimeTheorems`, `RuntimeCancellation`, `RuntimeProgress`, `RuntimeWitness`, `RuntimeRuns`, `ExecutorSteps`,
  `Executor`). `Runtime` is the interleaved step system: event-loop stretches, broker operations, driver calls of worker threads and
  deliveries of cancellations are separate steps. `QueryAdmission` is the nested cleanup code of one execution,
  proved to follow the phases of `Execution`; `Executor` is the executor object, whose methods are proved to
  be enabled runs of `Runtime`, so that the theorems about reachable states hold of the object.
- **The framed stream** (`Wire`, `FramedStream`, `ResultStream`, `ResultStreamProofs`, `ResultStreamRecovery`): the
  Python writer, and the TypeScript parser as a class with its mutable buffer.
- **Arrow admission and replay** (`Arrow`, `ArrowCells`, `ArrowOffsets`, `ArrowAdmission`, `ArrowReplay`,
  `ResultFetch`). Admission and replay are classes over one stream writer and its sink; the replay is a generator whose
  consumer acts between chunks. The Arrow IPC writer is a deterministic incremental serializer given by three unknown
  functions: the writes for the schema, for each batch after the batches before it, and for the end.
- **The viewer** (`ArrowIngest`, `ViewerLoad`, `WorkerRpc`, `WorkerRpcProofs`, `WorkerRpcCalls`, `WorkerRpcShutdown`)
  and, across all of it, `EndToEnd`, `ResultProvenance` and `ResultInRun`: a published table is the result the
  request's own worker admitted, whole, or there is none.
- **The row cap** (`SqlPolicy`) and its meaning together with the admission limit.

## Assumptions

- Request tokens do not repeat; a token stream eventually leaves the loop that avoids live tokens.
- A cursor object is opened by one worker and registered once; the broker's clock never runs backwards and always answers.
  What a clock that raises can cost is the subject of `BrokerClockFailure` alone.
- No outside party cancels a coroutine of the executor, and creating the work and the timer inside it does not
  raise. A cancellation the driver refuses counts as issued, as `_cancel_quietly` treats it.
- The serializer gives the same bytes both times it is run on a result, and the decoder in the viewer undoes it. The
  batches it yields before the end of a stream are the first of those it yields at the end.
- PERCENT rounds up to whole rows; the source does not say how it rounds.
- The reader loop stops at the parser's first throw (apps/viewer/src/duckdb.worker.ts:104-117).

## What the code does not do

Each of these is proved: an input on which the stronger claim fails, and exactly when it holds.

- A parser that has thrown is not always dead. The two checks before anything is read leave it unchanged, and a
  completion frame with bytes behind it leaves exactly those bytes. After any pushes, a caller who ignores throws can
  still reach a successful finish exactly when the buffer is a leading part of legal streams within the remaining budget
  (`ResultStreamRecovery.RecoveryIff`), and one who stops at the next throw exactly when it is a leading part of a single
  one (`ResultStreamRecovery.FinishIff`). Which of the two a push leads to is decided by buffer and chunk before it is
  made (`ResultStreamRecovery.AfterPushIff`). `ResultStreamProofs.DoubledCompletion` is an input: it throws, and a further
  empty push then completes; `ResultStreamProofs.OtherThrowsAreNotFinal` has one for each of the three throws.
- A failed worker client can leave a load unsettled, but only with a worker that says "destroyed" unasked. The one in
  apps/viewer/src/duckdb.worker.ts:48-56 answers destroy and abort requests only, and with such a worker every failure
  settles all promises (`WorkerRpcShutdown.FailureSettlesAll`). For arbitrary messages, a load is stranded exactly when it
  was the only one, a "destroyed" came before readiness and no "ready" after it (`WorkerRpcShutdown.StrandedIff`);
  `WorkerRpcProofs.WaitingLoadLeftOpen` is an input. A "ready" message after destroy() is still shown as readiness
  (`WorkerRpcShutdown.ReadyAfterDestroy`).
- `cursor.cancel()` may come after `cursor.close()`, exactly when the event loop or an outside caller owes the
  cancellation at the moment of the close (`RuntimeCancellation.CancelAfterClose`); it does in
  `RuntimeWitness.CancelComesAfterClose`.
- A PERCENT or WITH TIES limit is rewritten to a plain cap, so what is admitted is the whole result. For a literal count,
  every admitted result is the one asked for exactly when, for PERCENT, with ties or without, the row limit times the
  percentage left out is below 100 (`SqlPolicy.PercentKeptIff`), and for WITH TIES of a plain count, that count is no
  smaller than the row limit (`SqlPolicy.TiesKeptIff`); `SqlPolicy.HalfOfTwoRows` is an input.
- An accepted request can fail although nothing is wrong with it: exactly when another worker is inside its execution at
  the moment it asks for the lock (`RuntimeTheorems.LockRefusedIff`). It happens after a cancellation frees a pending place
  while the cancelled worker still runs (`RuntimeWitness.LockHeld`).
- A broker clock that raises can lose cursors. An expiry of the whole table loses those already taken out exactly when a
  later reading of it raises (`BrokerClockFailure.SweepLosesIff`, with the input `BrokerClockFailure.CursorLost`), and an
  operation on one record loses a cursor exactly when it is a registration whose own reading raises
  (`BrokerClockFailure.OneRecordLosesIff`).

## Model

| member | source | states |
|---|---|---|
| Broker.InProcessBroker.Create | src/snowglobe/broker.py:61-80 | a broker exists exactly for a positive TTL and positive or absent capacities, and starts empty |
| Broker.RequestRecord.Expire | src/snowglobe/broker.py:217-231 | in-place lazy expiry of one record equals the model's, and hands its cursor to the caller |
| Broker.InProcessBroker.ExpireEvery | src/snowglobe/broker.py:202-215 | whole-table expiry, one reading per live record, collects the cursors in table order |
| Broker.InProcessBroker.MakeRoom | src/snowglobe/broker.py:244-255 | evicts nothing, or exactly the oldest terminal record, or fails because all are live |
| Broker.InProcessBroker.NewRequestId | src/snowglobe/broker.py:233-236 | the token loop returns the first token not in the table |
| Broker.InProcessBroker.Submit | src/snowglobe/broker.py:82-103 | table, answer and cancellations are those of the broker function, also when it raises |
| Broker.InProcessBroker.RegisterCursor | src/snowglobe/broker.py:105-121 | attaches the cursor to a pending record without one, or cancels it and raises |
| Broker.InProcessBroker.ReleaseCursor | src/snowglobe/broker.py:123-128 | detaches exactly this cursor and only while pending |
| Broker.InProcessBroker.Publish | src/snowglobe/broker.py:130-139 | completes a pending record with the source and drops its cursor |
| Broker.InProcessBroker.Fail | src/snowglobe/broker.py:141-153 | fails a pending record and cancels the cursor it held |
| Broker.InProcessBroker.ListRequests | src/snowglobe/broker.py:155-157 | views of the expired table, newest first |
| Broker.InProcessBroker.GetRequest | src/snowglobe/broker.py:159-161 | the view after lazy expiry |
| Broker.InProcessBroker.OpenSource | src/snowglobe/broker.py:163-167 | a source only from a complete, unexpired record |
| Broker.InProcessBroker.Cancel | src/snowglobe/broker.py:169-186 | cancels pending and complete records, repeats the answer for cancelled and failed ones, raises for expired ones |
| BrokerProofs.ApplyShaped | src/snowglobe/broker.py:82-186 | every operation keeps: a source exactly while COMPLETE, a cursor only while PENDING |
| BrokerProofs.ApplyCapacity | src/snowglobe/broker.py:238-255 | every operation keeps the pending and the total count within their maxima |
| BrokerProofs.CursorsConserved | src/snowglobe/broker.py:105-153 | on every path, what was attached or arrives is afterwards attached, cancelled or let go, each once |
| BrokerTouch.ApplyTouches | src/snowglobe/broker.py:82-186 | one operation seen from any one request: what may become of its status, source and cursor |
| BrokerRuns.RunKeeps | src/snowglobe/broker.py:58-255 | record shape, capacity, submission order and deadlines hold throughout every run |
| BrokerTheorems.RunAges | src/snowglobe/broker.py:105-231 | over any run a status only moves forward, a deadline never changes and an evicted request never reappears |
| BrokerTheorems.AnswersAreCurrent | src/snowglobe/broker.py:82-186 | every answer is about the table its operation leaves behind |
| BrokerTheorems.ObservedStatusesMoveForward | src/snowglobe/broker.py:82-186 | of any two answers in a run, the later status is a legal successor of the earlier |
| BrokerTheorems.NothingOverdueIsShown | src/snowglobe/broker.py:217-231 | no answer shows PENDING or COMPLETE, and no source is handed out, at a reading at or past the deadline |
| BrokerTheorems.ListIsNewestFirst | src/snowglobe/broker.py:155-157 | in every run, the listing is in reverse submission order and complete |
| BrokerTheorems.EvictionIsOldestTerminal | src/snowglobe/broker.py:244-255 | a record disappears only by a successful submission into a full table, and then it is the oldest terminal one |
| BrokerTheorems.NeverWedges | src/snowglobe/broker.py:82-103 | a submission one maximal TTL after the last clock reading succeeds from every reachable state |
| BrokerTheorems.RunConservesCursors | src/snowglobe/broker.py:105-153 | over any run, registered cursors are exactly those attached, cancelled or let go |
| BrokerTheorems.EachCursorInOnePlace | src/snowglobe/broker.py:105-231 | a cursor registered once ends in exactly one place, is cancelled at most once, and never after it was let go |
| BrokerAvailability.CompleteOrLost | src/snowglobe/broker.py:163-186 | one operation leaves a completed request as it is or loses it; a cancellation always loses it |
| BrokerAvailability.AvailableAllAlong | src/snowglobe/broker.py:163-186 | a look that still finds the source proves that nobody cancelled before it and no deadline had passed |
| BrokerLifetime.DeadlineDecides | src/snowglobe/broker.py:188-231 | a live record is expired by a look whose own reading is at or past its deadline and by nothing else, is otherwise left as it is by every operation that does not name it, and is never removed alive |
| BrokerLifetime.AliveThroughRun | src/snowglobe/broker.py:217-231 | a live record that no call of a run names, and no call looks at late, is the same record at the end of the run |
| BrokerLifetime.ExpiredWasLate | src/snowglobe/broker.py:217-231 | a live request that a run has expired was looked at in that run at a reading at or past its deadline |
| BrokerLifetime.FoundIff | src/snowglobe/broker.py:163-186 | a look at a completed request finds its own source exactly if no cancellation came before and its reading is short of the deadline |
| BrokerAnswers.AcceptedIff | src/snowglobe/broker.py:82-103 | a submission is accepted exactly with a positive lifetime, fewer requests still pending than allowed, and a free place or a request that is over; it is then given the first unused token and the lesser of the requested and the longest lifetime |
| BrokerAnswers.NamedAnswers | src/snowglobe/broker.py:105-186 | what every operation on one request answers and leaves, for each status its reading sees; an unknown request is refused |
| BrokerAnswers.ListedAnswers | src/snowglobe/broker.py:155-157 | a listing shows each record, newest first, with the status its own reading sees |
| BrokerClockFailure.SweepRecords | src/snowglobe/broker.py:202-215 | the expiry loop on the record objects under a clock that may raise: the records before the raise are expired, and then nothing is cancelled |
| BrokerClockFailure.SweepLosesIff | src/snowglobe/broker.py:205-215 | every cursor stays attached or is cancelled, except exactly when a reading raises after an earlier record gave up an overdue one |
| BrokerClockFailure.OneRecordLosesIff | src/snowglobe/broker.py:105-121 | a raising clock costs an operation on one record a cursor exactly when it is a registration of a live one |
| BrokerClockFailure.DeadlineLosesNothing | src/snowglobe/broker.py:97-101 | a submission whose deadline reading raises cancels all it took out |
| BrokerClockFailure.AnsweringClock | src/snowglobe/broker.py:205-211 | with a clock that always answers this is the expiry of the rest of the model |
| BrokerClockFailure.CursorLost | src/snowglobe/broker.py:205-215 | a table and readings that lose a cursor |
| Execution.StepAccounts | src/snowglobe/snowflake_executor.py:75-97 | every driver call keeps the account: what is open is what the phase owns, a registered cursor is released before it is closed, nothing runs on an unregistered one |
| QueryAdmission.SnowflakeQueryAdmission.Execute | src/snowglobe/snowflake_executor.py:75-97 | whatever the driver answers, the lock is left as it was found and the nested cleanup is the phase sequence |
| QueryAdmission.SnowflakeQueryAdmission.RequestCursor | src/snowglobe/snowflake.py:26-42 | cursor and connection are closed in that order on every path, and an error in closing replaces the outcome |
| QueryAdmission.SnowflakeQueryAdmission.UseCursor | src/snowglobe/snowflake_executor.py:84-95 | a registered cursor is always released; a refused one is never executed |
| QueryAdmission.DriveAccounts | src/snowglobe/snowflake_executor.py:81-97 | an execution followed to its end accounts for everything it opened |
| QueryAdmission.ReturnsIff | src/snowglobe/snowflake_executor.py:75-97 | a source is returned exactly when the lock was free and every call of the driver, the broker and the admission succeeded, and it is the one fetched |
| RuntimeInvariant.StepKeeps | src/snowglobe/executor.py:32-106 | any enabled step of the event loop, a worker thread or an outside caller keeps the system invariant |
| RuntimeInvariant.RunKeeps | src/snowglobe/executor.py:32-106 | the invariant holds along every interleaving |
| RuntimeTheorems.NoCancellationGap | src/snowglobe/executor.py:73-82 | between registration and release, the cursor is attached to its pending record or its cancellation is queued or issued |
| RuntimeTheorems.RefusedCursorIsCancelled | src/snowglobe/broker.py:112-121 | a cursor that came too late is never executed, and is cancelled before its worker closes it |
| RuntimeTheorems.PublicationBarrier | src/snowglobe/executor.py:84-105 | a COMPLETE record's own worker did every step, in order and without error, and returned that very source |
| RuntimeTheorems.EndedRunsAreClean | src/snowglobe/executor.py:84-106 | every run that ends leaves its record ended or evicted and everything it opened closed |
| RuntimeTheorems.OneExecutionAtATime | src/snowglobe/snowflake_executor.py:81-97 | at most one connection is open, and the lock is free exactly when nobody is inside the execution |
| RuntimeTheorems.LockRefusedIff | src/snowglobe/snowflake_executor.py:81-83 | the lock is refused exactly when another worker is inside its execution, and the refused worker ends without opening anything |
| RuntimeTheorems.EachCursorInOnePlace | src/snowglobe/broker.py:105-231 | in every reachable state each registered cursor is attached, queued, cancelled once, or let go |
| RuntimeTheorems.PublicationDropsNothing | src/snowglobe/executor.py:96-100 | the executor releases before it publishes, so publication never finds a cursor to drop |
| RuntimeTheorems.QuiescentAfterClose | src/snowglobe/executor.py:57-66 | once a close has returned there is no pending record, attached cursor, open connection or live run, and submissions change nothing |
| RuntimeTheorems.CloseHasPaid | src/snowglobe/executor.py:57-66 | when a close returns, only outside callers can still owe a cancellation |
| RuntimeCancellation.CancelAfterClose | src/snowglobe/broker.py:184-200 | when a worker closes its cursor, that cursor is attached nowhere and no worker owes a cancellation; it is cancelled later exactly if the event loop or an outside caller owes it then |
| RuntimeProgress.AlwaysComesToRest | src/snowglobe/executor.py:57-106 | whatever the schedule and the answers, the runtime's own steps are boundedly many, and none is left exactly when all runs have ended, all cancellations are issued and all closes have returned |
| RuntimeProgress.InternalDrops | src/snowglobe/executor.py:57-106 | every step of the event loop or a worker leaves strictly less to do |
| RuntimeProgress.NeverStuck | src/snowglobe/executor.py:84-106 | from every reachable state some schedule of such steps comes to rest |
| RuntimeProgress.CloseCanReturn | src/snowglobe/executor.py:65-66 | when nothing runs any more, a close that waits can return |
| RuntimeWitness.EverythingHappens | src/snowglobe/executor.py:32-106 | armed cursors, cursors armed after a cancellation, refused cursors, published results and returned closes are reachable for every configuration, so the claims above are not empty |
| RuntimeWitness.CancelComesAfterClose | src/snowglobe/broker.py:184-186 | a run in which the canceller's driver call comes after the worker's close |
| RuntimeWitness.LockHeld | src/snowglobe/snowflake_executor.py:81-83 | an accepted request whose worker finds the lock taken, and the failed record it ends with |
| RuntimeRuns.PayingIsARun | src/snowglobe/broker.py:198-200 | a broker call followed at once by its cancellations is a run of the interleaved system |
| Executor.BackgroundQueryExecutor.Submit | src/snowglobe/executor.py:32-55 | refused unasked exactly when closed or not admitted; otherwise the broker's submission with the requested lifetime is the next step, and the request is accepted exactly if a task can be made, the lifetime is positive and there is a place, with the lesser of requested and longest lifetime; every pending record has a live run |
| Executor.BackgroundQueryExecutor.FailUnscheduled | src/snowglobe/executor.py:48-52 | when no coroutine can be scheduled the broker is told that the new request failed: its record is no longer pending and no run is live for it |
| Executor.BackgroundQueryExecutor.BeginClose | src/snowglobe/executor.py:57-66 | afterwards the executor is closed and no record is pending; the live runs are what is awaited |
| Executor.BackgroundQueryExecutor.FinishClose | src/snowglobe/executor.py:65-66 | afterwards no run is live, no record pending and no cursor attached |
| Executor.BackgroundQueryExecutor.MarkStarted | src/snowglobe/executor.py:73-75 | the cursor is registered with the broker, and the worker goes on to execute exactly if the broker attached it, otherwise to close it with an error; without a cursor nothing changes |
| Executor.BackgroundQueryExecutor.Release | src/snowglobe/executor.py:77-80 | the cursor is released at the broker and the worker goes on to close it, whatever became of the request; without a cursor nothing changes |
| Executor.BackgroundQueryExecutor.Start | src/snowglobe/executor.py:84-92 | a scheduled run goes to wait for its work or its timer |
| Executor.BackgroundQueryExecutor.PollExpiry | src/snowglobe/executor.py:93-95 | a timer that fires first makes the run look at its own request, and then wait for its work alone |
| Executor.BackgroundQueryExecutor.WorkEnded | src/snowglobe/executor.py:96-104 | a returned source is kept while the timer is awaited, with nothing told to the broker; an exception is recorded as failure and ends the run |
| Executor.BackgroundQueryExecutor.Settle | src/snowglobe/executor.py:99-106 | the source is published, and exactly when the broker refuses it the failure is recorded; either way the run ends and is no longer live |
| Wire.DecodeBigEndian | src/snowglobe/result_api.py:26 | reading the frame length gives back what was written |
| Wire.EncodeBigEndian | apps/viewer/src/result-stream.ts:63-64 | every eight bytes the parser reads as a length are the encoding of that length |
| Wire.FrameLayout | src/snowglobe/result_api.py:26 | a frame byte for byte: kind, eight length bytes with the most significant first, payload |
| Wire.StreamLayout | src/snowglobe/result_api.py:23-26 | a stream starts with the magic text and version byte, goes on with one frame of kind 1 per payload and ends with an empty frame of kind 2 |
| Wire.StreamsArePrefixFree | src/snowglobe/result_api.py:90-100 | no stream is a prefix of another, so a stream determines its payloads |
| Wire.UnfinishedIsNoStream | src/snowglobe/result_api.py:90-100 | frames without a completion contain no complete stream, not even of other payloads |
| ResultStream.ResultStreamParser.Create | apps/viewer/src/result-stream.ts:24-38 | a parser exists exactly for a usable maximum |
| ResultStream.StartsWithMagic | apps/viewer/src/result-stream.ts:50-52 | the byte loop decides whether the buffer starts with the magic |
| ResultStream.ResultStreamParser.Push | apps/viewer/src/result-stream.ts:40-94 | the state and outcome of a push on the mutable buffer, thrown or not, are those of the step function |
| ResultStream.ResultStreamParser.DrainFrames | apps/viewer/src/result-stream.ts:57-91 | the frame loop takes every complete frame off the buffer, in order |
| ResultStream.ResultStreamParser.Finish | apps/viewer/src/result-stream.ts:96-100 | finish succeeds exactly after magic and completion with nothing left over |
| ResultStreamProofs.ChunkingIndependence | apps/viewer/src/result-stream.ts:40-101 | all pushes and finish succeed exactly when the bytes are a framed stream within budget, and the payloads are the stream's own, whatever the split |
| ResultStreamProofs.EverySplitAccepted | apps/viewer/src/result-stream.ts:40-101 | every split of a stream within budget is accepted |
| ResultStreamProofs.AcceptedIsStream | apps/viewer/src/result-stream.ts:40-101 | whatever is accepted is a stream of the payloads handed out |
| ResultStreamProofs.PushSound | apps/viewer/src/result-stream.ts:40-94 | each push hands out the payloads of the frames completed so far and keeps the rest |
| ResultStreamProofs.RetainedBytes | apps/viewer/src/result-stream.ts:57-91 | after a successful push less than the magic or one maximal frame is retained |
| ResultStreamProofs.CeilingIsExact | apps/viewer/src/result-stream.ts:25-28 | the buffer ceiling is the length of the longest stream within budget |
| ResultStreamProofs.EmptyPushIsNoOp | apps/viewer/src/result-stream.ts:41 | an empty chunk never changes anything, even after completion |
| ResultStreamRecovery.RecoveryIff | apps/viewer/src/result-stream.ts:40-101 | after any pushes, thrown or not, a caller who ignores throws can still finish exactly when the buffer is a leading part of legal streams within the remaining budget |
| ResultStreamRecovery.FinishIff | apps/viewer/src/result-stream.ts:40-101 | and further pushes can all parse and finish succeed exactly when it is a leading part of a single legal rest of a stream |
| ResultStreamRecovery.NeverHoldsMore | apps/viewer/src/result-stream.ts:25-44 | whatever is pushed, and however often it throws, the buffer never holds more than the longest stream |
| ResultStreamRecovery.AfterPushIff | apps/viewer/src/result-stream.ts:40-94 | whether a push leaves a parser that can still succeed is decided by buffer and chunk before it is made |
| ResultStreamRecovery.WhatThrowsLeave | apps/viewer/src/result-stream.ts:41-88 | the first two checks change nothing, trailing bytes are exactly what is left, and after any other throw success is out of reach |
| ResultStreamProofs.FinalThrow | apps/viewer/src/result-stream.ts:50-88 | after bad magic, a bad frame or an exceeded budget, moreover, every later push throws |
| ResultStreamProofs.OtherThrowsAreNotFinal | apps/viewer/src/result-stream.ts:41-69 | for each of the other three throws, a push that makes it and pushes after it that end in success |
| ResultStreamProofs.DoubledCompletion | apps/viewer/src/result-stream.ts:68-69 | a doubled completion frame throws, yet a further empty push completes the parser |
| ArrowCells.MaximumVariableCellBytes | src/snowglobe/arrow_stream.py:218-234 | the largest cell of the slice, or an error exactly when some cell of it has no length |
| ArrowCells.MaximumCellBytes | src/snowglobe/arrow_stream.py:208-215 | the largest cell over all columns, or an error exactly when a column cannot be measured |
| ArrowCells.LargestDecides | src/snowglobe/arrow_stream.py:114-115 | comparing that maximum with the limit compares every cell with it |
| ArrowOffsets.ReadsEachOffset | src/snowglobe/arrow_stream.py:226-230 | reading 4- or 8-byte little-endian offsets gives back the offsets written, and fails beyond the buffer |
| ArrowOffsets.LayoutCells | src/snowglobe/arrow_stream.py:218-234 | a laid-out column can be measured exactly when its offsets never decrease in the slice, and its cells are their differences |
| ArrowOffsets.CellsWithinIff | src/snowglobe/arrow_stream.py:208-261 | what the cell check decides, type by type and on the offsets themselves, in 4 or 8 bytes |
| ArrowAdmission.ChunkSink.Write | src/snowglobe/arrow_stream.py:66-70 | appends a chunk and reports its length |
| ArrowAdmission.ChunkSink.Tell | src/snowglobe/arrow_stream.py:72-73 | the number of bytes ever written, drained or not, for the serializer to ask |
| ArrowAdmission.ChunkSink.Drain | src/snowglobe/arrow_stream.py:81-84 | hands over all bytes not yet drained, once |
| ArrowAdmission.ValidateSchema | src/snowglobe/arrow_stream.py:201-205 | accepts exactly the schemas with few enough columns, all of supported types |
| ArrowAdmission.AdmissionState.Admit | src/snowglobe/arrow_stream.py:101-118 | one batch is admitted exactly when the totals with it, its schema and all its cells are within limits |
| ArrowAdmission.AdmissionState.Finish | src/snowglobe/arrow_stream.py:120-125 | succeeds exactly once, when the whole serialization is within the limit |
| ArrowAdmission.RefusedBatch | src/snowglobe/arrow_stream.py:107-118 | a batch the running totals refuse makes the whole result inadmissible |
| ArrowAdmission.AdmitRecordBatches | src/snowglobe/arrow_stream.py:140-159 | a result is admitted exactly when it is within the limits as a whole, and is retained batch for batch |
| ArrowReplay.ChunksAreTheSerialization | src/snowglobe/arrow_stream.py:162-198 | the chunks are non-empty and concatenate to the full serialization |
| ArrowReplay.IpcChunks.Next | src/snowglobe/arrow_stream.py:162-198 | the generator hands over the next chunk, never an empty one, or ends: completed exactly when the cap covers the serialization, else at the one place where cap or schema stops it |
| ArrowReplay.StopsOnce | src/snowglobe/arrow_stream.py:175-184 | there is only one place where a failing replay can stop |
| ArrowReplay.CompletedNeverStops | src/snowglobe/arrow_stream.py:175-195 | and none in a replay that the cap covers |
| ArrowReplay.Replay | src/snowglobe/arrow_stream.py:162-198 | a whole replay completes exactly when the cap covers the serialization; otherwise it yields all chunks before the first batch, or the trailer, that cap or schema refuses |
| ArrowReplay.ReplayIsPrefix | src/snowglobe/arrow_stream.py:162-198 | what a replay yields, complete or not, is an initial part of the serialization |
| ArrowReplay.ReplayNeverOverflows | src/snowglobe/arrow_stream.py:132-137 | what was admitted is replayed in full under the same limit, and under a smaller cap exactly if it fits |
| ResultFetch.RecordBatchesAre | src/snowglobe/snowflake_executor.py:136-140 | the batches of all tables in order, or an error exactly when a table has another schema |
| ResultFetch.BatchInPlace | src/snowglobe/snowflake_executor.py:136-140 | each batch of each table stands behind all batches of the tables before it |
| ResultFetch.FetchAdmittedResult | src/snowglobe/snowflake_executor.py:120-152 | a source is retained exactly when all tables share one schema and together are within limits; with no table at all, exactly when every result batch reports no rows and the first converts to an empty table within limits, whose schema it then has |
| FramedStream.Serve | src/snowglobe/result_api.py:81-100 | looking at the broker between chunks, it completes exactly when the replay completed, every chunk could be framed and every check found that very source; otherwise it stops where the first of these fails, and never sends a frame beyond where the replay itself stops |
| FramedStream.StreamBytes | src/snowglobe/result_api.py:90-100 | the bytes of a stream are an encoding of all chunks, or frames that no completion follows |
| ArrowIngest.IncrementalArrowSink.Insert | apps/viewer/src/arrow-ingest.ts:25-27 | takes a chunk while the ingestion goes on alongside; the pending table holds the first batches, in order, at any time |
| ArrowIngest.IncrementalArrowSink.IngestNext | apps/viewer/src/arrow-ingest.ts:44-50 | each turn inserts the next batch, the first one creating the table, or ends the ingestion |
| ArrowIngest.IncrementalArrowSink.FinishIngestion | apps/viewer/src/arrow-ingest.ts:37-57 | succeeds exactly when decoding and all inserts do; the table then holds every batch once, in order, or the bare schema |
| ArrowIngest.IncrementalArrowSink.Publish | apps/viewer/src/arrow-ingest.ts:28-33 | publishes all that was received or nothing, however far the ingestion had got before |
| ViewerLoad.ProvisionalResult.Push | apps/viewer/src/result-stream.ts:117-121 | inserts the payloads of one push in order until an insert fails |
| ViewerLoad.ProvisionalResult.Finish | apps/viewer/src/result-stream.ts:123-126 | publishes only a stream the parser has seen to its end |
| ViewerLoad.LoadResult | apps/viewer/src/duckdb.worker.ts:104-117 | a load is acknowledged exactly when the stream ended normally, was accepted whole and the sink took everything; otherwise only the pending table may differ |
| EndToEnd.FailureAtomicity | src/snowglobe/result_api.py:90-100 | acceptance of any leading part of a stream, in any split, means that the server finished it, all bytes arrived, and the payloads are the full serialization |
| EndToEnd.CompleteDelivery | apps/viewer/src/result-stream.ts:40-101 | with a writer limit within the parser's, a finished stream that arrives whole is accepted |
| EndToEnd.ViewRequest | apps/viewer/src/duckdb.worker.ts:87-118 | a published table holds exactly the admitted batches; it is published exactly when server, network and sink all did their part |
| ResultProvenance.CompleteIsItsOwn | src/snowglobe/executor.py:96-100 | the source of a COMPLETE record was fetched by that request's own worker from that request's own result |
| ResultProvenance.ViewCompleted | apps/viewer/src/duckdb.worker.ts:87-118 | a published view of a COMPLETE request shows exactly the batches its own worker was handed, and is published exactly when broker, network and sink did their part |
| ResultInRun.ViewInRun | src/snowglobe/result_api.py:92-97 | when the checks are steps of the runtime's continuing run, an acknowledged view shows what the request's own worker was handed, nobody cancelled the request before the last check, and its deadline was still ahead then |
| ResultInRun.FoundInRun | src/snowglobe/broker.py:163-186 | a look of the run that finds the source excludes every earlier cancellation, by the loop or from outside |
| EndToEnd.AdmittedIsServable | src/snowglobe/result_api.py:92-97 | an admitted source is served whole exactly while the broker keeps offering it |
| EndToEnd.FinishedMeansAvailable | src/snowglobe/result_api.py:93-97 | a finished stream was neither cancelled before its last check nor past its deadline at it |
| EndToEnd.FinishedIffAvailable | src/snowglobe/result_api.py:92-97 | a stream of a source that can be replayed is finished exactly if nobody cancelled before its last check and that check read the clock short of the deadline |
| SqlPolicy.Statement.ApplyRowCap | src/snowglobe/sql_policy.py:133-144 | caps the statement in place, or rejects it untouched exactly when its limit is no literal count |
| SqlPolicy.NonnegativeInteger | src/snowglobe/sql_policy.py:147-153 | accepts exactly non-negative integer literals |
| SqlPolicy.NoSilentTruncation | src/snowglobe/sql_policy.py:133-144 | the result capped at one row above the maximum is within the maximum exactly when the uncapped one is, and is then the same |
| SqlPolicy.AdmittedMeansUncut | src/snowglobe/arrow_stream.py:107-113 | an admitted result is the uncapped query's; a query with more rows is never admitted |
| SqlPolicy.CapIsIdempotent | src/snowglobe/sql_policy.py:133-144 | capping again, also for a larger cap, changes nothing |
| SqlPolicy.RewrittenToAll | src/snowglobe/sql_policy.py:138-141 | an admitted PERCENT or WITH TIES query returns all rows |
| SqlPolicy.PercentKeptIff | src/snowglobe/sql_policy.py:138-141 | with ties or without, every admitted result is the percentage the clause asks for exactly when the row limit times the percentage left out is below 100 |
| SqlPolicy.TiesKeptIff | src/snowglobe/sql_policy.py:138-141 | without PERCENT, every admitted WITH TIES result is the one the clause asks for exactly when its count is no smaller than the row limit |
| SqlPolicy.HalfOfTwoRows | src/snowglobe/sql_policy.py:138-141 | half of two rows is asked for and both are admitted |
| SqlPolicy.Authorize | src/snowglobe/sql_policy.py:41-59 | the two passes over a new statement object each equal the two-pass function |
| SqlPolicy.AuthorizedIff | src/snowglobe/sql_policy.py:41-59 | for any printer: exactly the queries that parse, are allowed and have no limit, a PERCENT or WITH TIES one or a non-negative integer literal, and whose capped text passes the same checks and comes back unchanged |
| SqlPolicy.FaithfulPrinterAuthorizes | src/snowglobe/sql_policy.py:41-59 | when printing loses nothing, exactly the queries that parse, are allowed and have such a limit, and what is executed is the capped query |
| SqlPolicy.AuthorizedIsFixpoint | src/snowglobe/sql_policy.py:50-57 | the text that is executed has itself been parsed, checked and capped, and authorizes to itself |
| SqlPolicy.ExecutedQueryIsCapped | src/snowglobe/sql_policy.py:41-59 | if printing loses nothing of this query, the executed one is the submitted body with at most one row above the maximum |
| WorkerRpc.DatabaseWorker.OnMessage | apps/viewer/src/worker.ts:50-81 | each message settles, fails or marks ready as the step function says |
| WorkerRpc.DatabaseWorker.Load | apps/viewer/src/worker.ts:99-110 | the first load waits for readiness; a second aborts everything |
| WorkerRpc.DatabaseWorker.ResumeLoad | apps/viewer/src/worker.ts:108-109 | once ready, the waiting load is posted, or rejected if the client has failed meanwhile |
| WorkerRpc.DatabaseWorker.GetViewport | apps/viewer/src/worker.ts:111-113 | a viewport request is posted under the next number, or rejected at once after failure |
| WorkerRpc.DatabaseWorker.Destroy | apps/viewer/src/worker.ts:114-120 | posts one destroy request, releases a waiting load and rejects the rest; nothing after failure |
| WorkerRpc.DatabaseWorker.RejectAllReplies | apps/viewer/src/worker.ts:36-39 | rejects every outstanding reply once and forgets them |
| WorkerRpcProofs.SettledAtMostOnce | apps/viewer/src/worker.ts:35-121 | in every run each promise handed out is open or settled, and settled at most once |
| WorkerRpcProofs.ResolvedByOwnReply | apps/viewer/src/worker.ts:50-64 | a promise is resolved only by a reply with the number and type of its own posted request |
| WorkerRpcCalls.ResolvedByOwnCall | apps/viewer/src/worker.ts:50-64 | that request asked for what the call behind the promise asked for: the load of its request, or the rows of its offset and limit |
| WorkerRpcCalls.ExpectedReplyResolves | apps/viewer/src/worker.ts:50-64 | a reply with the number and type an outstanding call expects resolves its promise with its value and changes nothing else |
| WorkerRpcCalls.RequestsAreTheCalls | apps/viewer/src/worker.ts:85-113 | the requests posted in a run are, in order and numbered from 1, those of the viewport calls made before failure, each with its own rows, and of the first load |
| WorkerRpcCalls.FailsExactly | apps/viewer/src/worker.ts:41-121 | the events at which the client fails; everything outstanding is then rejected in the order of the calls |
| WorkerRpcCalls.ToldExactly | apps/viewer/src/worker.ts:41-121 | when failure and readiness are shown, the worker terminated, and an abort or a destroy request posted |
| WorkerRpcProofs.AtMostOneLoad | apps/viewer/src/worker.ts:85-110 | at most one load is posted, requests are numbered 1, 2, 3 and so on, and failure is reported at most once |
| WorkerRpcProofs.FailureIsFinal | apps/viewer/src/worker.ts:41-48 | once failed nothing is posted any more and no reply is outstanding |
| WorkerRpcShutdown.FailureSettlesAll | apps/viewer/src/worker.ts:35-121 | with a worker that reports itself destroyed only when asked to stop, a failure settles every promise at once or when the released load goes on |
| WorkerRpcShutdown.StrandedIff | apps/viewer/src/worker.ts:65-70 | for arbitrary messages, a load is stranded exactly when it was the only one, a "destroyed" came before readiness and no "ready" after it |
| WorkerRpcShutdown.UnsettledIffStranded | apps/viewer/src/worker.ts:35-121 | a failed run leaves a promise open beyond the resumption of its load exactly when it is stranded |
| WorkerRpcShutdown.ReadyShownPerMessage | apps/viewer/src/worker.ts:79-80 | readiness is shown once for every "ready" message, also after failure |
| WorkerRpcShutdown.ReadyAfterDestroy | apps/viewer/src/worker.ts:79-80 | a destroyed client shown as ready |
| WorkerRpcProofs.WaitingLoadLeftOpen | apps/viewer/src/worker.ts:65-70 | a load waiting at that moment stays unsettled, even after destroy() |

## Left out

- SQL parsing, printing and relation checking: they are unknown functions of `SqlPolicy.Dialect`; identifier
  canonicalisation and configured view names are single-branch checks.
- SqlPolicy.ExecutedQueryIsCapped: assumes a printer that loses nothing of the query at hand; without it only the
  fixpoint holds.
- The Arrow, DuckDB and TransformStream libraries: serializer, decoder and inserts are unknown functions or may fail
  at any call. A serializer that raises is not modelled.
- Executor.BackgroundQueryExecutor.Submit: the object's stretches run undisturbed; interference by worker threads
  inside a stretch is covered by `Runtime`, whose steps are finer.
- The timezone check on clock readings, the printing of governed SQL, connector logging and configuration.
- Real timers: a timer may fire at any moment and proves nothing about the broker's clock.
- Whether the driver honours a cancellation, and how long anything takes.
- HTTP, MCP, command line, receipts, viewport formatting and the user interface: input and output around the core.
