# Verification of prisminfer

Dafny models of prisminfer's hard core and proofs about them. The model follows the code;
where the code does not do what its design suggests, the exact condition is proved instead.

- **Supervised GPU admission.** One caller drives a session (15 states) and a nonce-bound worker
  protocol. `SessionModel` gives every call as a function of the session value, `GpuSession` the
  class that does it in place, `SessionRuns` the theorems over every sequence of calls,
  `SessionClock` those about its deadlines, `SessionWorld` those over any number of sessions sharing
  the lease registry, `SlotRuns` that each of them is a run, `TokenWorld` those over every
  interleaving of issuers, receipt copies, moves and consumers, `SessionTokens` the two together.
  `WorkerProtocol` and `ProtocolLoop` are the line handler, `LineFramer` the byte reader, `SupervisedRun` the whole
  conversation with the session behind it, `CasePolicy` what the attended-case contract concludes,
  `CaseReachability` that its success case can be met, `ExampleRuns` closed runs to the ends the
  theorems speak of.
- **Caps and reserves.** `CheckedArithmetic`, `HostAdmission`, `SupervisorAdmission`,
  `SupervisorWatchdog`, joined over a run in `SessionEvidence`; `AdmissionExample` is one machine that
  all of them admit.
- **Streaming SHA-256.** `Sha256Spec` is FIPS 180-4, `Sha256Constants` derives its constants,
  `Sha256`, `Sha256Streaming` and `Sha256File` are the incremental hasher and the bounded file hash.
- **Printers and parsers.** `WindowsArgv` (quoting against the C runtime's splitting) and
  `FlatJson`, `FlatJsonLaws`, `FlatJsonReader` (flat JSON reader and canonical printer).
- **GGUF.** `GgufBytes`, `GgufTensors`, `GgufMetadata`, `GgufBits`, `GgufContainer`, `GgufScanner`
  (which files are accepted, with what) and `GgufSpans` (lengths and overlap).
- **K-quants and evidence.** `SinglePrecision` is IEEE 754 single precision, `HalfFloat` the conversion,
  `KQuant` and `KQuantSix` the decoders, `KQuantRounding` what of them rounds; `EvidenceRecords`.

`dafny verify dfyconfig.toml` checks everything.

Where the code differs from what one would expect:

- Moving from the development to the evidence lane admits a rejected request when promotion was
  asked for, and only then (`TighteningNeverAdmits`, `StricterLaneCanAdmit`).
- Stage A can refuse a device because it reports more memory, since its reserve grows
  (`RoomierTelemetryKeepsAdmission`, `RoomierTelemetryCanReject`), and so can Stage B
  (`RoomierTelemetryKeepsStageB`, `RoomierTelemetryCanRejectStageB`).
- The watchdog cancels when telemetry with more room shows less use than the worker owns, and of
  roomier telemetry only then (`WatchdogMonotone`, `IdleTelemetryCancels`).
- An aborted worker can reach WorkerExited at any time through the end of the run
  (`AbortedRunExits`, `LateAbortCanExit`, `LateExitExists`); the cleanup bound is still enforced
  before Cleaned.
- That bound counts from the cancellation for every clock that never runs backwards
  (`OrderedReleaseHonoursCancel`). A cancellation stamped with time 0, which such a clock cannot
  produce, is not compared (`ReleaseHonoursCancel` says exactly when that shows, `ZeroStampEscapes`
  and `ZeroStampRunExists` that it does).
- A session can report Quarantined after its lease was properly given back (`LateCallsHideCleaned`,
  `HiddenCleanedRunExists`).
- A program name with a quote, or with a blank and a trailing backslash, does not survive the
  command line (`SplitUndoesBuild`, `TrailingBackslashDoubles`).
- Short protocol lines can trip the 1024-byte bound when reads are unlucky (`OtherStreamsCanTrip`).
- A map with control characters other than newline, return and tab does not survive printing
  (`RoundTripExactly`, `RawControlIsRefused`).
- The closing evidence record's type is unchecked (`ClosingTypeIsFree`), and one trial more than the
  manifest allows is still made into a bundle before it is refused (`BuildBundle`, `EmitTooMany`).
- A tensor length divides by zero when a zero dimension is followed by another
  (`CheckedTensorLength`); the scanner rejects such shapes first (`ReadHeaderIff`).

## Model

| member | source | states |
|---|---|---|
| `SupervisedRun.EveryConversation` | src/runtime/native_worker.cpp:1069-1277 | For every sequence of worker lines, timer passes and buffer overflows, every clock and every evidence answer: at most one ADMIT and at most one CANCEL are written and nothing after CANCEL; the callbacks are a context, its token, heartbeats 1, 2, 3, … without gaps, then at most one cancellation and one acknowledgement; Active implies the session consumed exactly the one token ADMIT carried and no heartbeat was refused. |
| `SupervisedRun.ConversationKeepsInv` | src/governor/gpu_admission_session.cpp:386-622 | The invariant behind it holds after every event: protocol state, session state, token history and heartbeat counts agree, and the reason for a cancellation fixes what was consumed and refused. |
| `SupervisedRun.ContextCallbackKeeps` | src/governor/gpu_admission_session.cpp:389-504 | The context-ready callback (Stage B, issue, store) keeps the session invariant; a grant is given only when the session holds exactly that token, unconsumed. |
| `SupervisedRun.ConsumedCallbackKeeps` | src/governor/gpu_admission_session.cpp:508-525 | The token-consumed callback keeps the invariant; it says yes only after the session consumed that very token. |
| `SupervisedRun.BeatCallbackKeeps` | src/governor/gpu_admission_session.cpp:526-605 | The heartbeat callback keeps the invariant and the token history; yes implies WatchdogActive. |
| `WorkerProtocol.LineOutcome` | src/runtime/native_worker.cpp:1118-1277 | Any line makes at most its own callback and then at most the cancellation callback; unless it cancels it leads to the one state that callback allows, and only the matching refusals give the reasons admission_rejected and watchdog_rejected. |
| `WorkerProtocol.PollOutcome` | src/runtime/native_worker.cpp:1356-1372 | A timer pass changes nothing or cancels, and heartbeat_timeout arises only while Active. |
| `WorkerProtocol.PollIsExact` | src/runtime/native_worker.cpp:1356-1372 | While the clock does not run backwards, a timer pass cancels if and only if context, token or heartbeat is overdue, and leaves no overdue conversation uncancelled. |
| `WorkerProtocol.LineKeeps` | src/runtime/native_worker.cpp:1103-1277 | The shape of the conversation (messages sent, callbacks made, heartbeat count) is kept by every line in every state. |
| `WorkerProtocol.PollKeeps` | src/runtime/native_worker.cpp:1356-1372 | The same for the timers. |
| `WorkerProtocol.NumberIsIndex` | src/runtime/native_worker.cpp:1218-1228 | The n-th heartbeat carries n in 64-bit arithmetic. |
| `ProtocolLoop.ProtocolSupervisor.constructor` | src/runtime/native_worker.cpp:1076-1102 | The loop starts in AwaitContext with nothing sent, nothing called back, nothing pending. |
| `ProtocolLoop.ProtocolSupervisor.RequestProtocolCancel` | src/runtime/native_worker.cpp:1103-1117 | In place: the first request records the reason, calls back, writes CANCEL and stamps the time; later ones change nothing. |
| `ProtocolLoop.ProtocolSupervisor.HandleContextReady` | src/runtime/native_worker.cpp:1135-1192 | In place: refines the specification of a CONTEXT_READY line. |
| `ProtocolLoop.ProtocolSupervisor.AnswerContext` | src/runtime/native_worker.cpp:1161-1192 | In place: what follows the grant, ADMIT written before the state becomes TokenDelivered. |
| `ProtocolLoop.ProtocolSupervisor.HandleTokenConsumed` | src/runtime/native_worker.cpp:1193-1217 | In place: refines the specification of a TOKEN_CONSUMED line. |
| `ProtocolLoop.ProtocolSupervisor.HandleHeartbeat` | src/runtime/native_worker.cpp:1218-1263 | In place: refines the specification of a HEARTBEAT line. |
| `ProtocolLoop.ProtocolSupervisor.ProcessProtocolLine` | src/runtime/native_worker.cpp:1118-1277 | In place: the whole line handler refines WorkerProtocol.ProcessLine, nothing else changes. |
| `ProtocolLoop.ProtocolSupervisor.PollTimers` | src/runtime/native_worker.cpp:1355-1382 | In place: refines Poll, and tells exactly when the loop is left because a cancelled worker neither acknowledged nor exited in time. |
| `ProtocolLoop.ProtocolSupervisor.TakeChunk` | src/runtime/native_worker.cpp:1319-1330 | In place: one read appends, trips the 1024-byte bound or takes every whole line in order. |
| `ProtocolLoop.ProtocolSupervisor.DrainProtocol` | src/runtime/native_worker.cpp:1302-1331 | In place: the reading loop refines the fold of reads over the state. |
| `ProtocolLoop.ChunkingDoesNotMatter` | src/runtime/native_worker.cpp:1302-1331 | While the bound does not trip, the protocol state after any cutting of the stream is the state its lines make in order, with the same rest pending. |
| `ProtocolLoop.AnyBytesKeepConversation` | src/runtime/native_worker.cpp:1302-1331 | For any bytes however cut, tripped or not, the conversation stays well formed. |
| `LineFramer.LinesAreTheSplit` | src/runtime/native_worker.cpp:1319-1330 | The bound stays silent if and only if every read fits on top of what is pending; then the lines taken are the newline split of the stream and the pending bytes its rest. |
| `LineFramer.Reassembles` | src/runtime/native_worker.cpp:1325-1330 | Lines with their newlines plus the rest give back the stream, and none of them contains a newline. |
| `LineFramer.SplitIsUnique` | src/runtime/native_worker.cpp:1325-1330 | No other lines and rest without newlines give that stream. |
| `LineFramer.SplitResumes` | src/runtime/native_worker.cpp:1325-1330 | Splitting may stop anywhere and go on from the rest. |
| `LineFramer.SafeStreamNeverTrips` | src/runtime/native_worker.cpp:1313-1324 | A stream in which the longest read that may start anywhere still fits never trips the bound, however it is cut. |
| `LineFramer.OtherStreamsCanTrip` | src/runtime/native_worker.cpp:1313-1324 | Every other stream has a cutting into reads of at most 1024 bytes that trips it, even when all its lines are short. |
| `CasePolicy.SuccessContract` | src/validation/c2_case_policy.cpp:5-16 | A run accepted as "success" consumed exactly one token, had at least one heartbeat accepted, none refused, and was never cancelled. |
| `CasePolicy.CancelledContracts` | src/validation/c2_case_policy.cpp:17-31 | Accepted as "watchdog-cancel": one token consumed and a heartbeat refused or the job aborted by the authority watchdog; "heartbeat-loss": timed out, one token consumed, none refused; "post-context-telemetry-loss": admission rejected, nothing consumed, lease not given back. Free text in a rejection cannot pass for another case. |
| `CasePolicy.OkMeansActive` | src/runtime/native_worker.cpp:1451-1474 | The final result is ok only if the protocol ended Active without a failure, and reports a protocol reason only if it was the recorded one. |
| `CasePolicy.FinalizedKeeps` | src/governor/gpu_admission_session.cpp:624-672 | End of run and finalize_cleanup keep the session invariant and the consumed tokens. |
| `CasePolicy.FinalizedIsFinalizeCleanup` | src/governor/gpu_admission_session.cpp:652-672 | The history-keeping steps the case theorems speak of leave the session exactly as the modelled end of run followed by finalize_cleanup. |
| `CasePolicy.UnheardNeverCleaned` | src/governor/gpu_admission_session.cpp:634-644 | A run whose token was consumed but that never had a heartbeat accepted is not Cleaned, whatever flags the worker run ends with. |
| `CaseReachability.SuccessIsReachable` | src/validation/c2_case_policy.cpp:14-16 | Every session with a freshly bound worker, every piece of evidence about it that Stage B and the watchdog themselves accept, and every configuration (evidence required or not) the worker's numbers suffice for: three honest lines lead to a run accepted as "success", at any cleanup time. |
| `CaseReachability.ActiveIsReachable` | src/runtime/native_worker.cpp:1118-1277 | The three lines: context, token, heartbeat, answered by the evaluators, lead to Active with one heartbeat accepted, under every such configuration. |
| `CaseReachability.SomethingSuffices` | src/runtime/native_worker.cpp:1227-1251 | Some numbers suffice for a configuration if and only if it does not require evidence or its expected payload is positive and within its maximum. |
| `CaseReachability.UnpaidNeverSucceeds` | src/runtime/native_worker.cpp:1218-1250 | Under any other configuration no run at all is accepted as "success". |
| `CaseReachability.ActiveRun` | src/governor/gpu_admission_session.cpp:234-339 | As session calls: every run whose session accepts the evidence extends by Stage B, issue, store, take, consume and a watchdog sample, decided by the evaluators, to WatchdogActive. |
| `CaseReachability.BoundRun` | src/governor/gpu_admission_session.cpp:181-232 | A run from a new session, through Stage A's own answer to a concrete request, to a bound worker whose evidence is accepted. |
| `ExampleRuns.SuccessExists` | src/validation/c2_case_policy.cpp:14-16 | An accepted success from that run under a configuration that requires evidence, so the success contract speaks of something. |
| `ExampleRuns.CleanedRunExists` | src/governor/gpu_admission_session.cpp:777-818 | A closed run from a new session to Cleaned in which Stage A, Stage B and the watchdog all decide for themselves. |
| `ExampleRuns.AbortedRunExists` | src/governor/gpu_admission_session.cpp:691-713 | A closed run to JobAbortRequired: the watchdog refuses a sample of a dead worker and the exit bound passes. |
| `ExampleRuns.LateExitExists` | src/governor/gpu_admission_session.cpp:624-642 | That run extends to the late WorkerExited of LateAbortCanExit. |
| `ExampleRuns.HiddenCleanedRunExists` | src/governor/gpu_admission_session.cpp:215-221 | The Cleaned run extends to the Quarantined report of LateCallsHideCleaned, lease given back. |
| `ExampleRuns.ZeroStampRunExists` | src/governor/gpu_admission_session.cpp:786-797 | A closed run whose clock reads zero once and whose lease is given back long after the cancellation bound. |
| `SessionRuns.RunKeepsInv` | src/governor/gpu_admission_session.cpp:181-818 | The session invariant (receipts chained, lease and state agree, at most one token issued and consumed, abort and release counted) holds in every run of public and private calls. |
| `SessionRuns.AdmittingStatesInOrder` | src/governor/gpu_admission_session.cpp:181-339 | In every run the states LeaseHeld to WatchdogActive are entered in order, none skipped, none seen again once left, also after Cleaned, Quarantined or FailedClosed. |
| `SessionRuns.CallRespectsOrder` | src/governor/gpu_admission_session.cpp:181-818 | One call stays, advances by one, or leaves the admitting states for good. |
| `SessionRuns.ReleaseIsCleaned` | src/governor/gpu_admission_session.cpp:777-818 | The registry entry is given back by exactly the steps that enter Cleaned; each had one consumed token, all six evidence flags, both hashes, the cleanup deadline met, and every recorded cancellation within the cleanup bound unless it was stamped with time zero (ReleaseHonoursCancel says exactly when that matters, OrderedReleaseHonoursCancel that it cannot with an ordered clock). |
| `SessionRuns.UnspentNeverCleaned` | src/governor/gpu_admission_session.cpp:762-818 | Once outside the admitting states without a consumed token, never Cleaned and never released. |
| `SessionRuns.RefusedStageBNeverCleaned` | src/governor/gpu_admission_session.cpp:234-261 | Whatever made a Stage B call end outside PostContextAdmitted (evaluator, wrong state, wrong identity), the session is never Cleaned later, its lease is not given back after it and no token is consumed after it; before a token was issued, never at all. |
| `SessionRuns.FailureIsFinal` | src/governor/gpu_admission_session.cpp:674-818 | Once FailedClosed or Quarantined, whether or not a token was consumed or the lease is still live: never Cleaned again, never released, no token consumed. |
| `SessionRuns.DoomedStays` | src/governor/gpu_admission_session.cpp:181-818 | The step behind it, for every call. |
| `SessionRuns.WorldAllows` | src/governor/admission_token.cpp:173-222 | What the run theorems assume of presented tokens holds wherever session and token world agree: an active token object carrying the session issuer's id is one that issuer issued. |
| `SessionTokens.JointRunKeepsMirror` | src/governor/gpu_admission_session.cpp:234-316 | In every joint run of a session and any number of other issuers, receipts, moves and consumers, interleaved also inside issue_token, the session's issuer, its issued tokens and its receipt with its flag agree with the token world. |
| `SessionTokens.SessionInWorldRuns` | src/governor/gpu_admission_session.cpp:181-818 | So the session's part of every joint run is a run in the sense of the run theorems, with nothing assumed about tokens. |
| `SessionTokens.ClaimInWorld` | src/governor/admission_token.cpp:98-171 | A claim is won if and only if the receipt's flag was clear, and then mints exactly one token of that issuer. |
| `SessionTokens.IssueIsNeverStuck` | src/governor/gpu_admission_session.cpp:263-288 | Wherever they agree the session's issue_token can begin, and once begun can end. |
| `SessionClock.OrderedReleaseHonoursCancel` | src/governor/gpu_admission_session.cpp:777-818 | In every run whose clock never runs backwards, a lease is given back only if its cancellation, if any, was stamped at a nonzero time no older than the cleanup bound: no exception. |
| `SessionClock.StampsAreNonzero` | src/governor/gpu_admission_session.cpp:318-339 | With such a clock no cancellation is ever stamped with zero, since a token was issued at a nonzero time before. |
| `SessionClock.ReleaseHonoursCancel` | src/governor/gpu_admission_session.cpp:786-797 | For any clock: the cancellation bound is kept if and only if the stamp is not zero or the time is still below the bound. |
| `SessionClock.ZeroStampEscapes` | src/governor/gpu_admission_session.cpp:786-797 | From every WatchdogActive run a refused sample at time zero, end of run, cleanup begun and done reach Cleaned at any nonzero time. |
| `SessionRuns.AwaitIsBounded` | src/governor/gpu_admission_session.cpp:674-721 | "Await" is answered only before the exit bound, and past the acknowledgement bound only if an acknowledgement arrived in time. |
| `SessionRuns.AbortAnsweredAtMostOnce` | src/governor/gpu_admission_session.cpp:691-713 | AbortJob is answered at most once in the life of a session. |
| `SessionRuns.AbortedRunExits` | src/governor/gpu_admission_session.cpp:723-746 | An aborted session reaches WorkerExited if and only if record_job_abort sees an empty tree within the cleanup bound, or the worker run ends with an observed exit and an empty tree. |
| `SessionRuns.LateAbortCanExit` | src/governor/gpu_admission_session.cpp:624-642 | The second way has no time bound: every aborted run extends to WorkerExited however late. |
| `SessionRuns.LateCallsHideCleaned` | src/governor/gpu_admission_session.cpp:215-221 | Every run that was Cleaned extends to one that reports Quarantined although its lease was given back, so the state alone does not tell. |
| `SessionWorld.ExecutionKeepsInv` | src/governor/exclusive_gpu_lease.cpp:76-131 | With any number of sessions interleaved, the registry holds exactly the adapters held by a live lease or quarantined. |
| `SessionWorld.UncleanedAdapterIsGone` | src/governor/exclusive_gpu_lease.cpp:104-165 | After any end but Cleaned (destroyed, lease given up, FailedClosed or Quarantined even with the lease still live), acquiring that adapter fails for the rest of the process, and the end stays one. |
| `SessionWorld.OnlyCleanedFreesAdapter` | src/governor/gpu_admission_session.cpp:777-818 | An adapter leaves the registry only in a step of its one holder that enters Cleaned properly, and is then free. |
| `SessionWorld.AdapterIsExclusive` | src/governor/exclusive_gpu_lease.cpp:133-165 | At most one session holds an adapter at any time. |
| `SlotRuns.SlotRun` | src/governor/gpu_admission_session.cpp:181-818 | Each session of an interleaved execution is a run of its own calls, so every theorem over runs holds of it; an ordered clock stays ordered. |
| `SlotRuns.FreedAdapterHonoursCancel` | src/governor/gpu_admission_session.cpp:777-818 | Under any interleaving with an ordered clock, an adapter becomes free only if its holder's cancellation is within the cleanup bound. |
| `SlotRuns.FailedSlotNeverCleaned` | src/governor/gpu_admission_session.cpp:674-818 | Under any interleaving a failed or quarantined session stays so and never gives its lease back. |
| `SessionEvidence.AcceptedHeartbeatKeepsChain` | src/governor/supervisor_watchdog.cpp:138-171 | In every run, a heartbeat that keeps the work going has watchdog cap ≤ Stage B cap ≤ Stage A cap ≤ tier ≤ ceiling ≤ 16 GiB, and leaves free by CUDA and by DXGI the admitted reserve (at least 1 GiB) plus all growth up to that cap. |
| `SessionEvidence.PreCallAllowed` | src/governor/gpu_admission_session.cpp:207-232 | Whatever the request, Stage A hands the session a receipt the run theorems may assume. |
| `SessionEvidence.PostCallAllowed` | src/governor/gpu_admission_session.cpp:234-261 | Likewise Stage B in every reachable session state. |
| `GpuSession.GpuAdmissionSession.AdmitPreContext` | src/governor/gpu_admission_session.cpp:207-232 | Stage A: the new state is that of the model for every old state; admitted if and only if PreContextAdmitted. |
| `GpuSession.GpuAdmissionSession.BindOwnedWorker` | src/governor/gpu_admission_session.cpp:181-199 | Binding needs PreContextAdmitted and complete containment; otherwise fails closed. |
| `GpuSession.GpuAdmissionSession.AdmitPostContext` | src/governor/gpu_admission_session.cpp:234-261 | Stage B on the session's own Stage A receipt; anything out of order fails closed. |
| `GpuSession.GpuAdmissionSession.IssueToken` | src/governor/gpu_admission_session.cpp:263-288 | Issues through the session's issuer and the receipt's own flag; the token returned is the one the model mints. |
| `GpuSession.GpuAdmissionSession.StorePendingToken` | src/governor/gpu_admission_session.cpp:500-504 | The issued token is kept for the worker. |
| `GpuSession.GpuAdmissionSession.TakePendingToken` | src/governor/gpu_admission_session.cpp:508-523 | The token returned is the pending one if its id is the one asked, and none otherwise; any other id fails closed. |
| `GpuSession.GpuAdmissionSession.ConsumeToken` | src/governor/gpu_admission_session.cpp:290-316 | Consumption succeeds exactly as in the model and only then the state is TokenConsumed. |
| `GpuSession.GpuAdmissionSession.EvaluateWatchdogSample` | src/governor/gpu_admission_session.cpp:318-339 | The watchdog decides on this session's receipt and worker; a refused sample requests cancellation as of its evaluation time, one out of order fails closed. |
| `GpuSession.GpuAdmissionSession.CooperativeCancelRequested` | src/governor/gpu_admission_session.cpp:610-617 | Cancellation is stamped only from TokenConsumed or WatchdogActive. |
| `GpuSession.GpuAdmissionSession.AdvanceCancellation` | src/governor/gpu_admission_session.cpp:674-721 | State and answer of every branch of the cancellation clock. |
| `GpuSession.GpuAdmissionSession.RecordJobAbort` | src/governor/gpu_admission_session.cpp:723-746 | WorkerExited only from JobAbortRequired, in time, with an empty tree; otherwise Quarantined. |
| `GpuSession.GpuAdmissionSession.RecordNormalWorkerExit` | src/governor/gpu_admission_session.cpp:748-760 | Recorded if and only if the time is nonzero, the state WatchdogActive with a receipt, and the tree empty; then WorkerExited, otherwise (unless the time is zero) the lease is quarantined. |
| `GpuSession.GpuAdmissionSession.EndWorkerRun` | src/governor/gpu_admission_session.cpp:624-648 | The end of the run records the flags, drops the pending token, and quarantines state and lease when exit or empty tree is missing. |
| `GpuSession.GpuAdmissionSession.StartCleanup` | src/governor/gpu_admission_session.cpp:762-775 | Cleanup begins only after WorkerExited, or FailedClosed without a worker. |
| `GpuSession.GpuAdmissionSession.CleanupOwnedResources` | src/governor/gpu_admission_session.cpp:777-818 | Receipts, worker and lease are dropped; Cleaned if and only if evidence is complete and in time, and only then the registry entry goes. |
| `GpuSession.GpuAdmissionSession.FinalizeCleanupSession` | src/governor/gpu_admission_session.cpp:652-672 | begin_cleanup then cleanup_owned on the flags recorded at the end of the run. |
| `GpuSession.GpuAdmissionSession.Destroy` | src/governor/gpu_admission_session.cpp:167-173 | Destruction frees the adapter only when Cleaned. |
| `GpuLease.AcquireLease` | src/governor/exclusive_gpu_lease.cpp:133-165 | In-process exclusion first: the registry gains the adapter if and only if a lease is returned. |
| `GpuLease.ExclusiveGpuLease.Quarantine` | src/governor/exclusive_gpu_lease.cpp:104-109 | The handle is given up, the registry entry stays. |
| `GpuLease.ExclusiveGpuLease.Release` | src/governor/exclusive_gpu_lease.cpp:111-131 | The registry entry goes if and only if the lease was held. |
| `GpuLease.ExclusiveGpuLease.MoveFrom` | src/governor/exclusive_gpu_lease.cpp:76-88 | Moving releases the target's own lease, takes the source's and leaves the source empty; moving onto itself changes nothing. |
| `TokenWorld.ReceiptMintsAtMostOnce` | src/governor/admission_token.cpp:98-171 | Under any interleaving of the atomic steps of any number of issuers and receipt copies, no receipt mints two tokens, and its flag is set exactly when it has minted: a failed issue burns nothing. |
| `TokenWorld.TokenSpentAtMostOnce` | src/governor/admission_token.cpp:173-222 | No token is consumed twice; a consumed one was minted, for the same cell and worker, with the receipt's cap, and no later than the receipt's evaluation plus its guard age. |
| `TokenWorld.RunKeepsInv` | src/governor/admission_token.cpp:17-222 | The invariant of the interleaved world (issuers, receipts, objects, consumers in flight) holds after every step. |
| `TokenWorld.PendingCallsCanFinish` | src/governor/admission_token.cpp:159-222 | A call once begun can always take its last step. |
| `TokenWorld.ActiveTokenIsItsIssuers` | src/governor/admission_token.cpp:98-222 | An active token object that carries an issuer's id was minted by that very issuer. |
| `AdmissionToken.MintIsFaithful` | src/governor/admission_token.cpp:105-170 | A token issued carries the receipt's cell and cap and expires within the guard age of the receipt's evaluation; no addition overflows. |
| `AdmissionToken.StageBReceiptIsIssuable` | src/governor/admission_token.cpp:105-113 | A receipt made by Stage B is refused as invalid only by an issuer with id zero. |
| `AdmissionToken.ReceiptFlag.ConsumeForToken` | src/governor/supervisor_admission.cpp:207-212 | The shared flag is won by the first caller only. |
| `AdmissionToken.TokenObject.MoveFrom` | src/governor/admission_token.cpp:50-68 | A move transfers fields and activity and leaves the source inactive. |
| `AdmissionToken.TokenIssuer.FindUsed` | src/governor/admission_token.cpp:142-148 | The search over the used-receipt array finds an id if and only if it was used. |
| `AdmissionToken.TokenIssuer.Issue` | src/governor/admission_token.cpp:98-171 | Verdict, token, counter, used list and receipt flag after a call are exactly those of the specification; a refused call changes none of them. |
| `AdmissionToken.TokenIssuer.Consume` | src/governor/admission_token.cpp:173-222 | Consumed if and only if the token is active, of this issuer, for this cell and worker, and in time; an active token of this issuer is spent whatever the verdict, a foreign one is left alone. |
| `SupervisorAdmission.StageAReceiptSound` | src/governor/supervisor_admission.cpp:406-587 | Every Stage A receipt is well formed: 0 < peak ≤ cap ≤ tier ≤ ceiling ≤ 16 GiB, reserve at least 1 GiB and a tenth of the live capacity, and cap plus reserve fits ceiling, device, budget and unused budget. |
| `SupervisorAdmission.StageACapacityExact` | src/governor/supervisor_admission.cpp:493-525 | The capacity test is that closed inequality, for every positive peak. |
| `SupervisorAdmission.RoomierTelemetryKeepsCapacity` | src/governor/supervisor_admission.cpp:493-525 | For the capacity test alone, with more memory reported an admission survives if and only if the larger reserve still fits under the ceiling and in the unused budget. |
| `SupervisorAdmission.RoomierTelemetryKeepsAdmission` | src/governor/supervisor_admission.cpp:406-587 | For Stage A as a whole: with roomier telemetry of the same adapter an admitted request stays admitted if and only if the larger reserve still fits, and is otherwise refused for its peak and nothing else. |
| `AdmissionExample.RoomierTelemetryCanReject` | src/governor/supervisor_admission.cpp:493-525 | A concrete request Stage A admits, and refuses for its peak when the same adapter reports more memory. |
| `SupervisorAdmission.StageAExactly` | src/governor/supervisor_admission.cpp:406-587 | Stage A admits if and only if the request meets every condition, written as inequalities over unbounded integers: no guard missing, none too many. |
| `SupervisorAdmission.StageBExactly` | src/governor/supervisor_admission.cpp:589-765 | Stage B likewise, including the receipt it continues, the owned-memory evidence and both live capacities. |
| `SupervisorAdmission.RoomierTelemetryKeepsStageB` | src/governor/supervisor_admission.cpp:589-765 | With roomier telemetry of the same adapter an admitted follow-up stays admitted if and only if the telemetry shows at least the use the worker owns and the larger reserve still fits under the ceiling, and is otherwise refused for exactly that. |
| `AdmissionExample.RoomierTelemetryCanRejectStageB` | src/governor/supervisor_admission.cpp:589-765 | A concrete follow-up Stage B admits, and refuses when the adapter reports more memory, and when it reports no use. |
| `SupervisorWatchdog.WatchdogExactly` | src/governor/supervisor_watchdog.cpp:78-209 | The watchdog continues work if and only if the sample meets every condition. |
| `AdmissionExample.HostSaysYes` | src/governor/host_admission.cpp:40-186 | A concrete machine host admission accepts. |
| `AdmissionExample.StageASaysYes` | src/governor/supervisor_admission.cpp:406-587 | A concrete request and the exact Stage A receipt it earns. |
| `AdmissionExample.StageBSaysYes` | src/governor/supervisor_admission.cpp:589-765 | A concrete follow-up and the exact Stage B receipt. |
| `AdmissionExample.WatchdogSaysYes` | src/governor/supervisor_watchdog.cpp:78-209 | A concrete sample the watchdog continues on. |
| `SupervisorAdmission.ReconcileOwnedCurrent` | src/governor/supervisor_admission.cpp:386-402 | The loop returns the exact sum of the owned categories, or nothing if it passes 64 bits. |
| `SupervisorAdmission.PredictedPeak` | src/governor/supervisor_admission.cpp:310-321 | The predicted peak is the exact, positive sum of the six categories, or nothing if and only if it passes 64 bits. |
| `SupervisorAdmission.StageAReceiptAcceptable` | src/governor/supervisor_admission.cpp:606-623 | Every Stage A receipt meets Stage B's own clauses about receipts. |
| `SupervisorAdmission.StageBReceiptSound` | src/governor/supervisor_admission.cpp:589-765 | Every Stage B receipt is well formed and refines the Stage A receipt: cap no larger, reserve no smaller, all else carried over; free memory by both sources covers reserve and growth. |
| `SupervisorAdmission.StageBCapacityExact` | src/governor/supervisor_admission.cpp:678-717 | Stage B's capacity test is the closed inequality. |
| `SupervisorWatchdog.AcceptedSampleKeepsReserve` | src/governor/supervisor_watchdog.cpp:78-209 | An accepted sample keeps owned use under a cap within the admitted one, both headrooms above reserve plus growth, and deadline and temperature in bounds. |
| `SupervisorWatchdog.WatchdogCapacityExact` | src/governor/supervisor_watchdog.cpp:152-169 | The watchdog's cap test is the closed inequality over the admitted reserve. |
| `SupervisorWatchdog.WatchdogMonotone` | src/governor/supervisor_watchdog.cpp:128-171 | For telemetry of the same machine reporting at least as much room, continued work continues if and only if that telemetry shows at least the use the worker itself owns; the cap is then no lower, and the 64-bit guard never decides. |
| `AdmissionExample.IdleTelemetryCancels` | src/governor/supervisor_watchdog.cpp:128-137 | A concrete sample that is continued, and cancelled when the telemetry shows no use at all. |
| `HostAdmission.HostAdmissionSound` | src/governor/host_admission.cpp:40-186 | Admission implies usable telemetry and policy, and required plus reserve ≤ available for memory and for commit, with reserves above every floor and share. |
| `HostAdmission.HostAdmissionComplete` | src/governor/host_admission.cpp:40-186 | Admission is refused only when no reserve meeting the floors and shares leaves room; the reserves computed are the least ones. |
| `HostAdmission.HostExactly` | src/governor/host_admission.cpp:40-186 | Admitted if and only if telemetry and policy are usable, the pinned share is within its cap and some reserve above all floors and shares leaves room; the three evaluators' exact conditions are stated with this. |
| `HostAdmission.TighteningNeverAdmits` | src/governor/host_admission.cpp:88-186 | What a tighter policy or the evidence lane admits, the looser one admits too, if and only if it is not the development lane asked for promotion. |
| `HostAdmission.StricterLaneCanAdmit` | src/governor/host_admission.cpp:176-180 | A concrete promotion request refused in the development lane and admitted in the evidence lane. |
| `CheckedArithmetic.CheckedBasisPoints` | src/governor/checked_arithmetic.cpp:41-64 | The exact floor or ceiling of value·bp/10000, without overflow for bp ≤ 10000, nothing above. |
| `CheckedArithmetic.CheckedAdd` | src/governor/checked_arithmetic.cpp:13-19 | The exact sum, or nothing if and only if it passes 64 bits. |
| `CheckedArithmetic.CheckedMultiply` | src/governor/checked_arithmetic.cpp:21-27 | The exact product, or nothing if and only if it passes 64 bits. |
| `CheckedArithmetic.CheckedCeilDivide` | src/governor/checked_arithmetic.cpp:29-39 | The exact ceiling of the quotient, or nothing for a zero divisor. |
| `Sha256Streaming.Sha256Stream.Update` | src/benchmark/sha256.cpp:66-95 | For any data: refused if and only if the total would pass 64 bits; otherwise the message grows by exactly the data, the state being the fold over complete blocks and the buffer the tail. |
| `Sha256Streaming.Sha256Stream.Finish` | src/benchmark/sha256.cpp:97-122 | The digest is that of FIPS 180-4 for the whole message, or none if and only if its bit length passes 64 bits; the stream itself is unchanged. |
| `Sha256Streaming.Sha256Stream.constructor` | src/benchmark/sha256.cpp:57-64 | A new stream stands for the empty message. |
| `Sha256Streaming.Sha256Stream.FillBuffer` | src/benchmark/sha256.cpp:75-85 | Taking the front of the data into the buffer, as far as the block reaches, keeps the invariant, for any amount of data. |
| `Sha256Streaming.Sha256Stream.CompleteBlock` | src/benchmark/sha256.cpp:81-84 | Compressing the full buffer leaves the message unchanged and the buffer empty. |
| `Sha256Streaming.Close` | src/benchmark/sha256.cpp:102-117 | End marker, zeros and length compress one block, or two when the length no longer fits. |
| `Sha256Streaming.HashByBlocks` | src/benchmark/sha256.cpp:102-117 | The one or two blocks so closed give the hash of section 5.1.1 padding followed by section 6.2.2 computation. |
| `Sha256Streaming.PutLength` | src/benchmark/sha256.cpp:112-116 | The length bytes are the big-endian bit count. |
| `Sha256Streaming.HexText` | src/benchmark/sha256.cpp:118-120 | Eight lower-case hexadecimal digits per word, in order. |
| `Sha256.ProcessBlock` | src/benchmark/sha256.cpp:37-55 | One block in place is the compression of section 6.2.2. |
| `Sha256.ExpandWords` | src/benchmark/sha256.cpp:37-43 | The two expansion loops fill the message schedule. |
| `Sha256.LoadWords` | src/benchmark/sha256.cpp:38 | The first loop joins the block's bytes to the first sixteen words. |
| `Sha256.ExtendWords` | src/benchmark/sha256.cpp:39-43 | The second loop computes the rest. |
| `Sha256.RotationsAgree` | src/benchmark/sha256.cpp:34-36 | Shift-and-or rotation gives the six sigma functions of section 4.1.2. |
| `Sha256Constants.RoundConstantsAreRoots` | src/benchmark/sha256.cpp:24-33 | All 64 round constants are the cube roots of the first 64 primes to 32 fractional bits (section 4.2.2). |
| `Sha256Constants.InitialWordIsRoot` | src/benchmark/sha256.cpp:58-60 | The eight initial words are the square roots of the first eight primes (section 5.3.3). |
| `Sha256File.HashBounded` | src/benchmark/sha256.cpp:416-437 | However the file arrives in reads: too large if and only if the bytes before the first empty read pass the maximum, then read failure, then the digest of exactly those bytes. |
| `Sha256File.DigestIsEvidence` | src/governor/gpu_admission_session.cpp:19-27 | Every digest is what the session accepts as an evidence hash. |
| `Sha256File.DigestsAgree` | src/benchmark/sha256.cpp:118-120 | Two digest texts are equal if and only if the hash values are. |
| `WindowsArgv.SplitUndoesBuild` | src/runtime/native_worker.cpp:638-646 | Splitting the built command line by the C runtime rules gives back executable and arguments if and only if no element holds a NUL and the executable has no quote and, if it needs quoting, no trailing backslash; arguments may hold anything else. |
| `WindowsArgv.QuotedScans` | src/runtime/native_worker.cpp:50-79 | A quoted argument is read back as itself, whatever it holds, and the scan stops right after it. |
| `WindowsArgv.QuoteArgument` | src/runtime/native_worker.cpp:50-79 | The loop with its running backslash count refines the quoting function. |
| `WindowsArgv.BuildCommandLine` | src/runtime/native_worker.cpp:638-646 | The joining loop refines the command line function. |
| `WindowsArgv.SplitOfCommandLine` | src/runtime/native_worker.cpp:638-646 | What the split gives when the executable has no quote: trailing backslashes of a quoted executable come back doubled, all arguments unchanged. |
| `WindowsArgv.TrailingBackslashDoubles` | src/runtime/native_worker.cpp:76-78 | A concrete executable that comes back with one backslash too many. |
| `FlatJsonLaws.PrintingIsCanonical` | src/benchmark/kernel_benchmark_manifest.cpp:88-107 | For every accepted text with a field, printing its map and reading it again gives the same map with the same kinds; texts with the same fields print the same. |
| `FlatJsonLaws.RoundTripExactly` | src/benchmark/kernel_benchmark_manifest.cpp:88-107 | A non-empty map survives printing and reading if and only if its texts are ones the reader can produce. |
| `FlatJsonLaws.PrintedIsRead` | src/benchmark/flat_json.cpp:164-216 | Every such map comes back as it was. |
| `FlatJsonLaws.ReadIsPrintable` | src/benchmark/flat_json.cpp:164-216 | Whatever the reader accepts is a sorted map without duplicate keys that can be printed. |
| `FlatJsonLaws.EscapeReads` | src/telemetry/telemetry_jsonl.cpp:42-67 | Reading a string body undoes json_escape and stops at the closing quote. |
| `FlatJsonLaws.InsertKeeps` | src/benchmark/flat_json.cpp:195-198 | Inserting a new key keeps the map sorted and adds exactly that field. |
| `FlatJsonLaws.SortedIsCanonical` | src/benchmark/kernel_benchmark_manifest.cpp:93-104 | A map has one sorted sequence of fields. |
| `FlatJsonLaws.RawControlIsRefused` | src/telemetry/telemetry_jsonl.cpp:61-63 | A concrete key with a control character that is printed raw and then refused. |
| `FlatJsonReader.ParseFlatJsonObject` | src/benchmark/flat_json.cpp:164-216 | The position loop gives exactly the specified map or error, duplicates included. |
| `FlatJsonReader.ParseJsonString` | src/benchmark/flat_json.cpp:27-75 | The string loop gives the specified text and stops at the specified position, or fails exactly when it should. |
| `FlatJsonReader.ParseJsonLiteral` | src/benchmark/flat_json.cpp:77-118 | String, boolean or number with the specified kind, text and end. |
| `FlatJsonReader.SkipWs` | src/benchmark/flat_json.cpp:20-25 | The position moves to the first character that is no space. |
| `FlatJsonReader.JsonEscape` | src/telemetry/telemetry_jsonl.cpp:42-67 | The escaping loop refines the escaping function. |
| `FlatJsonReader.Serialize` | src/benchmark/kernel_benchmark_manifest.cpp:88-107 | The printing loop refines the printed form. |
| `GgufContainer.ScanIff` | scripts/inventory-gguf.py:127-160 | A file is accepted with a result if and only if it begins with the encoding of some preamble, metadata and tensor headers that are well formed, distinct in keys and names, within the size limits, with a power-of-two alignment, and the result carries their headers, alignment and least aligned data offset inside the file. |
| `GgufContainer.TensorInfoReencodes` | scripts/inventory-gguf.py:143-160 | The bytes walked are, behind the preamble, the encoding of as many metadata entries as announced with pairwise distinct keys, then that of the headers returned with pairwise distinct names, inside the file; the data offset is the least multiple of the alignment at or after the end. |
| `GgufContainer.ReadPreambleIff` | scripts/inventory-gguf.py:33-47 | The preamble is accepted exactly when it is the encoding of a valid one. |
| `GgufContainer.AlignmentIsPower` | scripts/inventory-gguf.py:141-142 | The bit test accepts exactly the powers of two up to 65536. |
| `GgufTensors.ReadHeadersIff` | scripts/inventory-gguf.py:145-157 | The tensor loop ends with these headers if and only if the bytes are their encoding, they are valid, their names are new and the region is short enough. |
| `GgufTensors.ReadHeaderIff` | scripts/inventory-gguf.py:146-157 | The same for one header: rank 1 to 4, no zero dimension, known type. |
| `GgufMetadata.ReadEntriesIff` | scripts/inventory-gguf.py:130-140 | The metadata loop ends with these entries if and only if the bytes are their encoding, they are valid, their keys are new and the region ends within its limit. |
| `GgufMetadata.ReadValueIff` | scripts/inventory-gguf.py:100-124 | skip_value passes exactly over one encoded value of the given type. |
| `GgufMetadata.ReadAlignmentIff` | scripts/inventory-gguf.py:135-137 | The alignment entry is a 32-bit value and nothing else. |
| `GgufBytes.ReadStringIff` | scripts/inventory-gguf.py:92-97 | A string is read if and only if its length-prefixed encoding stands there, is short enough and is UTF-8. |
| `GgufBytes.ReadIntegerIff` | scripts/inventory-gguf.py:84-89 | An integer is read if and only if its little-endian encoding stands there. |
| `GgufBytes.ReadExactIff` | scripts/inventory-gguf.py:76-81 | Bytes are returned if and only if they stand there, inside the size and the file, or the read is empty and starts behind the end of a file shorter than the size. |
| `GgufBits.PowerOfTwoTest` | scripts/inventory-gguf.py:141-142 | a & (a − 1) is zero exactly for powers of two. |
| `GgufBits.RoundUpIsRoundedUp` | scripts/inventory-gguf.py:158 | Adding alignment − 1 and masking gives a multiple at or after the offset and less than one alignment further. |
| `GgufBits.RoundedUpIsLeast` | scripts/inventory-gguf.py:158 | That multiple is the least, and the only one so near. |
| `GgufScanner.ScanContainer` | scripts/inventory-gguf.py:127-160 | The loops with their sets, lists and running offset refine the specification, errors included. |
| `GgufScanner.ScanMetadata` | scripts/inventory-gguf.py:130-140 | The metadata loop returns the alignment in force and the end of the region, or the specified error. |
| `GgufScanner.ScanHeaders` | scripts/inventory-gguf.py:143-157 | The tensor loop returns the specified headers or error. |
| `GgufScanner.SkipValue` | scripts/inventory-gguf.py:100-124 | skip_value, array loops included, returns the specified offset or error. |
| `GgufSpans.CheckedTensorLength` | scripts/inventory-gguf.py:50-61 | For positive dimensions the exact product decides: overflow, partial block, byte overflow, or the exact length. With a zero: overflow if what precedes the first zero overflows, otherwise a division by zero if and only if a dimension follows it. |
| `GgufSpans.ValidateSpans` | scripts/inventory-gguf.py:64-73 | Accepted if and only if every span is non-empty, in bounds and aligned and no two overlap; a refusal names the first bad span or a pair of neighbours that overlap. |
| `GgufSpans.NeighboursDecide` | scripts/inventory-gguf.py:70-73 | Among non-empty spans with ascending starts, checking neighbours is checking all pairs. |
| `GgufSpans.OrderedKeeps` | scripts/inventory-gguf.py:70 | Sorting makes the starts ascend and keeps disjointness in both directions. |
| `GgufSpans.OrderedIsPermutation` | scripts/inventory-gguf.py:70 | Sorting loses and adds nothing. |
| `KQuant.DecodeQ4K` | src/kernels/ggml_q4_k_reference.cpp:91-127 | Every position p holds, in single precision on the block's own half-precision bits, the closed form of sub-block p mod 256 / 32; refused exactly on the limits. |
| `KQuant.DecodeQ4Block` | src/kernels/ggml_q4_k_reference.cpp:101-122 | One block appends its 256 values in order and touches nothing before. |
| `KQuant.UnpackingUndoesPacking` | src/kernels/ggml_q4_k_reference.cpp:63-77 | Unpacking gives back any eight 6-bit scales and eight 6-bit minimums packed into twelve bytes. |
| `KQuant.PackingUndoesUnpacking` | src/kernels/ggml_q4_k_reference.cpp:63-77 | Packing what any twelve bytes unpack to gives back those bytes. |
| `KQuant.LimitsAreExact` | src/kernels/ggml_q4_k_reference.cpp:15-35 | A decode is allowed if and only if 256 values per block fit a vector and 1024 bytes per block fit the maximum. |
| `KQuantSix.DecodeQ6K` | src/kernels/ggml_q4_k_reference.cpp:129-188 | Every position p holds, in single precision on the block's own half-precision bits, the closed form with the scale of its group of 16; refused exactly on the limits. |
| `KQuantSix.DecodeHalf` | src/kernels/ggml_q4_k_reference.cpp:145-177 | The pointer-walking loop writes the 128 positions of its half and no other. |
| `KQuantSix.WriteFour` | src/kernels/ggml_q4_k_reference.cpp:146-176 | One pass writes its four positions with the values of their quadrants and changes no other. |
| `KQuantSix.WrittenOnce` | src/kernels/ggml_q4_k_reference.cpp:144-182 | Each position belongs to exactly one pass. |
| `KQuantSix.ByPosition` | src/kernels/ggml_q4_k_reference.cpp:165-176 | Half, quadrant and index give the closed form by position; the scale index is position / 16. |
| `KQuantSix.QuantFits` | src/kernels/ggml_q4_k_reference.cpp:147-151 | The 6-bit value less 32 fits the signed byte. |
| `KQuantSix.SixesComeBack` | src/kernels/ggml_q4_k_reference.cpp:152-164 | Four 6-bit values packed into three bytes unpack to themselves. |
| `KQuantSix.BytesComeBack` | src/kernels/ggml_q4_k_reference.cpp:152-164 | Any three bytes come back from packing what they unpack to. |
| `HalfFloat.Fp16ToFloat` | src/kernels/ggml_q4_k_reference.cpp:37-61 | The conversion is exact for all 65536 patterns: same sign, same magnitude also for subnormals, infinities and NaN payloads kept; the single means the same number. |
| `HalfFloat.ShiftUp` | src/kernels/ggml_q4_k_reference.cpp:47-51 | The normalising loop ends after at most ten shifts with the leading bit in place. |
| `HalfFloat.ProductIsExact` | src/kernels/ggml_q4_k_reference.cpp:101-122 | A half times two whole factors whose product is at most 8192 is exact in single precision, both times. |
| `KQuantRounding.Q6NeedsNoRounding` | src/kernels/ggml_q4_k_reference.cpp:165-176 | Every Q6_K value is the exact product over the integers. |
| `KQuantRounding.Q4RoundsOnce` | src/kernels/ggml_q4_k_reference.cpp:107-122 | Every Q4_K value is the exact one rounded once, by the subtraction, hence exact if and only if that has at most 24 significant bits; non-finite factors give non-finite values. |
| `KQuantRounding.Q4CanRound` | src/kernels/ggml_q4_k_reference.cpp:118-119 | A concrete block whose first value is rounded. |
| `SinglePrecision.RoundedIsNearest` | src/kernels/ggml_q4_k_reference.cpp:118-119 | No single-precision number is nearer than the rounded one. |
| `SinglePrecision.RoundedIsExact` | src/kernels/ggml_q4_k_reference.cpp:118-119 | Rounding gives a number of at most 24 significant bits, and leaves exactly those alone. |
| `SinglePrecision.PatternIsRepresentable` | src/kernels/ggml_q4_k_reference.cpp:60 | Every finite single pattern means such a number below 2^128. |
| `SinglePrecision.RepresentableHasPattern` | src/kernels/ggml_q4_k_reference.cpp:60 | And every such number is meant by a pattern. |
| `EvidenceRecords.ValidateRecords` | scripts/evidence-runner.py:261-290 | Accepted if and only if the lines are trials 1..n and one closing non-trial record, all matching the manifest in identity, sequence, outcome, reason and counts, integers being neither booleans nor floats. |
| `EvidenceRecords.BuildBundle` | scripts/evidence-runner.py:302-343 | Builds exactly when the input is n good trials or one failure; what it builds has that shape and agrees with the manifest rules if and only if there are at most 1,000,000 trials. |
| `EvidenceRecords.CheckRecordIff` | scripts/evidence-runner.py:269-288 | One record passes if and only if it is the trial or the closing record its place calls for. |
| `EvidenceRecords.EmitTooMany` | scripts/evidence-runner.py:246-247 | One million and one good trials: the bundle is built, and both of its validations refuse it. |
| `EvidenceRecords.TooManyTrialsAreBuilt` | scripts/evidence-runner.py:302-330 | The input limit lets that many trials through. |
| `EvidenceRecords.ClosingTypeIsFree` | scripts/evidence-runner.py:285-288 | The closing record's type is not checked: any value but "trial" is accepted. |

## Left out

- Win32, DXGI, NVML, PDH calls, process creation, job accounting and pipes: their answers are arguments of the steps.
- Condition variables, memory orders and the threads that bound evidence calls: each atomic operation is one sequentially consistent step; the authority watchdog appears as the flag it sets.
- Parsing a protocol line into fields: a line arrives as the message it reads as.
- C++ nullptr checks and moved-from sessions: the model starts from a live session.
- record_evidence_provider_fail_stop beyond acquiring and quarantining the adapter: its receipt only compares fields.
- Atomic publishing, path checks and file handles: they rest on operating-system semantics.
- The sign of a zero and the kind of a non-finite number in decoded values: zeros are one value, infinities and NaN are one value. The conversion from half precision keeps both.
- UTF-8 decoding to code points: GGUF names and keys are compared as their bytes, which valid UTF-8 determines.
- Python's JSON library and the text of evidence files: records are parsed objects; that printing and parsing them are inverse is taken for granted.
- Timestamps, run identifiers and the fingerprint of the evidence manifest: equality and pattern tests on single fields.
- Offload, quality, profitability and claim policies, the KV ledger, the allocator tracker and the tools' main functions: flat branches or easy sums.
- SupervisedRun.EveryConversation: assumes one caller; interleaved callers are covered by the session theorems, which do not mention the protocol.
- SessionTokens.JointRunKeepsMirror: nobody else uses the session's issuer or its Stage B receipt; both stay inside the session, whose admit_post_context and issue_token are private.
- LineFramer.LinesAreTheSplit: speaks of reads as they come from the pipe; failed reads end the run before any line is taken.
