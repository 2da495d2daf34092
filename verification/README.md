# nfs-rs: a Dafny model of its write, read, close and paging protocols

`nfs-rs` is an NFS client. This project models the parts of it whose correctness
depends on what other parties do in between: a server that restarts in the middle of a
batch, a client that is closed while operations are starting, a directory that is
paged by a server nobody vouches for. Each part is a Dafny module, and each module
states what holds over every run, every order of completion and every reply.

- `StableStorage`, `WriteLog`, `WriteEngine`, `ReadEngine`: the file engine of
  `src/fileio.rs` over a server with stable bytes, a volatile cache and a write verifier
  (sections 3.3.7 and 3.3.21 of RFC 1813). The protocol layer keeps a log of what a call
  does; the log says which WRITEs and COMMITs may be sent and what the caller must be
  told. The central result is `WriteAllWith`: Ok means durable, an error tells the log.
- `Errors`: the error tree of `src/error.rs` and what its walks see.
- `ClientCore`, `ClientCoreSafety`, `ClientCoreRegistry`, `ClientCoreTheorems`,
  `ClientCoreWaits`, `ClientCoreAdmission`, `ClientCoreReport`: the admission, drain and
  close protocol of `src/client_core.rs`, together with the adapter's file map, as an
  interleaving transition system for any number of callers.
- `FileClose`, `Handoff`, `FileCursor`, `GateRegistry`, `GatedWrites`: closing one file,
  passing a detached result to its caller, the relative position, the per-file lock
  registry, and what it does and does not do for the batches on one file.
- `Retry`, `Directory`, `Acl`, `Export` (with `Xdr`): the shared retry budget, the
  directory cursor and its listings, the NFSACL codec and the MOUNT EXPORT list.

## How it is built

Code that changes state step by step is a class or a method with loops, proved against a
specification. Code that several tasks run at once is a transition system on values: a
state, the actions, `Enabled` and `Apply`, where one action is one atomic access, one lock
section or one await. A run is any legal sequence of actions, and a theorem about runs
covers every schedule.

Findings, each proved with the exact condition under which the code does what one would
expect:

- `verify_write_batch` skips replies without a verifier. For the replies of a batch,
  acceptance guarantees durability if and only if every reply short of FILE_SYNC
  carries a verifier; an unlucky batch is accepted with data lost otherwise
  (`WriteEngine.DurableExactlyWithVerifiers`, `WriteEngine.UnnamedReplyLosesData`).
- The counters of `write_all_with` start anew with each pass, so a replay forgets what the
  pass before it got acknowledged. After some WRITE of a call was accepted, the error is
  not marked as uncertain if and only if an earlier COMMIT of the call reported a
  verifier change and the last pass acknowledged nothing and has no uncertain failure
  (`WriteEngine.UnmarkedExactly`). A payload that is acknowledged in full and refused when
  it is replayed is such a call (`WriteEngine.ReplayForgets`), although the server may
  have kept it.
- The gate keeps batches on one file apart, but it does not recall a WRITE. A batch may end
  with a WRITE unanswered, and the server may execute it after a later batch over the same
  bytes has succeeded (`GatedWrites.LateWriteOverturns`). Where replies carry verifiers, a
  byte whose last batch succeeded is that batch's byte in every run of the same batches if
  and only if no batch left an unanswered WRITE over it with another value
  (`GatedWrites.KeptExactly`). A caller can tell: it is so when no batch over the byte
  reported an uncertain error or was cancelled (`GatedWrites.CertainReportsSuffice`, with
  `WriteEngine.UnclearIsReported`).
- `operation_outcome` stops at the first outcome of a combined close failure. It is exact on
  what a single request returns (`Errors.SurfaceTestIsExactOnRequests`). On a combined
  failure it misses uncertainty if and only if a failure ahead of every uncertain one
  carries an outcome that is not uncertain (`Errors.MissedExactly`), as when an operation
  fails before it is sent and the CLOSE after it gets no reply
  (`Errors.CloseReportMissesUncertainty`).
- The plain one-shot channel used for file operations loses a result if and only if the
  schedule cancels its caller after the send; the slot with an acknowledgement never
  does (`Handoff.LostExactlyWhenCancelledLate`, `Handoff.TakenExactlyOnce`).
- A waiter for Closing can still come to see it if and only if Closed has not been stored. A
  guard keeps the client from Closed, so its holder is always in time; a waiter without
  one may be too late, for ever (`ClientCoreWaits.ClosingSeenExactly`,
  `ClientCoreWaits.GuardedWaiterIsInTime`, `ClientCoreWaits.LateWaiterExists`).
- `resume` plus `page` accepts more than the stream: exactly the pages that return to an
  earlier boundary other than the start and the present one. Two such pages keep a caller
  going round for ever (`Directory.PageAcceptsMore`, `Directory.PagesCanCycle`).
- The EXPORT decoder takes any non-zero word as "more" where its comment says 1, and does
  not look at padding. What it consumed is what would be printed if and only if flags
  and padding are canonical (`Export.ReprintExactly`, `Export.FlagIgnored`). The printer cuts
  lengths to 32 bits, so the round trip holds exactly below 2^32 bytes
  (`Export.RoundTripExactly`).
- `truncate` without a size does not look at the uncertainty mark. It cuts at a known position
  if and only if no write lost the position since the last absolute seek; otherwise it
  cuts at the position before the lost write. That is where the write began, except for
  an append to a file whose end was elsewhere
  (`FileCursor.TruncatesWherePositionWasLost`, `FileCursor.TruncateIgnoresTheMark`).

Assumptions: shared accesses are sequentially consistent; a restarted server has a new
verifier; a WRITE is sent once, not replayed by the transport, and executed at most once
after its batch has ended; a file does not change while it is read; the chunk size for
reads is positive, as mount negotiation guarantees; a `Notify` is a generation number
taken when `notified()` is created; machine words are 64 bits wide; adapter opens and
closes run as owned tasks; a key registered without a file is removed only by whoever
registered it. Bytes that others may write while a batch runs are a parameter of the write
engine (`loud`), and its promises are for the other bytes; whatever another mount writes
belongs there, and so does a WRITE that an earlier batch of the same mount left
unanswered. Without such a WRITE over the range the gate sees to it that there are none
from the same mount (`GatedWrites.SoleWriter`); `GatedWrites` knows one mount only. Server
replies, short counts, errors, jitter, the clock and cancellation are arbitrary.

## Model

| member | source | states |
|---|---|---|
| `WriteEngine.WriteAllWith` | src/fileio.rs:210-289 | for every chunk size, order of progress, short write, failure and sequence of restarts, told from the log of the call: every act was allowed where it happened; Ok exactly when the last COMMIT was accepted, and then every byte was acknowledged, every byte with a FILE_SYNC or named reply that nobody else writes survives restarts, and when replies carry verifiers all bytes nobody else writes are durable; an error is the lowest failed offset of the last pass, wrapped as uncertain with the count of its acknowledged bytes unless nothing was acknowledged and nothing may have taken effect, or the COMMIT failure; if any WRITE of the call was not answered, or answered with a count of zero or beyond what it asked, the error is uncertain; every error names what the failed WRITE at the lowest offset of the call, or else its last COMMIT, gave; at most three COMMITs, a verifier change is reported only after the third; absent faults the call fails only after three COMMITs, and not at all if replies carry verifiers and the server does not restart meanwhile; bytes outside the range that nobody else writes are only those the file already had |
| `WriteEngine.WritePass` | src/fileio.rs:224-262 | one pass: its count, receipts, failure and uncertainty mark are exactly the acknowledgements and errors the log holds for the pass, receipts included both ways; nothing is left active, and without a failure every byte is acknowledged and a COMMIT is allowed |
| `WriteLog.SchedulerInvariant` | src/fileio.rs:224-288 | at every moment of a call that keeps the discipline, collected, active and not yet admitted bytes partition the payload with at most eight disjoint active ranges, none longer than a chunk, and COMMIT happens only with no range active, none failed and all admitted |
| `WriteLog.WritesFitChunk` | src/fileio.rs:225-239 | no WRITE of a call is longer than the chunk size the mount gave when its pass began, or one byte if that was zero |
| `WriteLog.DoSound` | src/fileio.rs:224-262 | each admission, WRITE, collection and COMMIT that is allowed keeps the partition and the record of acknowledgements and errors |
| `WriteLog.NothingAfterFailure` | src/fileio.rs:244-271 | once a failed range has been collected nothing is admitted and nothing committed in the rest of the call, and its error stays on record |
| `WriteLog.FailedWriteIsRecorded` | src/fileio.rs:177-208 | every WRITE of a call that was not accepted is on record at the end with the error its range reports |
| `WriteLog.FailureExplained` | src/fileio.rs:186-203 | what a failed WRITE is reported as: a missing authoritative reply and a count that cannot be leave the outcome open and name their cause, the latter with the bytes of its range acknowledged before; a refusal is passed on as it is |
| `WriteLog.ErrorHasCause` | src/fileio.rs:244-256 | every error on record at any moment of a call is that of a failed WRITE of the call, begun where the error is filed |
| `WriteEngine.UnclearIsReported` | src/fileio.rs:291-321 | one WRITE anywhere in a call that was not answered, or answered with a count that cannot be, makes the returned error uncertain, with the number of acknowledged bytes |
| `WriteEngine.FailureJustified` | src/fileio.rs:244-287 | the error of a call explains the failed WRITE at the lowest offset of the whole call, bare or as the source of an open outcome; if no WRITE failed it is the failure of a COMMIT of the call, with all bytes acknowledged |
| `WriteEngine.AcknowledgedIsUncertain` | src/fileio.rs:291-321 | an error after any byte of the last pass was acknowledged, or after its COMMIT, is uncertain |
| `WriteEngine.UnmarkedExactly` | src/fileio.rs:240-271 | over whole calls: an error after some WRITE was accepted is not marked as uncertain if and only if an earlier COMMIT of the call reported a verifier change and the last pass acknowledged nothing and has no uncertain failure |
| `WriteEngine.ReplayForgets` | src/fileio.rs:240-243 | for every payload and definite error: acknowledged in full, verifier changed at COMMIT, refused on replay is a call that keeps the discipline and returns that bare error |
| `WriteLog.AcksStay` | src/fileio.rs:240-243 | acknowledgements stay on record within a pass: they are gone only after a COMMIT of the call reported a verifier change |
| `WriteEngine.Attempt` | src/fileio.rs:224-286 | one turn of the outer loop: the result told from the log, or another turn exactly when the COMMIT reported a verifier change and fewer than three were made |
| `WriteEngine.StartBatch` | src/fileio.rs:225-243 | the first ranges are admitted, each when the discipline allows it, and the locals say what the log says |
| `WriteEngine.SettleOne` | src/fileio.rs:244-261 | collecting a finished chunk keeps the locals equal to the log; a new range is admitted only without a failure, so either admission advances or one range leaves |
| `WriteEngine.AdmitNext` | src/fileio.rs:257-260 | the next range begins where the last one ended and admission advances |
| `WriteEngine.ResumeOne` | src/fileio.rs:244-252 | one WRITE of one active chunk keeps the locals equal to the log and every earlier acknowledgement, and makes progress |
| `WriteEngine.ResumeChunk` | src/fileio.rs:177-208 | one WRITE of the whole unacknowledged rest of a chunk to its reply: an accepted count extends the chunk by bytes the server promised, anything else leaves its progress and receipts and sets an error that explains the reply, an impossible count included |
| `WriteEngine.FailureReported` | src/fileio.rs:291-321 | what the engine builds from its counters is the lowest failure of the pass, bare exactly when no byte was acknowledged and no sibling is uncertain |
| `WriteEngine.VerifyWriteBatch` | src/mount.rs:2467-2483 | accepts exactly when every reply that is neither FILE_SYNC nor without verifier names the committing instance |
| `WriteEngine.WriteIo.CommitBatch` | src/mount.rs:774-789 | called with exactly the receipts of a complete pass and a range that covers it; no COMMIT when all replies are FILE_SYNC; after acceptance every promised byte whose reply is FILE_SYNC or named and which nobody else writes is settled, whatever the server did before, between and after; with verifiers, without faults and restarts, it fails only if some reply names another instance |
| `WriteEngine.WriteIo.WriteUnstable` | src/fileio.rs:62-68 | allowed only for the unacknowledged rest of one active range; an acknowledged byte that nobody else writes is visible as long as the acknowledging instance lives, and settled if the reply said FILE_SYNC |
| `WriteEngine.CommitSettles` | src/mount.rs:774-789 | a COMMIT by the instance that acknowledged a byte makes it survive every later restart, if nobody else writes it |
| `WriteEngine.NamedBatchIsDurable` | src/mount.rs:2467-2483 | an accepted batch with named replies is durable |
| `WriteEngine.UnnamedReplyLosesData` | src/mount.rs:2476-2478 | for every non-empty payload one reply without verifier and one restart give an accepted batch that is not durable |
| `WriteEngine.DurableExactlyWithVerifiers` | src/mount.rs:2467-2483 | given the replies of a batch that one instance could commit, FILE_SYNC replies from it or an earlier one: every course of events in which it is accepted leaves the payload durable if and only if every reply short of FILE_SYNC carries a verifier |
| `StableStorage.RunKeepsPromise` | src/mount.rs:206-213 | what an acknowledgement promises about a byte holds after any legal run of write-back, restarts, re-executions of the payload and writes by others to other bytes |
| `StableStorage.DurableForever` | src/mount.rs:206-213 | durability outlives every later behaviour of the server in which nobody else writes the range |
| `ReadEngine.ReadChunksWith` | src/fileio.rs:345-408 | for any completion order and short replies, Ok means `fill` took exactly the slice of the file from the offset to the end of the range or of the file, piece behind piece, with its length; on an error every range ahead of the failing one was delivered in full, and the error is the one a READ to the end of that range gave, or `fill` gave for the piece right behind what was delivered; no READ leaves the request or reaches more than eight chunks beyond what had been delivered; an overflowing range is refused and nothing asked |
| `ReadEngine.Deliver` | src/fileio.rs:393-402 | a range is handed to `fill` piece by piece at adjoining offsets; a refusal leaves a prefix and is passed on, and what was delivered is what `fill` took |
| `ReadEngine.ReadIo.Fill` | src/fileio.rs:396-401 | the caller's `fill` takes a piece for its place or refuses it, and the log says which |
| `ReadEngine.ResumeRead` | src/fileio.rs:365-390 | one READ for the whole rest of the range: the pieces stay equal to the file at their place, the range fails exactly with the error of the reply or because the reply is too long, and an empty reply ends it only at the end of the file |
| `ReadEngine.ReadAt` | src/python_adapter.rs:814-856 | a sized read returns that slice; size -1 terminates with exactly the rest of the file; smaller sizes, overflowing ranges and unreadable files are refused and nothing asked; any other error is the one a READ behind the offset gave |
| `ReadEngine.ReadIo.Read` | src/mount.rs:146-151 | an accepted empty reply means the end of the file: an empty READ without EOF is an error |
| `ReadEngine.DurableWritesReadBack` | src/fileio.rs:210-408 | a reader that shows the server's bytes reads back what was durably written |
| `Errors.ContainsUncertainIsSomeNode` | src/error.rs:327-340 | the recursive walk finds an uncertain mutation if and only if some node of the tree is one |
| `Errors.ServerBusyExactly` | src/error.rs:309-326 | an error is backpressure if and only if some node is a temporary rejection and no node anywhere is an uncertain mutation |
| `Errors.SurfaceTestIsExactOnRequests` | src/error.rs:486-520 | after classification of anything one request can return, the surface test sees uncertainty exactly when it is there, which is exactly a mutation sent without authoritative reply |
| `Errors.ClassificationTells` | src/error.rs:486-520 | an error is passed on unchanged exactly when the server answered; otherwise it is the source of an outcome with the request's class and context, whose recovery action is to retry exactly when it is not uncertain, to verify for a mutation and to remount for session control |
| `Errors.SurfaceUncertaintyIsReal` | src/error.rs:385-393 | the surface test never reports uncertainty that is not in the tree |
| `Errors.MissedExactly` | src/error.rs:385-393 | for every combined close failure of request errors, uncertainty is missed if and only if some failure is uncertain and one ahead of every uncertain failure carries an outcome that is not |
| `Errors.FirstOutcomeExactly` | src/error.rs:388-390 | the search finds an uncertain outcome if and only if the first failure that carries an outcome is uncertain, and none if and only if no failure carries one |
| `Errors.CloseReportMissesUncertainty` | src/python_adapter.rs:2149-2163 | an operation that failed before it was sent, combined with a CLOSE that got no reply, is such a failure |
| `ClientCoreTheorems.InvKept` | src/client_core.rs:98-407 | every atomic step of every caller and of the cleanup keeps the whole invariant: counters equal their contributors, phases, drains, wakeups, key bookkeeping and the file map |
| `ClientCoreTheorems.DrainSafety` | src/client_core.rs:285-407 | once both drains are past, no operation guard and no owned task is live, in that state and in every continuation |
| `ClientCoreTheorems.RejectedCallersStillCount` | src/client_core.rs:285-299 | a caller on its way to being rejected is still counted after both drains: a reachable state shows it |
| `ClientCoreAdmission.AdmittedExactly` | src/client_core.rs:285-318 | in every run, a caller of `begin_operation` or `spawn_owned` that is back holds the guard if and only if its second check found the client Ready; on a client that is still Ready it has been admitted |
| `ClientCoreAdmission.ReadyAdmits` | src/client_core.rs:285-318 | in every state where the client is Ready an idle caller gets the guard by its own steps, and exactly the counter changes with it |
| `ClientCoreAdmission.DrainWaits` | src/client_core.rs:112-120 | for either counter a closing client is reachable in which a guard is held and the cleanup is parked on its counter |
| `ClientCoreAdmission.PublishedExactly` | src/client_core.rs:256-264 | in every run, a caller of `publish_resource` that is back has published its key, then and later, if and only if the check under the lock found the client Ready |
| `ClientCoreAdmission.RegisterPublishes` | src/client_core.rs:243-264 | in every run, a call of `register_resource` or of an adapter open that is back on a client that is still Ready has published a key never given out before; the open's key stands for a file, the other for none |
| `ClientCoreAdmission.UnregisterRemoves` | src/client_core.rs:266-276 | in every run, once `unregister_resource` has passed the lock its key is not registered, then and ever after |
| `ClientCoreAdmission.UnregisterNow` | src/client_core.rs:266-276 | while the lock is free the call can go on, exactly its key leaves the registry, and it is on record as removed if it was there |
| `ClientCoreReport.ReportTells` | src/client_core.rs:384-407 | over every run the report, and what every close caller returns, lists exactly the hand-overs and the umount that failed in the run, in order |
| `ClientCoreReport.CloseReturns` | src/client_core.rs:355-368 | once the cleanup is finished every caller of `close` gets to its report by its own steps |
| `ClientCoreReport.CleanupFinishes` | src/client_core.rs:384-407 | past the drains the cleanup comes to its end by its own steps alone, whether they fail or not |
| `ClientCoreTheorems.NoLostWakeups` | src/client_core.rs:103-120 | in every reachable state a parked drain waiter can move once the counter is zero and no decrementer is about to notify; parked close callers can move once the report is announced; Closed is out of reach while any guard is held, so a guarded waiter cannot miss Closing |
| `ClientCoreWaits.ClosingSeenExactly` | src/client_core.rs:195-202 | in every reachable state, a caller inside a wait for Closing can come to see it in some continuation without beginning anew if and only if Closed has not been stored, or it has seen it |
| `ClientCoreWaits.NeverSees` | src/client_core.rs:195-202 | once Closed is stored nobody comes to see Closing in any continuation |
| `ClientCoreWaits.GuardedWaiterIsInTime` | src/client_core.rs:195-202 | a waiter that holds a guard can always come to see Closing |
| `ClientCoreWaits.LateWaiterExists` | src/client_core.rs:195-202 | a waiter for Closing that came after Closed is reachable |
| `ClientCoreSafety.StartingKept` | src/client_core.rs:333-354 | a close that was started and has not spawned its cleanup has a caller on the way to do so |
| `ClientCoreTheorems.Conservation` | src/client_core.rs:243-407 | in every reachable state the handed, waiting and registered keys are, in publication order and without repetition, the published keys that were not unregistered; there is at most one umount, it comes after all hand-overs, and Closed implies it |
| `ClientCoreTheorems.Frozen` | src/client_core.rs:256-264 | nothing is published once the registry has been taken; the report never changes once stored, and every close caller that returns then or later gets it |
| `ClientCoreTheorems.SameReport` | src/client_core.rs:333-368 | any two close callers, at any two moments of a run, return the same report |
| `ClientCoreTheorems.RegistriesAgree` | src/python_adapter.rs:3441-3452 | every registered adapter key is in the file map, and when the client is Closed both registries are empty, across concurrent opens, file closes and client close |
| `ClientCoreSafety.CountedKept` | src/client_core.rs:98-121 | each drain counter equals the number of its guards plus the callers between increment and decrement |
| `ClientCoreSafety.DrainedKept` | src/client_core.rs:370-383 | past a drain nobody holds a guard of it |
| `ClientCoreSafety.DrainAwakeKept` | src/client_core.rs:113-120 | a drain waiter parked on the current generation implies a count that is not zero or a pending notification |
| `ClientCoreSafety.CallersAwakeKept` | src/client_core.rs:355-368 | the same for close callers and lifecycle waiters |
| `ClientCoreRegistry.KeyedKept` | src/client_core.rs:243-276 | published keys stay distinct and conserved, under the registry lock and after it was taken |
| `ClientCoreRegistry.FiledKept` | src/python_adapter.rs:221-236 | every file in the map is registered, waiting for the cleanup, or minded by a caller about to publish, retract or forget it |
| `ClientCoreRegistry.KeepRemove` | src/client_core.rs:266-276 | unregistering removes that key and keeps the order of the others |
| `FileClose.CloseProtocol` | src/python_adapter.rs:705-771 | over every run: CLOSE is sent at most once and has been sent whenever a result is stored, also after a failed flush; from the moment the closing task holds the gate, and in every continuation, no operation is running; all closers at all times return the same result; no closer stays parked after the announcement |
| `FileClose.ResultTells` | src/python_adapter.rs:722-757 | over every run the stored result, and what every closer returns, is exactly the list of the phases that failed in the run, the flush ahead of the CLOSE; a closer returns success if and only if both succeeded |
| `FileClose.CloseCompletes` | src/python_adapter.rs:705-771 | from every state of every run in which a close has begun, the operations inside the gate and the closing task can go on to a stored and announced result |
| `FileClose.CloserReturns` | src/python_adapter.rs:758-770 | after that every waiting closer gets to the result by its own steps |
| `FileClose.OperationAdmitted` | src/python_adapter.rs:680-703 | in every run an operation that has begun is admitted if and only if its last check finds the file open; one that is back from a file that is open and not lost was admitted |
| `FileClose.LostIsRefused` | src/python_adapter.rs:687-697 | in every run an operation on a file whose open state is lost, or that finds the mount recovered since the open, is not admitted |
| `FileClose.InvKept` | src/python_adapter.rs:680-771 | every step of an operation, a closer or the closing task keeps the gate and result discipline |
| `FileClose.SentForever` | src/python_adapter.rs:705-771 | once the closing task is past the gate it stays so, and a stored result never changes |
| `Handoff.TakenExactlyOnce` | src/python_adapter.rs:3783-3842 | over every interleaving of completion, signal, receipt, acknowledgement, timeout and cancellation the result is held by at most one side, is the completed one, and when the owning task is done was taken by exactly one; an error is returned or recorded once and never both, a success is never recorded |
| `Handoff.LostExactlyWhenCancelledLate` | src/python_adapter.rs:3742-3781 | for every schedule the plain channel loses the completed result if and only if the schedule has a cancellation after the send; it never delivers twice, and an error its caller did not get is recorded unless it was lost |
| `Handoff.SlotKeepsWhatChannelLoses` | src/python_adapter.rs:3783-3842 | on the schedule that makes the channel drop an error, the slot passes it to the recorder |
| `FileCursor.FileResource.Read` | src/python_adapter.rs:870-897 | a relative read returns exactly the bytes of the file at the position, up to the size or the end, and moves behind them without saturating; while uncertain, on an unreadable file, for a bad size and for an overflow it is refused and nothing asked; any other error is that of a READ, and an error moves nothing |
| `FileCursor.FileResource.Write` | src/python_adapter.rs:999-1030 | success leaves the position right behind bytes that are durable when replies carry verifiers and nobody else writes there, at the old position or the end of the file; the position becomes uncertain exactly when the error is uncertain, so whenever a WRITE went unanswered or was answered with an impossible count, or the last pass acknowledged a byte; after a failure with some WRITE accepted in any pass it stays unmarked exactly when a replay forgot the acknowledgements; while uncertain, without a size to append at and on an unwritable file nothing is sent; any other error within 64 bits is one the log justifies, and means that a WRITE or COMMIT failed or that three COMMITs were sent |
| `FileCursor.FileResource.WriteComplete` | src/python_adapter.rs:970-990 | all or an error; all is durable when replies carry verifiers and nobody else writes there; an unwritable file and an overflow are refused and nothing sent; any other error is one the log of the call justifies; it is uncertain when a WRITE went unanswered or was answered with an impossible count, or the last pass acknowledged a byte, and after an accepted WRITE in any pass exactly when no replay forgot the acknowledgements |
| `FileCursor.FileResource.Seek` | src/python_adapter.rs:1081-1109 | succeeds exactly when the base is known and the sum fits in 64 bits; while uncertain only an absolute seek works, and it alone clears the mark; a refusal changes nothing |
| `FileCursor.FileResource.Truncate` | src/python_adapter.rs:1032-1070 | success cuts the file at the given size or else at the position the history of the file left, uncertain or not; a failed SETATTR may have cut there too, and an unwritable file is left alone |
| `FileCursor.CutKeepsFront` | src/python_adapter.rs:1042-1056 | a cut keeps what is durable in front of it and leaves nothing to see behind it, whatever the server does afterwards |
| `FileCursor.TruncatesWherePositionWasLost` | src/python_adapter.rs:1032-1041 | after any history that position is known if and only if no write lost it since the last absolute seek; if one did, it is the position before that write, which is where the write began if and only if it was no append or the end of the file was there |
| `FileCursor.TruncateIgnoresTheMark` | src/python_adapter.rs:1032-1041 | one unanswered write, appending or not, leads there |
| `FileCursor.ReadsAreConsecutive` | src/python_adapter.rs:870-897 | in any true history successive relative reads of an unchanged file return consecutive pieces of it, whose concatenation is one slice, and the position stands behind the last |
| `FileCursor.PositionIsWhatWasCovered` | src/python_adapter.rs:870-1030 | over any true history of relative reads and writes the position advances by exactly the length of the texts read, the data written and the bytes confirmed by definite failures, saturating |
| `FileCursor.PositionSinceSeek` | src/python_adapter.rs:870-1109 | in any true history, after a successful seek the position is its result plus exactly the bytes transferred since |
| `FileCursor.BlockedUntilAnchored` | src/python_adapter.rs:870-1109 | while uncertain and until an absolute seek succeeds, every read, write, SEEK_CUR and SEEK_END of a run is refused and nothing moves |
| `FileCursor.UncertainExactly` | src/python_adapter.rs:999-1109 | after a run the position is uncertain if and only if some write lost it, or it was lost at the start, and no absolute seek has succeeded since |
| `GateRegistry.Gates.Enter` | src/fileio.rs:36-59 | joins the one live mutex of the key or registers a new one when there is none, and then purges exactly the entries without users |
| `GateRegistry.Gates.Lock` | src/fileio.rs:36-59 | granted exactly when nobody holds the same key |
| `GateRegistry.Gates.Leave` | src/fileio.rs:36-59 | a released or cancelled user disappears and the registry stays sound |
| `GateRegistry.OneLockPerKey` | src/fileio.rs:36-59 | users share a mutex if and only if they share a key, and at most one of them holds it |
| `GateRegistry.EnteredJoins` | src/fileio.rs:36-59 | entering joins the mutex of whoever is at the key, or takes one nobody has, and drops no entry in use |
| `GatedWrites.SoleWriter` | src/fileio.rs:210-223 | over every interleaving of batches on one file of one mount at most one runs at a time; since it started the server has executed its payload and, of WRITEs left unanswered by ended batches, only bytes the write engine counts as written by others; in its range there are none of those unless an ended batch left a WRITE there with another value |
| `GatedWrites.LaterBatchStays` | src/fileio.rs:156-169 | when replies carry verifiers and no batch is running, a byte whose last batch succeeded is on stable storage with that batch's value, unless an ended batch left an unanswered WRITE over it with another value |
| `GatedWrites.KeptExactly` | src/fileio.rs:156-169 | when replies carry verifiers, for every history of batches and every byte whose last batch succeeded: every run with that history keeps the byte if and only if no batch of it left an unanswered WRITE over the byte with another value |
| `GatedWrites.ThreatComesTrue` | src/fileio.rs:162-163 | after any history, if such a WRITE was left, some run of the same batches with the same reports ends with the byte lost |
| `GatedWrites.LateWriteOverturns` | src/fileio.rs:263-271 | for every offset and two different bytes: a batch that ended uncertain with its WRITE unanswered overturns a later batch over the same byte that succeeded |
| `GatedWrites.CertainReportsSuffice` | src/fileio.rs:291-321 | in every run, if no batch over a byte reported an uncertain error or was cancelled, no unanswered WRITE with another value was left over it |
| `GatedWrites.OrderlyKept` | src/fileio.rs:210-223 | every step of every batch, of the gate and of the server, the late execution of an unanswered WRITE or of a part of it included, keeps this: a running batch sees foreign writes in its range only where it was threatened, and unthreatened bytes outside running ranges are settled when replies carry verifiers |
| `Retry.BudgetBounds` | src/retry.rs:94-133 | over any interleaving on one budget at most 16 calls are granted, all delays drawn total under 61,200 ms, a granted call has slept its whole delay, drawn in its range, and returns before its effective deadline; only a call that was in time spends a retry, and a refusal means the deadline has passed or all sixteen retries are taken |
| `Retry.InvKept` | src/retry.rs:94-133 | each step keeps retry numbers distinct and tied to the delays drawn |
| `Retry.UndisturbedCall` | src/retry.rs:94-133 | on a budget in any state, a call made in time that nobody interrupts is refused at once if and only if all sixteen retries are taken; otherwise it sleeps until its delay or its deadline is over and is granted if and only if the delay is over first |
| `Retry.NestingOnlyTightens` | src/retry.rs:149-238 | along any nesting of scope, with_timeout and inherit the effective deadline never grows and the outermost budget stays in force |
| `Retry.ScopeInstalls` | src/retry.rs:149-170 | inside a scope there is a budget, the one in force or a new one, and every deadline is within sixty seconds of the scope's start, through any nesting without cleanup |
| `Retry.TimeoutsReachInside` | src/retry.rs:172-184 | a timeout bounds every deadline computed inside it, through scopes and detached tasks |
| `Retry.OnlyCleanupLoosens` | src/retry.rs:186-208 | one nesting step enlarges a deadline if and only if it is cleanup and the deadline was closer than cleanup's own bound |
| `Directory.DirectoryCursor.Default` | src/mount.rs:34-42 | a fresh cursor stands at zero and has seen zero |
| `Directory.DirectoryCursor.Resume` | src/mount.rs:47-53 | a resumed cursor has seen zero and its own position |
| `Directory.DirectoryCursor.Advance` | src/mount.rs:83-99 | a page is refused exactly when it is empty without EOF or ends on a seen cookie, and then nothing changes |
| `Directory.DirectoryCursor.Page` | src/mount.rs:62-81 | accepted as by advance; an empty page keeps the requested cookie and verifier together |
| `Directory.AcceptedExactly` | src/mount.rs:83-99 | a cursor accepts a run of pages if and only if no page is empty without EOF and the last cookies of the others are unseen and pairwise distinct |
| `Directory.ListDirectory` | src/nfs3/mod.rs:99-136 | against any server the stream ends; it yields the public names of the replies the server gave, each to a request with the last cookie and the verifier of the reply before it, and their last cookies are non-zero and distinct; a refused page is the last exchange; against an ordered server success yields the whole directory, failure a prefix, and only an empty page without EOF is ever refused |
| `Directory.IntoPage` | src/nfs3/readdirplus.rs:113-129 | one reply becomes its public names and the position behind it, accepted exactly as a resumed cursor accepts it |
| `Directory.ListedExactly` | src/nfs3/readdirplus.rs:113-129 | the public names of a page are those of all its entries but `.` and `..` |
| `Directory.ResumedPagesAreConsecutive` | src/nfs3/readdirplus.rs:113-129 | on an ordered server one page call from a boundary gives the entries behind it and leads to the boundary behind those |
| `Directory.ListByPages` | src/nfs3/readdirplus.rs:113-129 | a caller that follows the page call from the start on an ordered server, each request where the last page pointed, comes to an end; success yields the public names of the whole directory, and only a failed READDIR, with its error, or an empty page without EOF stops it, at a prefix |
| `Directory.PageAcceptsMore` | src/mount.rs:47-99 | every page the stream accepts after any accepted run is accepted by resume plus page with the same next position if it has entries; what is accepted beyond that is characterised exactly |
| `Directory.PagesCanCycle` | src/mount.rs:47-99 | for every length, pages that send each other back and forth are all accepted by a caller that resumes, and from three pages on the stream refuses them |
| `Acl.EncodeAcl` | src/nfs3/acl.rs:273-287 | appends the wire form of exactly the valid lists and leaves the buffer alone otherwise |
| `Acl.DecodeAcl` | src/nfs3/acl.rs:242-271 | an accepted list re-encodes to the consumed bytes; bytes that begin with the form of a valid list give that list; refused bytes begin with none and give a decoding error |
| `Acl.DecodeEntry` | src/nfs3/acl.rs:251-269 | a triple is accepted exactly when it is the form of a valid entry |
| `Acl.ValidEntryExactly` | src/nfs3/acl.rs:238-240 | an entry is valid if and only if it has one of the six tags and any set of the three permissions |
| `Acl.EncodedUnique` | src/nfs3/acl.rs:242-287 | the form is prefix-free: bytes begin with the form of at most one valid list |
| `Acl.DecodeGet` | src/nfs3/acl.rs:222-236 | a reply is accepted exactly when it is status OK, well-formed attributes, the full mask and two valid lists with nothing behind; other statuses map to their errors |
| `Acl.DecodeStatus` | src/nfs3/acl.rs:198-212 | only status 0 passes; known, unsupported and unknown statuses are told apart |
| `Acl.StatusTells` | src/nfs3/acl.rs:198-212 | after classification a status the protocol knows is passed on as an answer under its number, NOTSUPP as unsupported; one it does not know counts as no answer, so a query may be repeated and a change is left open |
| `Acl.SkipAttrs` | src/nfs3/acl.rs:186-196 | passes absent attributes and present ones with all 84 bytes, nothing else |
| `Acl.ReplyPrefixFree` | src/nfs3/acl.rs:222-236 | no accepted reply is a strict prefix of another and a reply has one content |
| `Acl.PrintedIsReply` | src/nfs3/acl.rs:222-236 | a reply printed from any valid lists, with or without attributes, is accepted with that content |
| `Export.DecodeExports` | src/nfs3/export.rs:56-79 | the nested loops terminate on any input, read what the list grammar says, and fail exactly when it fails |
| `Export.DecodeGroups` | src/nfs3/export.rs:66-75 | the inner loop reads the group list and consumes bytes at every turn |
| `Export.DecodeXdrString` | src/nfs3/export.rs:25-43 | reads length, data and padding, and refuses truncated data and bytes that are not UTF-8 |
| `Export.Utf8Exactly` | src/nfs3/export.rs:37-42 | the test for UTF-8 accepts exactly the encodings of sequences of Unicode scalar values |
| `Export.PadAligns` | src/nfs3/export.rs:32 | padding brings a string to a multiple of four bytes |
| `Export.ExportsRoundTrip` | src/nfs3/export.rs:108-131 | decoding a printed list returns the entries and leaves exactly what followed |
| `Export.RoundTripExactly` | src/nfs3/export.rs:108-131 | that holds for a list of UTF-8 strings if and only if each is shorter than 2^32 bytes |
| `Export.ReprintExactly` | src/nfs3/export.rs:25-79 | any accepted input consumes exactly as many bytes as printing the result takes, and equals the printed bytes if and only if its flags and padding are canonical |
| `Export.FlagIgnored` | src/nfs3/export.rs:56-79 | any non-zero first flag in front of a printed list decodes to the same list, so acceptance does not mean canonical |
| `Xdr.WordOfBytes` | src/nfs3/acl.rs:179-184 | a big-endian word reads back as it was written, in front of anything |
| `Xdr.Reader.ReadU32` | src/nfs3/acl.rs:179-184 | reads a word and steps over exactly its bytes, or refuses fewer than four bytes untouched |

## Left out

- Connections, RPC, port binding, portmapper and mount negotiation: WRITE, COMMIT, READ, CLOSE and READDIR are server steps with arbitrary replies.
- pNFS, NFSv4 sessions and the generated XDR decoders.
- URL parsing and path handling.
- The Python bindings themselves, exception construction, test barriers and injected faults.
- Weak memory: the Acquire and Release orderings of the atomics are taken as sequentially consistent.
- Lock poisoning, panics and the conversion of errors shared between close callers.
- Liveness: wakeup theorems say that a waiter can move, not that a scheduler lets it.
- Class form for `src/client_core.rs`, `FileResource::close` and `Budget::backoff`: several tasks run them at once, so they are transition systems on values in which each shared access is its own step; aliasing of the shared objects is not modelled.
- The suspended futures of `write_all_with` and `read_chunks_with`: their locals are values that one loop resumes in any order.
- Request identities, message texts, tracing and recorded retry counts.
- An open that finds the client closing before it has a key returns without closing the opened file (src/python_adapter.rs:3441): conservation is stated for published keys.
- Reuse of a freed mount address as gate key: the mount is part of the key as an identity.
- `BufferedFile`, the recovery event queue, `open_path_guarded`, `stream_directory_batches` and `directory_reply_limits`: they would add easier members of the same kinds.
- FileCursor.FileResource.Truncate: bytes are removed behind the cut, and a file made longer is not filled with zeros.
- WriteLog.FailureExplained: for a missing reply, speaks of errors that pass through classification. Where a protocol layer returns an unclassified error for a WRITE that was executed, as src/nfs41/write.rs:100-111 does for a result it cannot decode, the model has a refused WRITE with that error.
- Directory.ListByPages: is stated for ordered servers, since on others it may not end, as `PagesCanCycle` shows.
- FileCursor.FileResource.Read: the content of the file is given to each read, and consecutive reads are related when it is the same.
- GateRegistry.Gates.Lock: a waiter polls; the order in which waiters are served is not modelled.
