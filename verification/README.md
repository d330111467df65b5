# Verified model of DuckDB httpfs

This project models the stateful core of the httpfs extension in Dafny and proves
what that core promises. To check it, run `dafny verify dfyconfig.toml`.

Where the source takes locks, the model has two layers. A class has the source's
fields, and each of its methods is one critical section, proved to make a named
transition on the value of those fields. A transition system takes the same
transitions, one critical section, one request or one answer at a time, for any
number of threads in any interleaving and for any answers of the server; theorems
are about all its runs.

| files | what they model |
|---|---|
| `UploadSizing` | the part-size schedule of a multipart upload and the search for its first size |
| `UploadState`, `UploadSession` | the state of an upload session and its critical sections, as functions and as a class |
| `UploadProtocol`, `UploadTenancy`, `UploadCleanup`, `UploadInit`, `UploadFailure`, `UploadData`, `UploadLimits`, `UploadRuns`, `UploadProgress` | the session as a protocol between threads and server, its invariants by concern, the theorems on all runs, and that calls end |
| `UploadWrites`, `UploadCauses`, `UploadStops` | where each admitted write lands and how it is cut; why calls fail and how they end; what a failure stops |
| `HandleState`, `HandleProtocol`, `HandleProgress` | the claims of a file handle on its session, composed with the session protocol, and that its calls end |
| `GlobMatch`, `GlobListing`, `GlobWalk`, `GlobChoice`, `GlobResult`, `GlobMissed` | matching patterns, listing buckets by pages, the lazy glob walk, its choice of listing, and a bucket of which it misses keys |
| `XmlSyntax`, `XmlDocument`, `XmlRefinement`, `XmlNamespaces`, `XmlReader`, `XmlWriter`, `XmlRoundTrip` | the XML reader as functions and as a class, the recursive documents it accepts, their namespaces, the writer, and the round trip |
| `XmlGrammar`, `XmlLexing`, `XmlExact`, `XmlNames`, `XmlEmptyTags` | the grammar of the documents that the reader accepts, with every choice of spelling, the rules for their names, and the proof that it reads exactly those |
| `RequestSnapshots` | credential refreshes and region redirects published by compare and swap |
| `ClientLeases`, `ClientReuse`, `ClientPool` | pooled connections, their leases, their reuse and the generation counter |
| `RangeProbe`, `RangeState` | the probe for range support |
| `CachedFile` | the full download of a file and its growing buffer |
| `RangeRead`, `RangeContext`, `SharedReads`, `SharedDelivery` | range requests, fallback to a full download, sequential reads, many reads that share probe and copy, and what a read alone achieves |

How the model reads the source:

- A catch of `S3AmbiguousUploadException` latches AMBIGUOUS, any other exception
  DEFINITIVE. A request that failed for the client may or may not have taken
  effect on the server; both are covered.
- Part `i` of the model is part number `i + 1` of the server.
- `S3UploadConfig::Create` takes the storage block size as a parameter; the source
  asserts that it divides both part-size limits.
- The matcher of one pattern component, `Glob`, is a parameter. `StringUtil::Split`
  is not part of this repository; it is modelled as dropping empty pieces and, when
  none is left, returning its input.
- A listing is any sequence of pages that together hold every object and every
  common prefix once; the bucket does not change during a walk, and neither does
  the setting `s3_allow_recursive_globbing`. Results are keys, without the constant
  URL around them.
- XML is modelled on code points, so UTF-8 decoding is not part of this model. The
  grammar is that of the source: names in ASCII with at most one colon, no processing
  instructions and no document type.
- Published request snapshots are compared by identity: a position in their history,
  or an object.
- `HTTPResponse::Success()` is not part of this repository. The read path takes its
  flag as an input, and says what holds with and without it; the repository's test
  of a cleanly terminated short 206 response (`test/unittest/http/range_read_test.cpp`,
  lines 66 to 92) expects the flag to be set.
- A server may honour or ignore Range: the body of a 206 is the range, that of any
  other success the object, and either may end early. A Content-Length of a response
  that brings the object is its size.

Five properties hold only under a condition, which is proved together with what
happens without it:

- A glob walk equals the flat listing if and only if it stays flat or reaches every
  wanted key (`GlobWalk.WalkRefinesFlat`); it misses exactly the wanted keys below a
  directory of slashes alone that the first component of the pattern does not match,
  because such a directory splits into itself (`GlobWalk.ReachedExactly`). A bucket
  and the walk that misses its keys are in `GlobMissed.LeadingSlashMissed`.
- A refresh keeps a redirected region unless that region is the empty one, the
  endpoint an AWS one and the refreshed credentials have an access key
  (`RequestSnapshots.MergeKeepsRegionExactly`). Servers never redirect to the empty
  region, so redirects stay (`RequestSnapshots.RedirectsStay`) unless a handle is
  opened with an empty region option; the run in which a refresh undoes that is
  `RequestSnapshots.RedirectUndone`.
- Range reads that get a given final response are exact, for every object, buffer and
  honest exchange, if and only if that response is not one of four that the code takes
  unchecked: with the library's success flag, a redirect, or the object without a
  Content-Length for a range that does not begin with it (its body may end where the
  buffer does); without the flag, a 206 or a 202, whose bytes are not counted
  (`RangeRead.ExactlyChecked`; `RangeRead.UncheckedFails` reads the wrong bytes for
  each of them).
- A client that exists when the pool is invalidated is handed out afterwards if and
  only if a lease already held it then, picked from the pool or newly made, and
  AcquireClient had still to return it (`ClientLeases.InvalidationIsFinal`, with both
  cases in `ClientLeases.PickedBeforeInvalidation` and
  `ClientLeases.MadeBeforeInvalidation`); given back, it does not enter the pool again
  (`ClientLeases.StaleIsDropped`).
- All calls on an upload session, and on the handle above it, end unless an admitted
  write waits for an earlier one that never comes; then that write and the aborts
  behind it are what is left (`UploadProgress.QuietExactly`,
  `HandleProgress.QuietExactly`).

## Model

| member | source | states |
|---|---|---|
| `UploadRuns.FinalizedPublishesStream` | src/s3/s3_upload_session.cpp:591-629 | In every run the admitted stream is as long as the next offset; any object the server shows, even after a lost answer, is exactly that stream; FINALIZED implies it is shown, no failure was latched, no abort was requested and nobody is inside |
| `UploadRuns.FinalizedIsTerminal` | src/s3/s3_upload_session.cpp:155-177 | FINALIZED stays, with the same object, the same requests and still no failure, whatever happens later |
| `UploadRuns.PartsAndBufferAreStream` | src/s3/s3_upload_session.cpp:295-349 | Until a failure or an abort, reserved parts in part order followed by the buffered piece are the admitted bytes, for every interleaving and every write size |
| `UploadRuns.AbortIsLastRequest` | src/s3/s3_upload_session.cpp:187-233 | The abort request is sent at most once, for the created upload, with no operation inside, and no request follows it |
| `UploadRuns.CleanupMeansQuiet` | src/s3/s3_upload_session.cpp:80-142 | Once cleanup has begun no operation is inside the session, now or ever after: no part upload, completion or release runs |
| `UploadRuns.AbortExactlyWhenCertain` | src/s3/s3_upload_session.cpp:200-208 | An ambiguous failure, first or later, excludes the abort request; completed cleanup has sent one if and only if there was an upload id and no ambiguous failure |
| `UploadRuns.FailureAgreement` | src/s3/s3_upload_session.cpp:71-78 | All calls that throw because of a failure, at any time, throw the same pair of primary and abort error, and the primary one is the first latched |
| `UploadRuns.PrimaryNeverChanges` | src/s3/s3_upload_session.cpp:164-177 | The primary error and its disposition never change once latched |
| `UploadRuns.FailureStartsCleanup` | src/s3/s3_upload_session.cpp:196-218 | A latched failure with nobody inside always has its cleanup begun, and an operation that failed never returns normally |
| `UploadRuns.InitializedOnce` | src/s3/s3_upload_session.cpp:392-443 | The upload is created by at most one request and its id never changes |
| `UploadRuns.CompletionCarriesEverything` | src/s3/s3_upload_session.cpp:509-518 | A completion lists every reserved part, none without ETag; the server holds for each the bytes that were reserved; together they are the stream; nobody else is inside |
| `UploadRuns.MissingPartExactly` | src/s3/s3_upload_session.cpp:512-516 | A completion fails for a missing part if and only if the server answered some part with an empty ETag |
| `UploadRuns.PartLimitUnreachable` | src/s3/s3_settings.cpp:63-82 | With a configuration from Create no operation ever fails for too many parts; parts but the last have at least their scheduled size, at least 5 MiB, none exceeds 5 GiB, and there are at most max_parts |
| `UploadRuns.StepSafe` | src/s3/s3_upload_session.cpp:80-694 | Every step of every thread keeps the invariants: who is inside, cleanup, initialization, failures, data, limits |
| `UploadRuns.StepForward` | src/s3/s3_upload_session.cpp:80-694 | No step takes anything back: requests, outcomes, failures, stream, reserved parts, upload id, cleanup and terminal states only grow |
| `UploadRuns.RunForward` | src/s3/s3_upload_session.cpp:80-694 | The same from any point of a run to any later point |
| `UploadRuns.RunSafe` | src/s3/s3_upload_session.cpp:574-694 | Every schedule of threads, calls and server answers leads to a state that satisfies all invariants |
| `UploadTenancy.StepTenancy` | src/s3/s3_upload_session.cpp:80-142 | active_operations is the number of threads inside; FINALIZING has exactly one, and a cleanup begun, FINALIZED or ABORTED has none |
| `UploadTenancy.LatchTenancy` | src/s3/s3_upload_session.cpp:164-177 | Latching a failure ends FINALIZING, which only the latching thread can be in |
| `UploadTenancy.ReleaseTenancy` | src/s3/s3_upload_session.cpp:187-218 | Releasing an operation starts the cleanup when it was the last one and a failure is latched |
| `UploadCleanup.StepCleanups` | src/s3/s3_upload_session.cpp:187-233 | At most one thread owns the cleanup, at most one the abort; the abort request is sent once, for the published id, and never after an ambiguous failure |
| `UploadCleanup.DrainCleanups` | src/s3/s3_upload_session.cpp:650-667 | Abort takes over the cleanup only when no failure and no other cleanup is there |
| `UploadInit.StepInits` | src/s3/s3_upload_session.cpp:392-443 | Only the thread that moved initialization to IN_PROGRESS sends the create request, once, and publishes its outcome |
| `UploadFailure.StepFailures` | src/s3/s3_upload_session.cpp:164-177 | The latched primary error is the first of all latches and every thrown failure pair agrees with it |
| `UploadData.StepDatas` | src/s3/s3_upload_session.cpp:295-349 | Conservation through every step: stream, reserved payloads, buffer, stored parts, ETags and the published object fit together |
| `UploadData.CutConserves` | src/s3/s3_upload_session.cpp:324-338 | Cutting a write loses, repeats and reorders no byte |
| `UploadData.CutBufferedConserves` | src/s3/s3_upload_session.cpp:310-341 | The same with a buffered part in front |
| `UploadData.AssembleReserved` | src/s3/s3_upload_session.cpp:520-529 | What a completion assembles from the stored parts is the concatenation of the reserved payloads |
| `UploadData.CompletedContent` | src/s3/s3_upload_session.cpp:520-560 | So a completion, answered or not, can only publish the stream |
| `UploadData.SnapshotExact` | src/s3/s3_upload_session.cpp:509-518 | At the snapshot of a completion a part without ETag exists exactly when the server sent an empty one |
| `UploadLimits.StepLimits` | src/s3/s3_upload_session.cpp:276-293 | Sizes and number of parts stay within the schedule through every step |
| `UploadLimits.CutWithinLimits` | src/s3/s3_upload_session.cpp:324-338 | Cutting a write that fits the file-size limit never meets the part limit and cuts no part too small or too large |
| `UploadLimits.CutBufferedWithinLimits` | src/s3/s3_upload_session.cpp:310-341 | The same with a buffered part in front |
| `UploadLimits.ReserveLimits` | src/s3/s3_upload_session.cpp:610-618 | The last part reserved by Finalize fits as well |
| `UploadWrites.WriteDecided` | src/s3/s3_upload_session.cpp:295-308 | At a write in an unfailed session: one ahead of the offset waits, one behind it ends in NotSequential, one that would pass the maximum file size in FileTooLarge, and nothing else changes then |
| `UploadWrites.FittingAccepted` | src/s3/s3_upload_session.cpp:295-349 | In every run, under a configuration from Create, a write at the offset that fits the maximum file size is admitted |
| `UploadWrites.AcceptedInPlace` | src/s3/s3_upload_session.cpp:295-349 | In every run each write that was admitted has its bytes in the stream at its own location, then and ever after, so also in the object that is shown |
| `UploadWrites.CutShape` | src/s3/s3_upload_session.cpp:324-338 | A write is cut into full parts of 5 GiB or the rest, as long as the rest reaches the scheduled size, exceeds it for the first part, and the part limit allows; what is left is buffered |
| `UploadWrites.BufferedShape` | src/s3/s3_upload_session.cpp:310-322 | A buffered part is topped up first, and reserved exactly when it is full and input is left |
| `UploadWrites.OnePutExactly` | src/s3/s3_upload_session.cpp:599-610 | In every run under a configuration from Create, Finalize sends the whole stream as a single PUT if and only if it fits the first part |
| `UploadStops.FailureStopsUpload` | src/s3/s3_upload_session.cpp:445-490 | From a latched failure on, whatever happens, admitted bytes, reserved parts, their ETags and the object shown stay as they are, and besides abort requests no more requests are sent than threads had decided on by then |
| `UploadStops.StepStops` | src/s3/s3_upload_session.cpp:445-490 | No step in a failed session admits, reserves or stores anything, or decides on a request but the abort request |
| `UploadCauses.AdmissionDecided` | src/s3/s3_upload_session.cpp:80-142 | A Write or Finalize waits for a cleanup, throws the latched failure, is admitted exactly in an ACTIVE session, a Finalize only if nobody is inside, and is refused otherwise; a second Finalize returns |
| `UploadCauses.FailsForCause` | src/s3/s3_upload_session.cpp:174-177 | A thread starts to fail only for a write behind the offset or too large, an empty ETag, a request that failed, or a failure latched already, each with its disposition; the part limit needs an invalid configuration |
| `UploadCauses.FailureHasCause` | src/s3/s3_upload_session.cpp:164-177 | In every run the latched failure is one of those that some step met, with the disposition of that cause |
| `UploadCauses.FinalizeEnds` | src/s3/s3_upload_session.cpp:591-629 | Finalize returns only when it has made the session FINALIZED and the object shown is the stream |
| `UploadCauses.ReleaseEnds` | src/s3/s3_upload_session.cpp:187-233 | A released operation throws the failure exactly if one is latched and its claim was not dropped; the error of the abort request joins it |
| `UploadCauses.AbortEnds` | src/s3/s3_upload_session.cpp:631-694 | Abort reports a failure latched before it, else the error of its own request, else whether it aborted |
| `UploadSession.BufferedPart.Append` | src/s3/s3_upload_session.cpp:268-274 | Copies as much input as fits behind the buffered bytes and returns how much that was |
| `UploadSession.S3UploadSession.constructor` | src/s3/s3_upload_session.cpp:59-62 | A new session is the start state of the protocol |
| `UploadSession.S3UploadSession.BeginWriteOperation` | src/s3/s3_upload_session.cpp:80-107 | Waits for a cleanup in progress, rethrows a latched failure, refuses outside ACTIVE, else counts the operation; the transition of the protocol |
| `UploadSession.S3UploadSession.BeginFinalize` | src/s3/s3_upload_session.cpp:109-142 | Admission of Finalize, which takes the buffered part over |
| `UploadSession.S3UploadSession.FinishFinalize` | src/s3/s3_upload_session.cpp:155-162 | Leaves the operation and makes the session FINALIZED |
| `UploadSession.S3UploadSession.LatchFailureLocked` | src/s3/s3_upload_session.cpp:164-177 | First error wins, ambiguity is remembered, FINALIZING falls back to ACTIVE |
| `UploadSession.S3UploadSession.ReleaseOperation` | src/s3/s3_upload_session.cpp:187-215 | The last operation out of a failed session cleans up or declares the cleanup complete; others wait |
| `UploadSession.S3UploadSession.RecordCleanup` | src/s3/s3_upload_session.cpp:219-231 | The outcome of the abort request joins the failure |
| `UploadSizing.ChosenUnique` | src/s3/s3_settings.cpp:63-82 | The configuration is determined by the two settings and the block size: least growth interval with at most eleven tiers, then least covering first size |
| `UploadSizing.DefaultConfig` | src/include/s3/s3_settings.hpp:21-22 | With the default settings and a block of 256 KiB parts begin at 5 MiB and double every 910 |
| `UploadSession.S3UploadSession.ReservePart` | src/s3/s3_upload_session.cpp:276-293 | Reserves the next part number with a blank ETag, or nothing at the part limit |
| `UploadSession.S3UploadSession.TopUpBuffered` | src/s3/s3_upload_session.cpp:310-322 | Fills the buffered part and reserves it when input is left: the first half of the specified cut |
| `UploadSession.S3UploadSession.CutInput` | src/s3/s3_upload_session.cpp:324-338 | The loop that cuts the input into direct parts and a buffered rest: the second half of the specified cut |
| `UploadSession.S3UploadSession.PrepareWrite` | src/s3/s3_upload_session.cpp:295-349 | Waits for its turn, refuses a write behind the offset or beyond the maximum file size, else tops up, cuts, and buffers the rest; the transition that UploadWrites pins down |
| `UploadSession.S3UploadSession.EnsureMultipartUpload` | src/s3/s3_upload_session.cpp:392-411 | Single flight: wait, fail with the session, use the id, or start the initialization |
| `UploadSession.S3UploadSession.PublishUploadId` | src/s3/s3_upload_session.cpp:429-442 | Publishes the id even when a failure came first, and says whether to throw |
| `UploadSession.S3UploadSession.PublishInitializationFailure` | src/s3/s3_upload_session.cpp:383-390 | Marks the initialization failed and latches its error |
| `UploadSession.S3UploadSession.StorePartETag` | src/s3/s3_upload_session.cpp:482-498 | Stores the ETag of its part unless a failure is latched |
| `UploadSession.S3UploadSession.GetMultipartSnapshot` | src/s3/s3_upload_session.cpp:509-518 | Refuses exactly when some ETag is empty |
| `UploadSession.S3UploadSession.BeginAbort` | src/s3/s3_upload_session.cpp:636-649 | Waits for FINALIZING and ABORTING, answers for terminal states, else starts ABORTING |
| `UploadSession.S3UploadSession.DrainAbort` | src/s3/s3_upload_session.cpp:650-674 | With nobody inside: await the failure cleanup, take over the cleanup, or end ABORTED |
| `UploadSession.S3UploadSession.AwaitCleanup` | src/s3/s3_upload_session.cpp:210-215 | After the wait for a cleanup: go on waiting, or throw the latched failure |
| `UploadSession.S3UploadSession.ThrowIfFailed` | src/s3/s3_upload_session.cpp:445-456 | Rethrows the latched failure, if any |
| `UploadSession.S3UploadSession.ChoosesMultipart` | src/s3/s3_upload_session.cpp:599-603 | One PUT if and only if no part was reserved |
| `UploadSession.S3UploadSession.ReserveTail` | src/s3/s3_upload_session.cpp:612-616 | Reserves the buffered part as the last one, or refuses at the part limit |
| `UploadSession.S3UploadSession.AwaitAbort` | src/s3/s3_upload_session.cpp:655-672 | Abort behind a failure: go on waiting, or end ABORTED and throw that failure |
| `UploadSession.S3UploadSession.FinishAbort` | src/s3/s3_upload_session.cpp:680-685 | After the abort request: cleanup complete, session ABORTED |
| `UploadProgress.AllCallsEnd` | src/s3/s3_upload_session.cpp:631-694 | If no write is ahead of the offset, then wherever the calls in progress come to rest all of them have ended: writes, Finalize and Abort |
| `UploadProgress.QuietExactly` | src/s3/s3_upload_session.cpp:295-308 | Nothing can move if and only if every call has ended but for admitted writes ahead of the offset and, if there are any, aborts that wait for them |
| `UploadProgress.ComesToRest` | src/s3/s3_upload_session.cpp:80-694 | From every reachable state the calls in progress come to rest |
| `UploadProgress.CallsEnd` | src/s3/s3_upload_session.cpp:80-694 | Without new calls only a bounded number of steps is left, whatever threads and server do |
| `UploadProgress.MovesNearer` | src/s3/s3_upload_session.cpp:80-694 | Every step of a call brings that call nearer to its end and moves no other |
| `UploadProgress.QuietHolder` | src/s3/s3_upload_session.cpp:392-398 | At rest only writes ahead of the offset are inside: whoever waits for an initialization waits for a thread that can move |
| `UploadProgress.QuietClean` | src/s3/s3_upload_session.cpp:196-212 | At rest no cleanup is due and no Finalize is under way |
| `UploadProgress.CutCount` | src/s3/s3_upload_session.cpp:324-338 | A write is cut into no more parts than it has bytes |
| `UploadSizing.ComputePartSize` | src/s3/s3_settings.cpp:33-41 | The size of the tier of a part; never above 5 GiB, without leaving 64 bits |
| `UploadSizing.ScheduleCovers` | src/s3/s3_settings.cpp:14-31 | True if and only if the scheduled sizes of max_parts parts add up to the file size; no intermediate value leaves 64 bits |
| `UploadSizing.InitialPartSize` | src/s3/s3_settings.cpp:43-58 | The least block-aligned first size between 5 MiB and 5 GiB whose schedule covers the file size, whenever the largest does |
| `UploadSizing.Create` | src/s3/s3_settings.cpp:63-82 | The least growth interval with at most eleven tiers and the least first size that covers the maximum file size with it; fails if there is none |
| `UploadSizing.CapacityMonotoneInSize` | src/s3/s3_settings.cpp:49-56 | A larger first part never covers less: why the search may halve |
| `UploadSizing.DoubledClosedForm` | src/s3/s3_settings.cpp:33-41 | The loop computes initial size times a power of two, capped at 5 GiB |
| `UploadSizing.CapacityOfTier` | src/s3/s3_settings.cpp:18-29 | Adding whole tiers adds equally sized parts |
| `UploadSizing.DivisionTest` | src/s3/s3_settings.cpp:21 | The division test is the multiplication test, without the multiplication |
| `UploadSizing.FullPartsFillCapacity` | src/s3/s3_settings.cpp:102-107 | Parts as large as scheduled fill the schedule |
| `UploadSizing.PartLimitImpliesFileLimit` | src/s3/s3_settings.cpp:109-111 | While bytes may still come, another part may be reserved |
| `UploadSizing.PartSizeBounds` | src/s3/s3_settings.cpp:102-107 | Every scheduled size is between 5 MiB and 5 GiB |
| `HandleProtocol.ClaimsKeepSession` | src/s3/s3fs.cpp:96-124 | While a claim is held or a thread is inside the session it stays attached; detached, no claim is left, the upload is aborted and quiet, and claims are refused; ABORTING and ABORTED refuse claims |
| `HandleProtocol.AbortEnds` | src/s3/s3fs.cpp:139-158 | An abort that found the upload finalized gives the handle back ACTIVE with the session intact; every other one detaches it |
| `HandleProtocol.OneAborter` | src/s3/s3fs.cpp:125-135 | Only the thread that moved the handle to ABORTING is inside the session's Abort |
| `HandleProtocol.SessionRuns` | src/s3/s3fs.cpp:272-289 | What the session sees of any run through the handle is a run of the session alone, so all its theorems hold |
| `HandleProtocol.RunGood` | src/s3/s3fs.cpp:96-165 | Every run of handle and session together satisfies both invariants |
| `HandleProtocol.StepGood` | src/s3/s3fs.cpp:96-165 | Every step of handle and session together keeps both invariants |
| `HandleProtocol.InsideAbort` | src/s3/s3_upload_session.cpp:631-694 | The session's Abort answers false exactly for a finalized session and otherwise ends ABORTED |
| `HandleProtocol.OrdinaryStep` | src/s3/s3_upload_session.cpp:574-629 | Outside Abort no step enters or leaves the aborting states, and no step moves another thread |
| `HandleProtocol.ClaimsMeetSession` | src/s3/s3fs.cpp:96-135 | In every run a claim is granted exactly while the handle is ACTIVE, and never meets a missing session; an abort waits exactly for another one |
| `HandleProtocol.ClaimUndone` | src/s3/s3fs.cpp:96-158 | Claiming and releasing, or beginning an abort that finds the upload finalized, leaves the handle as it was |
| `HandleProtocol.ReadingHandle` | src/s3/s3fs.cpp:96-135 | A handle opened for reading has no session to claim or abort, and writing through it is an internal error |
| `HandleProtocol.DetachesWhenDrained` | src/s3/s3fs.cpp:146-159 | The owner of a terminal abort waits for every claim and then detaches the session |
| `FileHandle.S3FileHandle.constructor` | src/s3/s3fs.cpp:32-55 | A handle opened for writing starts ACTIVE with a session |
| `FileHandle.S3FileHandle.ClaimUpload` | src/s3/s3fs.cpp:96-112 | Refuses unless ACTIVE; without session an internal error for writes and an empty claim otherwise; else counts the call and hands out the session |
| `FileHandle.S3FileHandle.ReleaseUpload` | src/s3/s3fs.cpp:114-121 | Gives one claim back |
| `FileHandle.S3FileHandle.BeginAbort` | src/s3/s3fs.cpp:125-135 | Waits for another abort, does nothing when there is nothing to abort, else becomes ABORTING |
| `FileHandle.S3FileHandle.EndAbort` | src/s3/s3fs.cpp:146-159 | Restores ACTIVE after a non-terminal abort; else detaches the session once no call is left |
| `HandleProgress.AllCallsEnd` | src/s3/s3fs.cpp:96-165 | If no write is ahead of the offset, then wherever the calls in progress come to rest every thread is away from the handle, every claim is given back and no abort is pending |
| `HandleProgress.QuietExactly` | src/s3/s3fs.cpp:125-158 | Nothing can move if and only if every call has ended but for admitted writes ahead of the offset and, if there are any, aborts that wait for them |
| `HandleProgress.ComesToRest` | src/s3/s3fs.cpp:96-165 | From every reachable state the calls in progress come to rest |
| `HandleProgress.CallsEnd` | src/s3/s3fs.cpp:96-165 | Without new calls only a bounded number of steps is left |
| `HandleProgress.MovesNearer` | src/s3/s3fs.cpp:96-165 | Every step of a call on the handle brings it nearer to its end |
| `HandleProgress.QuietSession` | src/s3/s3fs.cpp:137-143 | If nothing moves on the handle nothing moves in the session |
| `HandleProgress.QuietClaim` | src/s3/s3fs.cpp:110-121 | At rest every claim is that of a write ahead of the offset |
| `GlobMatch.Match` | src/s3/s3_list.cpp:16-51 | Complete mode is membership in the language of the pattern; prefix mode is viability |
| `GlobMatch.MatchLiterals` | src/s3/s3_list.cpp:24-46 | The loop up to a double star compares component by component and keeps what is left equivalent |
| `GlobMatch.MatchRecursive` | src/s3/s3_list.cpp:30-39 | The inner loop after a double star |
| `GlobMatch.PruningSound` | src/s3/s3_list.cpp:16-51 | Every component prefix of a denoted key is viable, so pruning loses nothing |
| `GlobMatch.PruningExact` | src/s3/s3_list.cpp:16-51 | Every viable prefix extends to a denoted key when each component of the pattern matches something |
| `GlobMatch.ViableExactly` | src/s3/s3_list.cpp:16-51 | Both directions as one equivalence |
| `GlobMatch.EmptyKeyDenotes` | src/s3/s3_list.cpp:24-50 | No pattern denotes the empty list of components, so a final double star needs one |
| `GlobListing.ListedOnce` | src/s3/s3_list.cpp:291-307 | A complete listing accounts for every key below its prefix exactly once, in either mode |
| `GlobListing.NotListed` | src/s3/s3_list.cpp:291-307 | and for no other key |
| `GlobListing.CommonUnique` | src/s3/s3_list.cpp:291-307 | A common prefix above a key is the one that stands for it |
| `GlobListing.PiecesBelow` | src/s3/s3_list.cpp:142-145 | The components of a directory begin those of every key below it |
| `GlobListing.PiecesJoin` | src/s3/s3_list.cpp:142-143 | A slash anywhere separates components, and splitting loses none and makes none up |
| `GlobListing.PiecesPlain` | src/s3/s3_list.cpp:142-143 | What has no slash is one component; the empty text is its own only piece |
| `GlobListing.PiecesJoined` | src/s3/s3_list.cpp:202-208 | Components put together to a directory come apart again |
| `GlobChoice.ChoosesExactly` | src/s3/s3_list.cpp:166-197 | A walk goes by directories exactly if the setting allows it, the pattern has no double star, the first page is not the only one, and its files are more than a hundred to a directory |
| `GlobChoice.ChosenOnce` | src/s3/s3_list.cpp:175-184 | and what the first page chose stays for the whole walk |
| `GlobChoice.DoubleExactly` | src/s3/s3_list.cpp:175-184 | The pattern has a double star somewhere |
| `GlobChoice.DirectoryExactly` | src/s3/s3_list.cpp:202-208 | The directory of a key is what stands before its last component |
| `GlobChoice.DenseExactly` | src/s3/s3_list.cpp:199-211 | Up to a hundred keys are never dense, and more than that in one directory are |
| `GlobWalk.WalkRefinesFlat` | src/s3/s3_list.cpp:120-241 | A finished walk has found what the flat listing finds, for every bucket and page split, if and only if it stays flat or reaches every wanted key |
| `GlobWalk.WalkExactly` | src/s3/s3_list.cpp:120-241 | It has found each wanted key once, or not at all if it went by directories and pruned one above the key; nothing else |
| `GlobWalk.ReachedExactly` | src/s3/s3_list.cpp:142-145 | A wanted key is reached if and only if the first component of the pattern is a double star or matches every directory of slashes alone above the key |
| `GlobWalk.OrdinaryReached` | src/s3/s3_list.cpp:107-115 | So keys with a component at their beginning, or below a prefix with one, are always reached |
| `GlobWalk.ExpandWalks` | src/s3/s3_list.cpp:120-137 | Every step keeps each wanted key that can be found accounted for exactly once: found, below the current or a waiting directory, or still to be listed; and never meets a current-less pending directory |
| `GlobWalk.WantedViable` | src/s3/s3_list.cpp:143-145 | No directory with a component above a wanted key is pruned |
| `GlobWalk.AboveOpen` | src/s3/s3_list.cpp:143-145 | Directories above a reached key are looked into |
| `GlobWalk.RolledDirectory` | src/s3/s3_list.cpp:149-151 | The directories of a page lie below directories that were looked into |
| `GlobWalk.ScanCurrentCounts` | src/s3/s3_list.cpp:139-156 | A page of a directory moves its keys from pending to found or to waiting directories |
| `GlobWalk.ScanTopCounts` | src/s3/s3_list.cpp:158-173 | The same for a page at the top, including a first page asked for again hierarchically |
| `GlobWalk.ChoiceCounts` | src/s3/s3_list.cpp:186-197 | Switching from flat to hierarchical on the first page loses and repeats nothing |
| `GlobWalk.FlatTimes` | src/s3/s3_list.cpp:222-241 | The flat listing yields exactly the wanted keys, once each |
| `GlobMissed.LeadingSlashMissed` | src/s3/s3_list.cpp:139-156 | A bucket, a pattern and the whole walk at whose end keys of the flat listing are missing |
| `GlobTermination.ExpandShrinks` | src/s3/s3_list.cpp:120-137 | Every call leaves less to ask for, so a walk ends |
| `GlobTermination.End` | src/s3/s3_list.cpp:120-137 | A walk ends, with every wanted key accounted for |
| `GlobTermination.CurrentShrinks` | src/s3/s3_list.cpp:139-156 | A page of a directory, or pruning it, reduces the pending requests |
| `GlobResult.S3GlobResult.constructor` | src/s3/s3_list.cpp:86-118 | A pattern without wildcards, or any in compatibility mode, is its own result; otherwise the walk begins at the literal prefix |
| `GlobResult.S3GlobResult.ExpandNextPath` | src/s3/s3_list.cpp:120-137 | One step of the walk, or false when finished; the internal exception is never thrown |
| `GlobResult.S3GlobResult.ScanCurrentCommonPrefix` | src/s3/s3_list.cpp:139-156 | Prunes or lists one page of the current directory and moves on after its last page |
| `GlobResult.S3GlobResult.ScanTopLevel` | src/s3/s3_list.cpp:158-173 | One page at the top, with the choice of listing; the internal error exactly when directories are pending |
| `GlobResult.S3GlobResult.SelectGlobType` | src/s3/s3_list.cpp:186-197 | Sparse keeps the flat page; dense asks for the same page hierarchically |
| `GlobResult.S3GlobResult.SelectNextCommonPrefix` | src/s3/s3_list.cpp:213-220 | Takes the last waiting directory, or none |
| `GlobResult.S3GlobResult.AppendMatchingFiles` | src/s3/s3_list.cpp:222-241 | Appends exactly the keys that the pattern denotes, in order |
| `GlobResult.S3GlobResult.ExpandAll` | src/s3/s3_list.cpp:120-137 | Expanding to the end terminates with exactly the keys that a walk finds, each once |
| `GlobResult.AppendFileList` | src/s3/s3_list.cpp:337-364 | Keeps all keys but directory markers |
| `GlobResult.ContainsDenseDirectories` | src/s3/s3_list.cpp:199-211 | True if and only if there are more than a hundred keys to a directory |
| `XmlRefinement.ReaderIsRecursive` | src/s3/s3_xml_response.cpp:48-129 | On every input the stack machine accepts and builds exactly what a recursive, lexically scoped definition of documents says, starting from the predeclared xml binding: tags pair up, depth is limited, bindings end with their element |
| `XmlRefinement.Simulates` | src/s3/s3_xml_response.cpp:443-621 | From any reachable state an open element takes the machine through exactly its content |
| `XmlRefinement.ChildClosed` | src/s3/s3_xml_response.cpp:541-554 | Closing an element restores the bindings of its parent |
| `XmlRefinement.NamespaceIsInnermost` | src/s3/s3_xml_response.cpp:581-600 | An element's namespace is the innermost enclosing binding of its prefix, its own declarations included (sections 6.1 and 6.2 of Namespaces in XML 1.0) |
| `XmlNamespaces.NodeNamespaces` | src/s3/s3_xml_response.cpp:581-600 | Every node of an accepted document stands where an element was written, and its URI is the innermost binding of that prefix among the predeclared one and those declared on the path from the root (sections 6.1 and 6.2 of Namespaces in XML 1.0) |
| `XmlNamespaces.ReadingIsNaming` | src/s3/s3_xml_response.cpp:443-600 | Reading a document is reading its elements as written and then resolving their names, and fails exactly when either does |
| `XmlNamespaces.XmlPrefix` | src/s3/s3_xml_response.cpp:48-50 | The prefix xml means its own namespace at every element, declared or not |
| `XmlNamespaces.NamedAt` | src/s3/s3_xml_response.cpp:556-600 | The same at every path below any element, for any bindings around it |
| `XmlRefinement.DeclaredExactly` | src/s3/s3_xml_response.cpp:556-579 | The declared bindings are those of the attributes in order, refused exactly when one of them is not legal |
| `XmlRefinement.AcceptedDepth` | src/s3/s3_xml_response.cpp:443-447 | No accepted document nests deeper than 256 |
| `XmlDocument.Step` | src/s3/s3_xml_response.cpp:92-124 | One round of the loop strictly advances and keeps bindings attached to open elements |
| `XmlDocument.Innermost` | src/s3/s3_xml_response.cpp:589-594 | The binding found is the last one of its prefix, found if there is any |
| `XmlDocument.Close` | src/s3/s3_xml_response.cpp:541-554 | Closing keeps bindings attached to open elements, and the predeclared one outside the root |
| `XmlSyntax.SimpleName` | src/s3/s3_xml_response.cpp:183-192 | Reads a longest name and leaves the rest untouched |
| `XmlSyntax.Codepoint` | src/s3/s3_xml_response.cpp:306-323 | The value of a character reference never exceeds the last code point |
| `XmlSyntax.NoOverflow` | src/s3/s3_xml_response.cpp:319-322 | The guard keeps the next value within the last code point, hence within 32 bits |
| `XmlSyntax.FindText` | src/s3/s3_xml_response.cpp:387-399 | The first occurrence of a text |
| `XmlExact.ReaderExactly` | src/s3/s3_xml_response.cpp:79-129 | A text is accepted, with a given tree, if and only if it has legal characters only, the grammar can write it, and the names of what it says resolve to that tree |
| `XmlExact.DocumentRead` | src/s3/s3_xml_response.cpp:79-129 | Every document of the grammar, with any white space, quotes, references, sections, comments and empty-element tags, is read as what it says |
| `XmlExact.DocumentOf` | src/s3/s3_xml_response.cpp:79-129 | and every text that is read was written by the grammar |
| `XmlExact.Unambiguous` | src/s3/s3_xml_response.cpp:79-129 | However a text is taken apart, it says the same |
| `XmlExact.ConcreteRead` | src/s3/s3_xml_response.cpp:443-554 | An element is read as what it says at any depth below the limit, and nothing beyond it |
| `XmlExact.ConcreteOf` | src/s3/s3_xml_response.cpp:443-554 | and an element that is read was written so |
| `XmlExact.MiscRead` | src/s3/s3_xml_response.cpp:415-426 | White space and comments outside the root are skipped |
| `XmlExact.AcceptedExactly` | src/s3/s3_xml_response.cpp:365-384 | The declaration has version 1.0, then at most the encoding UTF-8 in any case, then at most standalone |
| `XmlLexing.StartWritten` | src/s3/s3_xml_response.cpp:443-493 | A start tag is read as its name and attributes, and as closing itself exactly if it is written with a slash |
| `XmlLexing.StartRead` | src/s3/s3_xml_response.cpp:443-493 | and a start tag that is read was written so, with distinct attribute names |
| `XmlLexing.EntityExactly` | src/s3/s3_xml_response.cpp:271-333 | A reference is read as a character if and only if it is one of the five names or a decimal or hexadecimal numeral of that legal character (sections 4.1 and 4.6 of XML 1.0) |
| `XmlLexing.CodepointExactly` | src/s3/s3_xml_response.cpp:299-323 | The digits read are the numerals up to the last code point |
| `XmlLexing.ValueWritten` | src/s3/s3_xml_response.cpp:214-242 | An attribute value in either quotes is read as its characters, references decoded and written white space as spaces |
| `XmlLexing.TextWritten` | src/s3/s3_xml_response.cpp:415-441 | Text is read as its characters, references decoded |
| `XmlLexing.TextRead` | src/s3/s3_xml_response.cpp:428-441 | and has no end of a section in it |
| `XmlLexing.SectionWritten` | src/s3/s3_xml_response.cpp:401-413 | A CDATA section is read as its text |
| `XmlLexing.RemarkWritten` | src/s3/s3_xml_response.cpp:387-399 | A comment without double dash is skipped |
| `XmlLexing.RemarkRead` | src/s3/s3_xml_response.cpp:387-399 | and no other is |
| `XmlNames.AcceptsExactly` | src/s3/s3_xml_response.cpp:79-129 | What the reader accepts, without any of its functions: legal characters, a document of the grammar, and good names at every element of it |
| `XmlNames.NamedExactly` | src/s3/s3_xml_response.cpp:556-621 | Names resolve if and only if every element at every path is well named under the bindings on its path |
| `XmlNames.OpensExactly` | src/s3/s3_xml_response.cpp:488-493 | An element is opened if and only if its declarations are legal, its prefix and those of its attributes are bound and not xmlns, and no two attributes have one expanded name (sections 3 to 6 of Namespaces in XML 1.0) |
| `XmlNames.DistinctExactly` | src/s3/s3_xml_response.cpp:602-621 | The loop over attributes finds every pair of one expanded name and every undeclared prefix |
| `XmlEmptyTags.SpreadReadsTheSame` | src/s3/s3_xml_response.cpp:463-517 | A document with empty-element tags and the same with each spelled out as a pair have the same tree, or are both refused |
| `XmlEmptyTags.EmptyTagParses` | src/s3/s3_xml_response.cpp:463-466 | The tag of a name and a slash closes itself |
| `XmlEmptyTags.EmptyElementReads` | src/s3/s3_xml_response.cpp:463-517 | and is an element without text and children |
| `XmlRoundTrip.DeleteRoundTrip` | src/s3/s3_xml_response.cpp:809-818 | A written delete request is accepted if and only if all keys consist of legal characters, and its tree then has one entry per key, in order, with exactly its text |
| `XmlRoundTrip.CompleteRoundTrip` | src/s3/s3_xml_response.cpp:820-828 | The same for a completion request and its ETags and part numbers |
| `XmlRoundTrip.ManifestNumbersParts` | src/s3/s3_xml_response.cpp:820-828 | Entry i of a read-back completion has ETag i and the part number i + 1 |
| `XmlRoundTrip.DecimalRoundTrip` | src/s3/s3_xml_response.cpp:823-825 | The digits of a number stand for that number |
| `XmlRoundTrip.TextParses` | src/s3/s3_xml_response.cpp:415-441 | Reading escaped text gives the text (section 2.4 of XML 1.0) |
| `XmlRoundTrip.EscapedParses` | src/s3/s3_xml_response.cpp:263-334 | Each escape is a reference to its character |
| `XmlRoundTrip.NoCdataEnd` | src/s3/s3_xml_response.cpp:428-430 | Escaped text never contains the end of a CDATA section |
| `XmlRoundTrip.LegalDelete` | src/s3/s3_xml_response.cpp:160-175 | A delete request has only legal characters if and only if its keys do |
| `XmlRoundTrip.LegalComplete` | src/s3/s3_xml_response.cpp:160-175 | The same for a completion request |
| `XmlRoundTrip.LeafReads` | src/s3/s3_xml_response.cpp:443-554 | A written text element reads back as that element, whatever follows |
| `XmlRoundTrip.BranchReads` | src/s3/s3_xml_response.cpp:443-554 | An element around content that reads back reads back |
| `XmlRoundTrip.DeclarationReads` | src/s3/s3_xml_response.cpp:336-385 | The written XML declaration is accepted and skipped |
| `XmlRoundTrip.RootTagParses` | src/s3/s3_xml_response.cpp:443-493 | The root tag carries the S3 namespace as default binding |
| `XmlWriter.EscapeText` | src/s3/s3_xml_response.cpp:785-807 | Escapes character by character |
| `XmlWriter.WriteDeleteObjectsRequest` | src/s3/s3_xml_response.cpp:809-818 | Writes the request for the keys from begin to end |
| `XmlWriter.WriteCompleteMultipartUploadRequest` | src/s3/s3_xml_response.cpp:820-828 | Writes the request with part numbers from 1 |
| `XmlReader.S3XMLReader.ParseDocument` | src/s3/s3_xml_response.cpp:79-129 | Succeeds exactly for the accepted documents and leaves their tree |
| `XmlReader.S3XMLReader.ValidateCharacters` | src/s3/s3_xml_response.cpp:160-175 | All characters legal; proved to take the step of the reading functions on what is left of the input |
| `XmlReader.S3XMLReader.SkipWhitespace` | src/s3/s3_xml_response.cpp:177-181 | Moves the cursor past white space; proved to take the step of the reading functions on what is left of the input |
| `XmlReader.S3XMLReader.ParseQualifiedName` | src/s3/s3_xml_response.cpp:183-208 | A name with at most one prefix; proved to take the step of the reading functions on what is left of the input |
| `XmlReader.S3XMLReader.ParseAttributeValue` | src/s3/s3_xml_response.cpp:214-242 | A quoted value with references decoded and white space as spaces; proved to take the step of the reading functions on what is left of the input |
| `XmlReader.S3XMLReader.ParseDeclarationValue` | src/s3/s3_xml_response.cpp:244-261 | A quoted value of name characters; proved to take the step of the reading functions on what is left of the input |
| `XmlReader.S3XMLReader.ParseReference` | src/s3/s3_xml_response.cpp:263-334 | Named and numeric references; proved to take the step of the reading functions on what is left of the input |
| `XmlReader.S3XMLReader.ParseXMLDeclaration` | src/s3/s3_xml_response.cpp:336-385 | Version 1.0, then encoding, then standalone; proved to take the step of the reading functions on what is left of the input |
| `XmlReader.S3XMLReader.ParseComment` | src/s3/s3_xml_response.cpp:387-399 | Up to the first double dash, which must end it; proved to take the step of the reading functions on what is left of the input |
| `XmlReader.S3XMLReader.ParseCDATA` | src/s3/s3_xml_response.cpp:401-413 | Appends a CDATA section to the open element; proved to take the step of the reading functions on what is left of the input |
| `XmlReader.S3XMLReader.ParseText` | src/s3/s3_xml_response.cpp:415-441 | White space outside the root, decoded text inside an element; proved to take the step of the reading functions on what is left of the input |
| `XmlReader.S3XMLReader.ParseStartElement` | src/s3/s3_xml_response.cpp:443-519 | Opens an element with its bindings, or closes it at once; proved to take the step of the reading functions on what is left of the input |
| `XmlReader.S3XMLReader.ParseEndElement` | src/s3/s3_xml_response.cpp:521-539 | Closes the open element of that name; proved to take the step of the reading functions on what is left of the input |
| `XmlReader.S3XMLReader.CloseElement` | src/s3/s3_xml_response.cpp:541-554 | Hands the finished node to its parent and drops its bindings; proved to take the step of the reading functions on what is left of the input |
| `XmlReader.S3XMLReader.ApplyNamespaceDeclarations` | src/s3/s3_xml_response.cpp:556-579 | Pushes the declared bindings; proved to take the step of the reading functions on what is left of the input |
| `XmlReader.S3XMLReader.ResolveNamespace` | src/s3/s3_xml_response.cpp:581-600 | The innermost binding of a prefix; proved to take the step of the reading functions on what is left of the input |
| `XmlReader.S3XMLReader.ValidateAttributes` | src/s3/s3_xml_response.cpp:602-621 | No two attributes of the same expanded name; proved to take the step of the reading functions on what is left of the input |
| `XmlReader.ParseCodepoint` | src/s3/s3_xml_response.cpp:299-323 | The value of the digits, or none when a digit is wrong or the value too large |
| `XmlReader.DecodeReference` | src/s3/s3_xml_response.cpp:271-333 | The character a reference stands for, or none |
| `RequestSnapshots.GenerationMonotone` | src/s3/s3_request.cpp:690-759 | In every run of refreshes and redirects the credential generation never decreases and moves by one |
| `RequestSnapshots.OneRefreshPerGeneration` | src/s3/s3_request.cpp:690-736 | However many requests fail with one generation it is replaced once |
| `RequestSnapshots.PublicationsCompose` | src/s3/s3_request.cpp:715-758 | Each publication raises the generation by one, keeps the redirect flag and clients, or keeps generation, credentials and certificates and is a redirect |
| `RequestSnapshots.CredentialsKept` | src/s3/s3_request.cpp:738-759 | Credentials are those of the last refresh however many redirects came since |
| `RequestSnapshots.RegionKept` | src/s3/s3_request.cpp:715-735 | A redirected, non-empty region survives any number of refreshes |
| `RequestSnapshots.RefreshKeepsRegion` | src/s3/s3_request.cpp:722-725 | Once redirected always redirected, and a refresh keeps the region except in the one case below |
| `RequestSnapshots.MergeKeepsRegionExactly` | src/s3/s3_request.cpp:722-725 | A refresh keeps a redirected region if and only if it is not the empty one together with an AWS endpoint and a new access key |
| `RequestSnapshots.RedirectUndone` | src/s3/s3fs.cpp:46-51 | A run in which a refresh undoes a move: a handle opened with an empty region, and an access key that appears later |
| `RequestSnapshots.RedirectsStay` | src/s3/s3_request.cpp:536-564 | Servers only redirect to a region, so without such a handle no refresh undoes a redirect |
| `RequestSnapshots.StepRegional` | src/s3/s3_request.cpp:536-564 | No step but that handle makes the empty region a redirected one |
| `RequestSnapshots.SetRegionExactly` | src/s3/s3_auth.cpp:55-58 | Setting a region keeps credentials, and sets that region exactly outside the same case |
| `RequestSnapshots.RefreshedMeansNewer` | src/s3/s3_request.cpp:690-697 | A refresh that reports success finds newer credentials published |
| `RequestSnapshots.ClientsSurvive` | src/http/http_request_session.cpp:97-106 | Neither publication raises the client generation |
| `RequestSnapshots.StepSafe` | src/s3/s3_request.cpp:690-759 | Every step of any number of refreshing and redirecting threads keeps the history a chain of those two kinds and every reported result true |
| `RequestSnapshots.SetRegionEndpoint` | src/s3/s3_auth.cpp:55-58 | The endpoint follows the region on AWS and stays as it is elsewhere; nothing else changes but by the defaults of a provider |
| `RequestSnapshots.DefaultsFillGaps` | src/s3/s3_provider.cpp:254-278 | The defaults of a provider fill an empty endpoint and URL style, and only for GCS |
| `RequestSnapshots.ReloadedExactly` | src/s3/s3_request.cpp:453-475 | What is read is taken as it is, but for a region that is to be kept |
| `RequestSnapshots.MergedExactly` | src/s3/s3_request.cpp:722-731 | A merge publishes the credentials and certificates that were read, without a redirect all parameters, under the next generation, and keeps the rest |
| `RequestSnapshots.RefreshPublishesRead` | src/s3/s3_request.cpp:706-736 | In every run each publication that raises the generation carries exactly the credentials and certificates that its refresh read, and, unless redirected, all parameters |
| `RequestSnapshots.PublishingPublishes` | src/s3/s3_request.cpp:715-736 | A refresh that nobody outran publishes what it read on top of what is current, and reports success |
| `RequestSnapshots.StaleMergesAgain` | src/s3/s3_request.cpp:715-736 | One that was outrun merges again what it read |
| `RequestSnapshots.MergingPublishes` | src/s3/s3_request.cpp:715-736 | and then publishes it on top of whatever was published meanwhile |
| `RequestSnapshots.RedirectPublishes` | src/s3/s3_request.cpp:738-759 | A move to another region publishes it and reports so |
| `RequestSnapshots.RefreshingOff` | src/s3/s3_request.cpp:697-699 | With refreshing off no run ever replaces the credentials |
| `RequestSnapshots.RedirectExactly` | src/s3/s3_request.cpp:536-564 | A response starts a move if and only if it names a region that its request was not sent to, and to that region |
| `RequestSnapshots.RedirectsChangeRegion` | src/s3/s3_request.cpp:738-759 | What a redirect publishes is another region than before, unless the empty one was asked for and its default was there |
| `RequestSnapshots.SetRegionThrows` | src/s3/s3_provider.cpp:289-299 | Setting a region throws if and only if an aliased scheme or R2 has no endpoint and no default for it |
| `RequestSnapshots.EndpointIsAwsExactly` | src/s3/s3_provider.cpp:235-240 | An endpoint is AWS if and only if it is none, the global one, or that of a region |
| `RequestSnapshots.GivesUpForCause` | src/s3/s3_request.cpp:690-713 | A refresh reports failure only if refreshing is off, its context is gone, or nothing new was read and nobody else refreshed |
| `ClientReuse.GivenBackIsReused` | src/http/http_request_session.cpp:111-178 | In every run a connection given back in order is the one that the next request to its URL gets, and the pool is as before |
| `ClientReuse.ReusesExactly` | src/http/http_request_session.cpp:118-131 | A session-local request of the current generation takes the last idle client that fits, and leaves the others in order |
| `ClientReuse.OthersCreate` | src/http/http_request_session.cpp:128-139 | Any other request gets a new client for its URL, or none without reuse |
| `ClientReuse.MarkedIsNotKept` | src/http/http_request_session.cpp:158-165 | A client marked as unusable does not enter the pool again |
| `ClientReuse.NotKept` | src/http/http_request_session.cpp:150-178 | Neither does one of another mode or generation |
| `ClientReuse.PoolKeptExactly` | src/http/http_request_session.cpp:91-109 | Publishing keeps the pool exactly when the clients are the same |
| `ClientLeases.InvalidationIsFinal` | src/http/http_request_session.cpp:111-148 | A client that existed when the pool was invalidated is handed out afterwards if and only if a lease already held it then and AcquireClient had still to return it; a lease holds it if and only if it did then and was not given back |
| `ClientLeases.ReplacementIsFinal` | src/http/http_request_session.cpp:91-139 | The same equivalences when a snapshot of other kind, HTTP util or reuse mode is published |
| `ClientLeases.FlushIsFinal` | src/http/http_request_session.cpp:117-131 | A request that is under the lock afterwards only gets clients made since |
| `ClientLeases.OldStep` | src/http/http_request_session.cpp:111-178 | No step lets go of an old client or takes one up, but the two that return a lease and give it back |
| `ClientLeases.PickedBeforeInvalidation` | src/http/http_request_session.cpp:118-131 | At any point of any run a client picked from the pool can be handed out after the pool was invalidated |
| `ClientLeases.MadeBeforeInvalidation` | src/http/http_request_session.cpp:132-138 | and so can a client made for a request |
| `ClientLeases.PooledClient` | src/http/http_request_session.cpp:150-166 | A run in which a client waits in the pool to be picked so |
| `ClientLeases.StaleIsDropped` | src/http/http_request_session.cpp:158-172 | Such a client does not enter the pool again |
| `ClientLeases.ChosenLater` | src/http/http_request_session.cpp:117-131 | Which pool a request chose from stays what it was under the lock |
| `ClientLeases.OnePlace` | src/http/http_request_session.cpp:111-178 | A client is idle once, or with one lease, or gone |
| `ClientLeases.IdleAreCurrent` | src/http/http_request_session.cpp:150-178 | Idle clients were made since the pool was last thrown away and share the current HTTP util |
| `ClientLeases.HandedOut` | src/http/http_request_session.cpp:111-139 | Whatever a lease holds was made since the pool was last thrown away before its request was under the lock |
| `ClientLeases.StepSafe` | src/http/http_request_session.cpp:91-178 | Publishing, invalidating, choosing, creating, giving and returning keep all of that |
| `ClientLeases.Pick` | src/http/http_request_session.cpp:118-131 | The last idle client of the util and URL, none only if there is none |
| `ClientPool.HTTPRequestSession.Capture` | src/http/http_request_session.cpp:86-89 | Snapshot and generation together |
| `ClientPool.HTTPRequestSession.TryPublish` | src/http/http_request_session.cpp:91-109 | Publishes exactly if the snapshot is still the expected object; drops idle clients exactly if they cannot be reused |
| `ClientPool.HTTPRequestSession.AcquireClient` | src/http/http_request_session.cpp:111-139 | Takes the last fitting idle client of the captured generation, else says to create one or do without |
| `ClientPool.HTTPRequestSession.InvalidateClients` | src/http/http_request_session.cpp:141-148 | Next generation, empty pool |
| `ClientPool.HTTPRequestSession.ReturnClient` | src/http/http_request_session.cpp:150-178 | Back into the pool exactly if usable, session-local and of the current generation |
| `ClientPool.HTTPClientLease.MoveFrom` | src/http/http_request_session.cpp:39-43 | A moved-from lease gives nothing back |
| `ClientPool.HTTPClientLease.Release` | src/http/http_request_session.cpp:64-70 | A lease gives its client back once |
| `RangeProbe.OneProbe` | src/include/http/http_state.hpp:26-45 | Probing holds exactly while one live guard owns the probe; while support is unknown at most that one coordinated request is past admission |
| `RangeProbe.SupportIsMonotone` | src/include/http/http_state.hpp:91-103 | Support goes from unknown to an answer or from supported to not supported, and not supported is final |
| `RangeProbe.AbortedProbeIsTakenOver` | src/include/http/http_state.hpp:97-103 | A probe that ends unanswered lets a waiting request probe |
| `RangeProbe.StepSafe` | src/include/http/http_state.hpp:22-110 | Every construction, mark, move and destruction of guards keeps that |
| `RangeProbe.AnswerReachesAll` | src/include/http/http_state.hpp:32-45 | The answer of the probe owner is what every waiting request is admitted with |
| `RangeProbe.KnownAnswerIsTaken` | src/include/http/http_state.hpp:26-45 | Once it is known nobody waits |
| `RangeProbe.UncoordinatedIsFree` | src/include/http/http_state.hpp:22-30 | A request without coordination neither waits nor answers |
| `RangeProbe.Withdraws` | src/include/http/http_state.hpp:62-76 | Any coordinated request may withdraw support; a positive answer counts only while the request has none |
| `RangeState.RangeRequestState.BeginRequest` | src/include/http/http_state.hpp:26-45 | Waits exactly while another guard probes; else a guard that owns the probe exactly if support is unknown |
| `RangeState.RangeRequestState.AbortProbe` | src/include/http/http_state.hpp:97-103 | Gives the probe up unless it was answered |
| `RangeState.Guard.MarkSupported` | src/include/http/http_state.hpp:62-68 | Answers only for an enabled guard whose support is unknown |
| `RangeState.Guard.MarkNotSupported` | src/include/http/http_state.hpp:69-76 | Answers for every enabled guard |
| `RangeState.Guard.Destroy` | src/include/http/http_state.hpp:52-56 | Gives up an owned probe |
| `CachedFiles.SingleFlight` | src/http/http_state.cpp:14-25 | At most one download is active, a file is never downloading and cached, so both assertions of Finalize hold |
| `CachedFiles.DownloadHolds` | src/http/http_state.cpp:67-94 | A download holds what was appended since its last reset, whatever others do |
| `CachedFiles.FinalizePublishes` | src/http/http_state.cpp:96-106 | and finalizing publishes exactly that |
| `CachedFiles.StepSafe` | src/http/http_state.cpp:14-117 | Every step keeps a single download |
| `CachedFiles.StartsExactly` | src/http/http_state.cpp:14-25 | A download starts exactly when there is none and the file is not cached |
| `CachedFiles.PublishedStays` | src/http/http_state.cpp:6-30 | What is published stays until it is invalidated, and every handle given out meanwhile has it |
| `CachedFiles.HandlesStay` | src/http/http_state.cpp:27-38 | Handles keep their data whatever is published or invalidated later |
| `CachedFiles.InvalidatedStartsOver` | src/http/http_state.cpp:14-30 | Invalidating makes the next download possible |
| `CachedFiles.AbortedStartsOver` | src/http/http_state.cpp:108-117 | A download that is given up publishes nothing and lets the next one begin |
| `DownloadBuffer.GrownBounds` | src/http/http_state.cpp:75-84 | The doubling reaches the required capacity within 64 bits and below twice of it |
| `DownloadBuffer.CachedFileDownload.ReserveInternal` | src/http/http_state.cpp:51-61 | Never shrinks and keeps the bytes |
| `DownloadBuffer.CachedFileDownload.Append` | src/http/http_state.cpp:67-88 | Appends the bytes, fails exactly on a 64-bit overflow of the size, terminates, and a growing append leaves less than twice the size |
| `DownloadBuffer.CachedFileDownload.Reset` | src/http/http_state.cpp:90-94 | Forgets everything |
| `RangeRead.ReadExact` | src/http/httpfs.cpp:397-461 | A read inside the object that returns has filled the buffer with exactly the bytes asked for, by range, copy or full download, over any chunks, cut-off bodies, redirects and retries, unless its response is an unchecked one |
| `RangeRead.ExactlyChecked` | src/http/http_request.cpp:205-236 | For every final response, Content-Length and range: all honest exchanges, with bodies cut off anywhere, fill every buffer exactly for every object or fail, if and only if the response is a checked one |
| `RangeRead.RangeExact` | src/http/http_request.cpp:154-231 | A range request with a checked response is exact, for any attempts before |
| `RangeRead.UncheckedFails` | src/http/http_request.cpp:223-236 | For every unchecked response an object, a buffer and an honest exchange that returns other bytes |
| `RangeRead.CutOffFails` | src/http/http_request.cpp:205-231 | The object without Content-Length instead of a range that begins further on, cut off where the buffer ends, is taken for the range |
| `RangeRead.ShortFails` | src/http/http_request.cpp:223-227 | A 206 or 202 without the flag that ends early is not noticed |
| `RangeRead.RedirectFails` | src/http/http_request.cpp:162-164 | A redirect answer with the flag and a body of the right size is taken for the range |
| `RangeRead.CompletePartialExact` | src/http/httpfs.cpp:386-391 | A complete 206 is exact, with the flag or without |
| `RangeRead.FallbackDelivers` | src/http/httpfs.cpp:425-461 | A declined range and a whole download give exactly the bytes; a size other than HEAD reported is refused |
| `RangeRead.DownloadIsPrefix` | src/http/httpfs.cpp:623-645 | A full download holds what its last attempt brought |
| `RangeRead.DeliverExactly` | src/http/http_request.cpp:177-188 | Chunks in any cutting fill the buffer with their concatenation, and fail exactly when they exceed it |
| `RangeRead.LastAttemptCounts` | src/http/http_request.cpp:165-167 | Whatever earlier attempts left behind, the last one starts over |
| `RangeRead.SequentialReadsAreObject` | src/http/httpfs.cpp:473-486 | Sequential reads of any sizes, with any failures between, return the object from the first position to the cursor |
| `RangeRead.HTTPFileHandle.Read` | src/http/httpfs.cpp:473-486 | Returns the bytes at the cursor, as many as wanted or left, and moves it by exactly as many; not at all when it throws |
| `RangeRead.ReturnedCounted` | src/http/httpfs.cpp:473-486 | A sequential read that returns has read as many bytes as it wants, or all that are left, or none at the end |
| `RangeRead.CursorMoves` | src/http/httpfs.cpp:473-486 | Reads that return move the cursor by all they want, up to the end |
| `RangeRead.ReadsReachEnd` | src/http/httpfs.cpp:473-486 | So enough of them have read the whole rest of the file |
| `RangeRead.RangeDecided` | src/http/http_request.cpp:154-231 | For every last successful response: each way in which the range request fails or declines, and otherwise the bytes it brought |
| `RangeRead.RefusalRaises` | src/http/http_request.cpp:154-164 | A response of 400 or more fails the read |
| `RangeRead.KnownDeclines` | src/http/http_request.cpp:262-285 | Where ranges are known not to work a read that may fall back asks nothing, and one that may not asks all the same |
| `RangeRead.FailedCondition` | src/http/http_request.cpp:154-158 | A failed condition leaves the buffer as it was and fails the read |
| `RangeRead.DownloadRefuses` | src/http/httpfs.cpp:640-644 | Anything else than a 200 is no download |
| `RangeRead.DownloadDelivers` | src/http/httpfs.cpp:623-645 | A download whose last response is a 200 is exactly its body |
| `RangeRead.CopyAnswers` | src/http/httpfs.cpp:404-413 | A copy answers every read inside it and fails every other one |
| `SharedReads.SharedReadsExact` | src/http/httpfs.cpp:397-461 | Any number of reads of one file, sharing probe, copy and download in any interleaving: each that returns has filled its buffer with exactly the bytes asked for, and none returns undecided |
| `SharedReads.CopiesArePrefixes` | src/http/httpfs.cpp:623-645 | Every published copy, whoever downloaded it, is a beginning of the object |
| `SharedReads.OneAtATime` | src/http/http_request.cpp:271-277 | At most one read downloads; while range support is unknown at most one that may fall back has its request on the way; whoever declines without asking is right that ranges do not work |
| `SharedReads.StepSafe` | src/http/httpfs.cpp:397-461 | Every step of any read keeps probe, copy and downloads consistent with the object |
| `SharedDelivery.RangeAlone` | src/http/httpfs.cpp:397-429 | Against a server that honours ranges, a read alone fills its buffer with its range and leaves support known |
| `SharedDelivery.DownloadAlone` | src/http/httpfs.cpp:425-461 | Against one that ignores them it downloads the object, fills its buffer from it and leaves the copy and the answer for all |
| `SharedDelivery.JustDelivers` | src/http/http_request.cpp:154-202 | An object that is just the range answers the probe when it has come |
| `SharedDelivery.CopyServes` | src/http/httpfs.cpp:404-413 | A copy answers every read inside it without a request |
| `SharedDelivery.OtherSizeIsDropped` | src/http/httpfs.cpp:447-456 | A download of another size than expected is refused and its copy dropped |
| `RangeContext.HTTPRangeRequestContext.HandleResponse` | src/http/http_request.cpp:154-175 | Restarts the buffer on success, refuses a foreign length, answers the probe |
| `RangeContext.HTTPRangeRequestContext.HandleContent` | src/http/http_request.cpp:177-188 | Writes the chunk behind the delivered bytes or refuses it |
| `RangeContext.HTTPRangeRequestContext.Finalize` | src/http/http_request.cpp:190-202 | Reports missing support, a short read, or the response, and answers the probe |

## Left out

- UploadSession.S3UploadSession.PrepareWrite: does not model failing memory allocation, which in the source throws after the buffered part has been moved out.
- UploadRuns.AbortIsLastRequest: counts entries to the abort and create requests, not wire requests, because the request executor may resend one.
- UploadProgress.ComesToRest: takes for granted that every sent request is answered and that the scheduler runs a thread that can move.
- HandleProgress.ComesToRest: takes the same for granted.
- UploadRuns.FinalizedPublishesStream: takes the server's answer to a single PUT or a completion as truthful.
- HandleProtocol.ClaimsKeepSession: takes the file cursor of Write, guarded by another lock, as outside of it.
- GlobWalk.WalkRefinesFlat: models keys and prefixes as decoded; the source decodes the current prefix again for each page, so keys with `%` or `+` are outside the claim.
- GlobWalk.WalkRefinesFlat: compares with the flat listing of the literal prefix; the source does not count `?` as a wildcard when it looks for that prefix.
- RequestSnapshots.StepSafe: covers refreshes, redirects and the region option of a handle; the publication of the parameters that a handle is opened with is not part of it.
- ClientLeases.InvalidationIsFinal: takes InitializeClient as making a new client, which in SHARED mode it need not do; the claim is for SESSION_LOCAL.
- SharedReads.SharedReadsExact: takes the guard of a range request as one object, without the move from its constructor into the request; moves are in `RangeProbe`.
- XmlReader.S3XMLReader.ParseText: collects the text of a run before appending it, where the source appends as it goes; the difference shows only in documents that are rejected.
- Interpretation of parsed responses (which element holds which text) and of listing fields.
- Retries, sleeps and error classification of single requests; range probes without a buffer.
- HTTP transport, signing, hashing, secrets, settings registration, provider policy and logging.
- URL parsing, header normalization, the metadata cache, connection slots and delete batches, which would only add easy members.
- Throughput estimates, which are floating-point.
