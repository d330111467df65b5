// S3UploadSession as a transition system. Every step of a thread is one critical
// section on `state_lock`, one request leaving for the server, or one answer
// coming back; threads interleave at every step boundary. Each thread runs any
// number of calls to Write (and the release of its claim), Finalize and Abort.
module UploadProtocol {
  import opened Common
  import opened UploadState
  import Sizing = UploadSizing

  type Tid = nat

  // Where a thread is inside a call.
  datatype Thread =
    | Idle
    | EnteringWrite(data: Bytes, location: nat)
    | EnteringFinalize
    | EnteringAbort
    | Inside(fin: bool, work: Work)                    // admitted; `fin` for Finalize
    | Failing(error: Error, disposition: Disposition)  // about to latch its error
    | Releasing(failed: bool, quiet: bool)             // about to leave the operation
    | AwaitingCleanup(quiet: bool)
    | Cleaning(id: nat, quiet: bool, request: Request)
    | Draining
    | AbortAwaiting
    | AbortCleaning(id: nat, request: Request)

  // The place inside an admitted operation; `sent` says whether the request of
  // that place has left for the server.
  datatype Work =
    | Preparing(data: Bytes, location: nat)
    | Looping(parts: seq<Part>)
    | Ensuring(parts: seq<Part>)
    | Initializing(parts: seq<Part>, sent: bool)
    | Publishing(parts: seq<Part>, answer: InitAnswer)
    | Checking(parts: seq<Part>, uploadId: nat)
    | Putting(parts: seq<Part>, uploadId: nat, sent: bool)
    | Storing(parts: seq<Part>, etag: string)
    | Claimed
    | Deciding(tail: Option<Buffer>)
    | PuttingSingle(body: Bytes, sent: bool)
    | Reserving(buffer: Buffer)
    | Snapshotting
    | Completing(etags: seq<string>, sent: bool)
    | Finishing

  datatype Request = Unsent | Sent | Answered(abortError: Option<Error>)

  datatype InitAnswer = InitOk(uploadId: nat) | InitError(fault: nat, disposition: Disposition)

  // Steps of the client (`Run`), new calls, and answers of the server. `took`
  // leaves open whether a request that failed for the client took effect.
  datatype Event =
    | StartWrite(data: Bytes, location: nat)
    | StartFinalize
    | StartAbort
    | FinishClaim
    | DropClaim
    | Run
    | AnswerInit(init: InitAnswer)
    | AnswerOk(etag: string)
    | AnswerError(fault: nat, disposition: Disposition, took: bool)
    | AnswerDelete(abortError: Option<Error>)

  datatype Call =
    | InitCall
    | PutCall(part: Part)
    | PutSingleCall(body: Bytes)
    | CompleteCall(etags: seq<string>)
    | DeleteCall(id: nat)

  // How a call ended for its caller.
  datatype Outcome =
    | Returned
    | AbortReturned(aborted: bool)
    | ThrewRefused
    | ThrewFailure(failure: Failure)
    | ThrewAbortError(error: Error)

  // `sh` and `threads` drive the steps; the other fields only record history.
  datatype System = System(
    sh: Shared,
    threads: map<Tid, Thread>,
    holders: set<Tid>,           // threads inside an admitted operation
    aborter: Option<Tid>,        // thread that moved the session to Aborting
    cleaner: Option<Tid>,        // thread that was given the cleanup
    initializer: Option<Tid>,    // thread that was given the initialization
    latches: seq<(Error, Disposition)>,
    log: seq<Call>,              // requests in the order they were sent
    outcomes: seq<Outcome>,
    data: DataHistory)

  datatype DataHistory = DataHistory(
    stream: Bytes,               // admitted writes in offset order
    reserved: seq<Bytes>,        // payloads by part index
    owner: seq<Tid>,             // thread that reserved each part
    brokenBy: Option<Tid>,       // thread whose operation the part limit stopped
    blanks: set<nat>,            // parts that the server answered with an empty ETag
    store: map<nat, Bytes>,      // parts held by the server
    published: Option<Bytes>)    // object the server shows

  const Start := System(InitialShared, map[], {}, None, None, None, [], [], [],
                        DataHistory([], [], [], None, {}, map[], None))

  function At(s: System, t: Tid): Thread {
    if t in s.threads then s.threads[t] else Idle
  }

  function Move(s: System, t: Tid, next: Thread): System {
    s.(threads := s.threads[t := next])
  }

  function Continue(s: System, t: Tid, fin: bool, work: Work): System {
    Move(s, t, Inside(fin, work))
  }

  function End(s: System, t: Tid, outcome: Outcome): System {
    Move(s, t, Idle).(outcomes := s.outcomes + [outcome])
  }

  function Send(s: System, t: Tid, next: Thread, call: Call): System {
    Move(s, t, next).(log := s.log + [call])
  }

  // The error is latched in the next critical section of `t`.
  function Fail(s: System, t: Tid, error: Error, disposition: Disposition): System {
    Move(s, t, Failing(error, disposition))
  }

  // -------------------------------------------------------------- outside calls

  function StepEntering(s: System, t: Tid, ev: Event): System {
    match (At(s, t), ev)
    case (Idle, StartWrite(data, location)) => Move(s, t, EnteringWrite(data, location))
    case (Idle, StartFinalize) => Move(s, t, EnteringFinalize)
    case (Idle, StartAbort) => Move(s, t, EnteringAbort)
    case (EnteringWrite(data, location), Run) => StepBeginWrite(s, t, data, location)
    case (EnteringFinalize, Run) => StepBeginFinalize(s, t)
    case (EnteringAbort, Run) => StepBeginAbort(s, t)
    case _ => s
  }

  function StepBeginWrite(s: System, t: Tid, data: Bytes, location: nat): System {
    match BeginWrite(s.sh)
    case Latched(failure) => End(s, t, ThrewFailure(failure))
    case Refused => End(s, t, ThrewRefused)
    case Admitted(sh) => Continue(s, t, false, Preparing(data, location)).(sh := sh, holders := s.holders + {t})
    case _ => s
  }

  function StepBeginFinalize(s: System, t: Tid): System {
    match BeginFinalize(s.sh)
    case Latched(failure) => End(s, t, ThrewFailure(failure))
    case Refused => End(s, t, ThrewRefused)
    case AlreadyFinalized => End(s, t, Returned)
    case Admitted(sh) => Continue(s, t, true, Deciding(s.sh.buffered)).(sh := sh, holders := s.holders + {t})
    case _ => s
  }

  function StepBeginAbort(s: System, t: Tid): System {
    match BeginAbort(s.sh)
    case AbortReturns(aborted) => End(s, t, AbortReturned(aborted))
    case AbortDrains(sh) => Move(s, t, Draining).(sh := sh, aborter := Some(t))
    case _ => s
  }

  // ------------------------------------------------------------ reserving parts

  function Payloads(parts: seq<Part>): seq<Bytes> {
    seq(|parts|, i requires 0 <= i < |parts| => parts[i].data)
  }

  function Reserve(d: DataHistory, t: Tid, pieces: seq<Bytes>): DataHistory {
    d.(reserved := d.reserved + pieces, owner := d.owner + seq(|pieces|, _ => t))
  }

  function StepPrepare(c: Sizing.Config, s: System, t: Tid, data: Bytes, location: nat): System
    requires c.growthInterval > 0 && BufferFits(s.sh)
  {
    match PrepareWrite(c, s.sh, data, location)
    case PrepareWait => s
    case PrepareLatched => Fail(s, t, Rethrown, Definitive)
    case PrepareError(sh, error) =>
      var cut := CutBuffered(c, |s.sh.etags|, s.sh.buffered, data);
      if error == PartLimit then
        Fail(s, t, error, Definitive).(sh := sh, data := Reserve(s.data, t, cut.parts).(brokenBy := Some(t)))
      else
        Fail(s, t, error, Definitive)
    case Prepared(sh, parts) =>
      Continue(s, t, false, Looping(parts)).(
        sh := sh, data := Reserve(s.data, t, Payloads(parts)).(stream := s.data.stream + data))
  }

  function StepReserve(c: Sizing.Config, s: System, t: Tid, buffer: Buffer): System {
    if !Sizing.HasPartCapacity(c, |s.sh.etags|) then
      Fail(s, t, PartLimit, Definitive).(data := s.data.(brokenBy := Some(t)))
    else
      Continue(s, t, true, Ensuring([Part(|s.sh.etags|, buffer.data)])).(
        sh := s.sh.(etags := s.sh.etags + [""]), data := Reserve(s.data, t, [buffer.data]))
  }

  // ------------------------------------------------------------ uploading parts

  function StepLoop(s: System, t: Tid, fin: bool, parts: seq<Part>): System {
    if |parts| == 0 && !fin then Continue(s, t, fin, Claimed)
    else if s.sh.primary.Some? then Fail(s, t, Rethrown, Definitive)
    else if |parts| == 0 then Continue(s, t, fin, Snapshotting)
    else Continue(s, t, fin, Ensuring(parts))
  }

  function StepEnsure(s: System, t: Tid, fin: bool, parts: seq<Part>): System {
    match EnsureMultipart(s.sh)
    case EnsureWait => s
    case EnsureLatched => Fail(s, t, Rethrown, Definitive)
    case EnsureReady(id) => if id.Some? then Continue(s, t, fin, Checking(parts, id.value)) else s
    case EnsureStart(sh) => Continue(s, t, fin, Initializing(parts, false)).(sh := sh, initializer := Some(t))
  }

  function StepPublish(s: System, t: Tid, fin: bool, parts: seq<Part>, answer: InitAnswer): System {
    match answer
    case InitOk(id) =>
      if s.sh.primary.Some? then Fail(s, t, Rethrown, Definitive).(sh := PublishUploadId(s.sh, id))
      else Continue(s, t, fin, Checking(parts, id)).(sh := PublishUploadId(s.sh, id))
    case InitError(fault, disposition) =>
      Fail(s, t, RequestFailed(fault), disposition).(
        sh := PublishInitFailure(s.sh, RequestFailed(fault), disposition),
        latches := s.latches + [(RequestFailed(fault), disposition)])
  }

  function Keep(d: DataHistory, part: Part, took: bool): DataHistory {
    if took then d.(store := d.store[part.index := part.data]) else d
  }

  function StepStore(s: System, t: Tid, fin: bool, parts: seq<Part>, etag: string): System {
    if |parts| == 0 || parts[0].index >= |s.sh.etags| then s
    else
      var index := parts[0].index;
      var sh := StoreETag(s.sh, index, etag);
      if sh.primary.Some? then Fail(s, t, Rethrown, Definitive).(sh := sh)
      else
        Continue(s, t, fin, Looping(parts[1..])).(
          sh := sh, data := if etag == "" then s.data.(blanks := s.data.blanks + {index}) else s.data)
  }

  function StepUpload(s: System, t: Tid, fin: bool, work: Work, ev: Event): System {
    match (work, ev)
    case (Looping(parts), Run) => StepLoop(s, t, fin, parts)
    case (Ensuring(parts), Run) => StepEnsure(s, t, fin, parts)
    case (Initializing(parts, false), Run) => Send(s, t, Inside(fin, Initializing(parts, true)), InitCall)
    case (Initializing(parts, true), AnswerInit(answer)) => Continue(s, t, fin, Publishing(parts, answer))
    case (Publishing(parts, answer), Run) => StepPublish(s, t, fin, parts, answer)
    case (Checking(parts, id), Run) =>
      if s.sh.primary.Some? then Fail(s, t, Rethrown, Definitive)
      else Continue(s, t, fin, Putting(parts, id, false))
    case (Putting(parts, id, false), Run) =>
      if |parts| == 0 then s else Send(s, t, Inside(fin, Putting(parts, id, true)), PutCall(parts[0]))
    case (Putting(parts, id, true), AnswerOk(etag)) =>
      if |parts| == 0 then s
      else Continue(s, t, fin, Storing(parts, etag)).(data := Keep(s.data, parts[0], true))
    case (Putting(parts, id, true), AnswerError(fault, _, took)) =>
      if |parts| == 0 then s
      else Fail(s, t, RequestFailed(fault), Definitive).(data := Keep(s.data, parts[0], took))
    case (Storing(parts, etag), Run) => StepStore(s, t, fin, parts, etag)
    case (Claimed, FinishClaim) => Move(s, t, Releasing(false, false))
    case (Claimed, DropClaim) => Move(s, t, Releasing(false, true))
    case _ => s
  }

  // ----------------------------------------------------------------- finalizing

  // The object a completion request assembles from its first `n` parts.
  function Assemble(store: map<nat, Bytes>, n: nat): Bytes {
    if n == 0 then [] else Assemble(store, n - 1) + (if n - 1 in store then store[n - 1] else [])
  }

  function Publish(d: DataHistory, content: Bytes, took: bool): DataHistory {
    if took then d.(published := Some(content)) else d
  }

  function StepFinalize(s: System, t: Tid, work: Work, ev: Event): System {
    match (work, ev)
    case (Deciding(tail), Run) =>
      if |s.sh.etags| == 0 then Continue(s, t, true, PuttingSingle(Data(tail), false))
      else if tail.Some? then Continue(s, t, true, Reserving(tail.value))
      else Continue(s, t, true, Looping([]))
    case (PuttingSingle(body, false), Run) =>
      Send(s, t, Inside(true, PuttingSingle(body, true)), PutSingleCall(body))
    case (PuttingSingle(body, true), AnswerOk(_)) =>
      Continue(s, t, true, Finishing).(data := Publish(s.data, body, true))
    case (PuttingSingle(body, true), AnswerError(fault, _, took)) =>
      Fail(s, t, RequestFailed(fault), Definitive).(data := Publish(s.data, body, took))
    case (Snapshotting, Run) =>
      if MissingPart(s.sh) then Fail(s, t, PartMissing, Definitive)
      else Continue(s, t, true, Completing(s.sh.etags, false))
    case (Completing(etags, false), Run) =>
      Send(s, t, Inside(true, Completing(etags, true)), CompleteCall(etags))
    case (Completing(etags, true), AnswerOk(_)) =>
      Continue(s, t, true, Finishing).(data := Publish(s.data, Assemble(s.data.store, |etags|), true))
    case (Completing(etags, true), AnswerError(fault, disposition, took)) =>
      Fail(s, t, RequestFailed(fault), disposition).(data := Publish(s.data, Assemble(s.data.store, |etags|), took))
    case (Finishing, Run) =>
      if s.sh.active == 0 then s
      else End(s, t, Returned).(sh := FinishFinalize(s.sh), holders := s.holders - {t})
    case _ => s
  }

  // -------------------------------------------------------- failing, releasing

  function StepLatch(s: System, t: Tid, error: Error, disposition: Disposition): System {
    Move(s, t, Releasing(true, false)).(sh := LatchFailure(s.sh, error, disposition),
                                        latches := s.latches + [(error, disposition)])
  }

  // The destructor of a claim swallows what the release throws.
  function Thrown(failure: Failure, quiet: bool): Outcome {
    if quiet then Returned else ThrewFailure(failure)
  }

  function StepRelease(s: System, t: Tid, quiet: bool): System {
    if s.sh.active == 0 then s
    else
      match ReleaseOperation(s.sh)
      case ReleaseDone(sh) => End(s, t, Returned).(sh := sh, holders := s.holders - {t})
      case ReleaseThrow(sh, failure) => End(s, t, Thrown(failure, quiet)).(sh := sh, holders := s.holders - {t})
      case ReleaseWait(sh) => Move(s, t, AwaitingCleanup(quiet)).(sh := sh, holders := s.holders - {t})
      case ReleaseClean(sh, id) =>
        Move(s, t, Cleaning(id, quiet, Unsent)).(sh := sh, holders := s.holders - {t}, cleaner := Some(t))
  }

  function StepClean(s: System, t: Tid, id: nat, quiet: bool, request: Request, ev: Event): System {
    match (request, ev)
    case (Unsent, Run) => Send(s, t, Cleaning(id, quiet, Sent), DeleteCall(id))
    case (Sent, AnswerDelete(error)) => Move(s, t, Cleaning(id, quiet, Answered(error)))
    case (Answered(error), Run) =>
      var sh := RecordCleanup(s.sh, error);
      if sh.primary.None? then s else End(s, t, Thrown(Capture(sh), quiet)).(sh := sh)
    case _ => s
  }

  // A thread that waits for another one's cleanup.
  function StepAwait(s: System, t: Tid, quiet: bool, aborting: bool): System {
    if s.sh.cleanup != CleanupComplete || s.sh.primary.None? then s
    else
      End(s, t, Thrown(Capture(s.sh), quiet)).(sh := if aborting then s.sh.(lifecycle := Aborted) else s.sh)
  }

  // ------------------------------------------------------------------- aborting

  function StepDrain(s: System, t: Tid): System {
    match DrainAbort(s.sh)
    case DrainWait => s
    case DrainAwaitCleanup(sh) => Move(s, t, AbortAwaiting).(sh := sh)
    case DrainClean(sh, id) => Move(s, t, AbortCleaning(id, Unsent)).(sh := sh, cleaner := Some(t))
    case DrainDone(sh) => End(s, t, AbortReturned(true)).(sh := sh)
  }

  function StepAbortClean(s: System, t: Tid, id: nat, request: Request, ev: Event): System {
    match (request, ev)
    case (Unsent, Run) => Send(s, t, AbortCleaning(id, Sent), DeleteCall(id))
    case (Sent, AnswerDelete(error)) => Move(s, t, AbortCleaning(id, Answered(error)))
    case (Answered(error), Run) =>
      End(s, t, if error.Some? then ThrewAbortError(error.value) else AbortReturned(true)).(
        sh := s.sh.(cleanup := CleanupComplete, lifecycle := Aborted))
    case _ => s
  }

  // ----------------------------------------------------------------- all threads

  function StepInside(c: Sizing.Config, s: System, t: Tid, fin: bool, work: Work, ev: Event): System
    requires c.growthInterval > 0 && BufferFits(s.sh)
  {
    match work
    case Preparing(data, location) => if ev.Run? then StepPrepare(c, s, t, data, location) else s
    case Reserving(buffer) => if ev.Run? then StepReserve(c, s, t, buffer) else s
    case Deciding(_) | PuttingSingle(_, _) | Snapshotting | Completing(_, _) | Finishing =>
      StepFinalize(s, t, work, ev)
    case _ => StepUpload(s, t, fin, work, ev)
  }

  // An event that does not fit the state of its thread changes nothing.
  function Step(c: Sizing.Config, s: System, t: Tid, ev: Event): System
    requires c.growthInterval > 0 && BufferFits(s.sh)
  {
    match At(s, t)
    case Inside(fin, work) => StepInside(c, s, t, fin, work, ev)
    case Failing(error, disposition) => if ev.Run? then StepLatch(s, t, error, disposition) else s
    case Releasing(_, quiet) => if ev.Run? then StepRelease(s, t, quiet) else s
    case AwaitingCleanup(quiet) => if ev.Run? then StepAwait(s, t, quiet, false) else s
    case Cleaning(id, quiet, request) => StepClean(s, t, id, quiet, request, ev)
    case Draining => if ev.Run? then StepDrain(s, t) else s
    case AbortAwaiting => if ev.Run? then StepAwait(s, t, false, true) else s
    case AbortCleaning(id, request) => StepAbortClean(s, t, id, request, ev)
    case _ => StepEntering(s, t, ev)
  }
}
