// The state that `S3UploadSession` guards with `state_lock`, and one function
// for each of its critical sections: the new state together with what the
// section decided. Waiting on `state_changed` is the answer `Wait`.
module UploadState {
  import opened Common
  import Sizing = UploadSizing

  datatype Lifecycle = Active | Finalizing | Finalized | Aborting | Aborted
  datatype Initialization = NotStarted | InitInProgress | InitSucceeded | InitFailed
  datatype Cleanup = NoCleanup | CleanupInProgress | CleanupComplete
  datatype Disposition = Definitive | Ambiguous

  // `Rethrown` stands for a latched failure that an operation re-raises.
  datatype Error =
    | NotSequential
    | FileTooLarge
    | PartLimit
    | PartMissing
    | RequestFailed(id: nat)
    | Rethrown

  datatype Failure = Failure(primary: Error, abort: Option<Error>)

  datatype Buffer = Buffer(data: Bytes, capacity: nat)

  // A reserved part on its way to the server, which knows it as part `index + 1`.
  datatype Part = Part(index: nat, data: Bytes)

  // A missing ETag is the empty string, as in the source.
  datatype Shared = Shared(
    lifecycle: Lifecycle,
    active: nat,
    nextOffset: nat,
    buffered: Option<Buffer>,
    init: Initialization,
    uploadId: Option<nat>,
    etags: seq<string>,
    primary: Option<Error>,
    abortError: Option<Error>,
    disposition: Disposition,
    abortSuppressed: bool,
    cleanup: Cleanup)

  const InitialShared := Shared(Active, 0, 0, None, NotStarted, None, [], None, None, Definitive, false, NoCleanup)

  function Capture(s: Shared): Failure
    requires s.primary.Some?
  {
    Failure(s.primary.value, s.abortError)
  }

  predicate AwaitsCleanup(s: Shared) {
    s.primary.Some? && s.cleanup != CleanupComplete
  }

  // ---------------------------------------------------------------- admission

  datatype Admission =
    | AdmissionWait
    | Latched(failure: Failure)
    | Refused
    | AlreadyFinalized
    | Admitted(state: Shared)

  function BeginWrite(s: Shared): Admission {
    if AwaitsCleanup(s) then AdmissionWait
    else if s.primary.Some? then Latched(Capture(s))
    else if s.lifecycle != Active then Refused
    else Admitted(s.(active := s.active + 1))
  }

  // The caller takes over `s.buffered`.
  function BeginFinalize(s: Shared): Admission {
    if AwaitsCleanup(s) then AdmissionWait
    else if s.primary.Some? then Latched(Capture(s))
    else if s.lifecycle == Aborting || s.lifecycle == Aborted then Refused
    else if s.lifecycle == Finalizing || s.active > 0 then Refused
    else if s.lifecycle == Finalized then AlreadyFinalized
    else Admitted(s.(lifecycle := Finalizing, active := s.active + 1, buffered := None))
  }

  function FinishFinalize(s: Shared): Shared
    requires s.active > 0
  {
    s.(active := s.active - 1, lifecycle := Finalized)
  }

  // --------------------------------------------------------- failure, release

  function LatchFailure(s: Shared, error: Error, disposition: Disposition): Shared {
    s.(primary := if s.primary.None? then Some(error) else s.primary,
       disposition := if s.primary.None? then disposition else s.disposition,
       abortSuppressed := s.abortSuppressed || disposition == Ambiguous,
       lifecycle := if s.lifecycle == Finalizing then Active else s.lifecycle)
  }

  // What a released operation does next.
  datatype Release =
    | ReleaseDone(state: Shared)
    | ReleaseThrow(state: Shared, failure: Failure)
    | ReleaseWait(state: Shared)
    | ReleaseClean(state: Shared, uploadId: nat)

  function ReleaseOperation(s: Shared): Release
    requires s.active > 0
  {
    var s1 := s.(active := s.active - 1);
    if s1.primary.None? then ReleaseDone(s1)
    else if s1.active == 0 && s1.cleanup == NoCleanup then
      if s1.disposition == Definitive && s1.uploadId.Some? && !s1.abortSuppressed then
        ReleaseClean(s1.(cleanup := CleanupInProgress), s1.uploadId.value)
      else
        ReleaseThrow(s1.(cleanup := CleanupComplete), Capture(s1))
    else if s1.cleanup == CleanupComplete then ReleaseThrow(s1, Capture(s1))
    else ReleaseWait(s1)
  }

  function RecordCleanup(s: Shared, abortError: Option<Error>): Shared {
    s.(abortError := if abortError.Some? && s.abortError.None? then abortError else s.abortError,
       cleanup := CleanupComplete)
  }

  // -------------------------------------------------------- cutting into parts

  // Pieces reserved by one write, the piece left in the buffer, and whether the
  // part limit stopped the write.
  datatype Cutting = Cutting(parts: seq<Bytes>, tail: Option<Buffer>, overflow: bool)

  function Data(b: Option<Buffer>): Bytes {
    if b.Some? then b.value.data else []
  }

  function CutAfter(first: Bytes, rest: Cutting): Cutting {
    rest.(parts := [first] + rest.parts)
  }

  // Cuts `data` when `reserved` parts exist and nothing is buffered.
  function Cut(c: Sizing.Config, reserved: nat, data: Bytes): Cutting
    requires c.growthInterval > 0
    decreases |data|
  {
    if |data| == 0 then Cutting([], None, false)
    else
      var partSize := Sizing.PartSize(c, reserved);
      if (if reserved == 0 then |data| <= partSize else |data| < partSize) then
        Cutting([], Some(Buffer(data, partSize)), false)
      else if !Sizing.HasPartCapacity(c, reserved) then Cutting([], None, true)
      else
        var direct := Sizing.Min(|data|, Sizing.MAX_PART as int);
        CutAfter(data[..direct], Cut(c, reserved + 1, data[direct..]))
  }

  // The same with a buffered piece in front.
  function CutBuffered(c: Sizing.Config, reserved: nat, buffered: Option<Buffer>, data: Bytes): Cutting
    requires c.growthInterval > 0
    requires buffered.Some? ==> |buffered.value.data| <= buffered.value.capacity
  {
    if buffered.None? then Cut(c, reserved, data)
    else if |data| == 0 then Cutting([], buffered, false)
    else
      var b := buffered.value;
      var copied := Sizing.Min(|data|, b.capacity - |b.data|);
      var filled := b.(data := b.data + data[..copied]);
      if |filled.data| < b.capacity || copied == |data| then Cutting([], Some(filled), false)
      else if !Sizing.HasPartCapacity(c, reserved) then Cutting([], None, true)
      else CutAfter(filled.data, Cut(c, reserved + 1, data[copied..]))
  }

  function Blank(n: nat): seq<string> {
    seq(n, _ => "")
  }

  function Numbered(from: nat, parts: seq<Bytes>): seq<Part> {
    seq(|parts|, i requires 0 <= i < |parts| => Part(from + i, parts[i]))
  }

  datatype Preparation =
    | PrepareWait
    | PrepareLatched
    | PrepareError(state: Shared, error: Error)
    | Prepared(state: Shared, parts: seq<Part>)

  predicate BufferFits(s: Shared) {
    s.buffered.Some? ==> |s.buffered.value.data| <= s.buffered.value.capacity
  }

  function PrepareWrite(c: Sizing.Config, s: Shared, data: Bytes, location: nat): Preparation
    requires c.growthInterval > 0 && BufferFits(s)
  {
    if location > s.nextOffset && s.primary.None? then PrepareWait
    else if s.primary.Some? then PrepareLatched
    else if location != s.nextOffset then PrepareError(s, NotSequential)
    else if |data| > c.maxFileSize as int - s.nextOffset then PrepareError(s, FileTooLarge)
    else
      var cut := CutBuffered(c, |s.etags|, s.buffered, data);
      var etags := s.etags + Blank(|cut.parts|);
      if cut.overflow then PrepareError(s.(etags := etags, buffered := None), PartLimit)
      else
        Prepared(s.(etags := etags, buffered := cut.tail, nextOffset := s.nextOffset + |data|),
                 Numbered(|s.etags|, cut.parts))
  }

  // ------------------------------------------------ initialization, completion

  datatype Ensured =
    | EnsureWait
    | EnsureLatched
    | EnsureReady(uploadId: Option<nat>)
    | EnsureStart(state: Shared)

  function EnsureMultipart(s: Shared): Ensured {
    if s.init == InitInProgress && s.primary.None? then EnsureWait
    else if s.primary.Some? then EnsureLatched
    else if s.init == InitSucceeded then EnsureReady(s.uploadId)
    else if s.init == InitFailed then EnsureLatched
    else EnsureStart(s.(init := InitInProgress))
  }

  function PublishUploadId(s: Shared, uploadId: nat): Shared {
    s.(uploadId := Some(uploadId), init := InitSucceeded)
  }

  function PublishInitFailure(s: Shared, error: Error, disposition: Disposition): Shared {
    LatchFailure(s.(init := InitFailed), error, disposition)
  }

  function StoreETag(s: Shared, index: nat, etag: string): Shared
    requires index < |s.etags|
  {
    if s.primary.Some? then s else s.(etags := s.etags[index := etag])
  }

  predicate MissingPart(s: Shared) {
    "" in s.etags
  }

  // -------------------------------------------------------------------- abort

  datatype AbortEntry = AbortEntryWait | AbortReturns(aborted: bool) | AbortDrains(state: Shared)

  function BeginAbort(s: Shared): AbortEntry {
    if s.lifecycle == Finalizing || s.lifecycle == Aborting then AbortEntryWait
    else if s.lifecycle == Finalized then AbortReturns(false)
    else if s.lifecycle == Aborted then AbortReturns(true)
    else AbortDrains(s.(lifecycle := Aborting))
  }

  datatype Drain =
    | DrainWait
    | DrainAwaitCleanup(state: Shared)
    | DrainClean(state: Shared, uploadId: nat)
    | DrainDone(state: Shared)

  function DrainAbort(s: Shared): Drain {
    if s.active > 0 then DrainWait
    else
      var s1 := s.(buffered := None);
      if s1.primary.Some? then DrainAwaitCleanup(s1)
      else if s1.uploadId.Some? && !s1.abortSuppressed then
        DrainClean(s1.(cleanup := CleanupInProgress), s1.uploadId.value)
      else DrainDone(s1.(cleanup := CleanupComplete, lifecycle := Aborted))
  }
}
