// S3UploadSession itself: the fields guarded by `state_lock` and the critical
// sections that update them in place, each proved to be the transition that the
// protocol takes.
module UploadSession {
  import opened Common
  import State = UploadState
  import Sizing = UploadSizing

  // A buffer of fixed capacity that is filled from the front.
  class BufferedPart {
    const buffer: array<byte>
    var size: nat

    ghost predicate Valid() reads this { size <= buffer.Length }

    function Contents(): Bytes
      requires size <= buffer.Length
      reads this, buffer
    {
      buffer[..size]
    }

    constructor (capacity: nat)
      ensures Valid() && fresh(buffer) && buffer.Length == capacity && size == 0
    {
      buffer := new byte[capacity];
      size := 0;
    }

    // AppendToBufferedPart: copies as much of `data[from..]` as fits.
    method Append(data: Bytes, from: nat) returns (copied: nat)
      requires Valid() && from <= |data|
      modifies this`size, buffer
      ensures Valid()
      ensures copied == Sizing.Min(|data| - from, buffer.Length - old(size))
      ensures Contents() == old(Contents()) + data[from..from + copied]
    {
      copied := Sizing.Min(|data| - from, buffer.Length - size);
      for i := 0 to copied
        invariant size == old(size)
        invariant forall k :: 0 <= k < size ==> buffer[k] == old(buffer[k])
        invariant forall k :: size <= k < size + i ==> buffer[k] == data[from + k - size]
      {
        buffer[size + i] := data[from + i];
      }
      assert buffer[..size] == old(buffer[..size]) && buffer[size..size + copied] == data[from..from + copied];
      assert buffer[..size + copied] == buffer[..size] + buffer[size..size + copied];
      size := size + copied;
    }
  }

  datatype Admitted =
    | MustWait
    | Throws(failure: State.Failure)
    | Rejected
    | AlreadyFinalized
    | Granted

  function Answer(a: State.Admission): Admitted {
    match a
    case AdmissionWait => MustWait
    case Latched(failure) => Throws(failure)
    case Refused => Rejected
    case AlreadyFinalized => AlreadyFinalized
    case Admitted(_) => Granted
  }

  datatype Released = Returns | ThrowsFailure(failure: State.Failure) | AwaitsCleanup | MustClean(uploadId: nat)

  function ReleasedAs(r: State.Release): Released {
    match r
    case ReleaseDone(_) => Returns
    case ReleaseThrow(_, failure) => ThrowsFailure(failure)
    case ReleaseWait(_) => AwaitsCleanup
    case ReleaseClean(_, id) => MustClean(id)
  }

  datatype Prepared = Parked | AlreadyFailed | Failed(error: State.Error) | Parts(parts: seq<State.Part>)

  datatype Ensured = Parks | FailsLatched | Ready(uploadId: Option<nat>) | Initialize

  datatype AbortEntered = WaitForOther | Answers(aborted: bool) | Drains

  datatype Drained = StillBusy | AwaitFailureCleanup | CleanUp(uploadId: nat) | NothingToClean

  // After reserving `pieces` on top of `origin`, `etags` has one blank and `parts`
  // one entry for each of them.
  ghost predicate Reserved(origin: seq<string>, pieces: seq<Bytes>, etags: seq<string>, parts: seq<State.Part>) {
    etags == origin + State.Blank(|pieces|) && parts == State.Numbered(|origin|, pieces)
  }

  lemma NothingReserved(etags: seq<string>)
    ensures Reserved(etags, [], etags, [])
  {
    assert etags + State.Blank(0) == etags && State.Numbered(|etags|, []) == [];
  }

  ghost function Joined(pieces: seq<Bytes>, rest: State.Cutting): State.Cutting {
    State.Cutting(pieces + rest.parts, rest.tail, rest.overflow)
  }

  lemma JoinedAfter(pieces: seq<Bytes>, first: Bytes, rest: State.Cutting)
    ensures Joined(pieces, State.CutAfter(first, rest)) == Joined(pieces + [first], rest)
  {
    assert pieces + ([first] + rest.parts) == (pieces + [first]) + rest.parts;
  }

  // One round of the cutting loop, at an offset of the whole input.
  lemma CutUnfolds(c: Sizing.Config, reserved: nat, data: Bytes, from: nat)
    requires c.growthInterval > 0 && from < |data|
    ensures var remaining, partSize := |data| - from, Sizing.PartSize(c, reserved);
      var direct := Sizing.Min(remaining, Sizing.MAX_PART as int);
      State.Cut(c, reserved, data[from..]) ==
        if (if reserved == 0 then remaining <= partSize else remaining < partSize) then
          State.Cutting([], Some(State.Buffer(data[from..], partSize)), false)
        else if !Sizing.HasPartCapacity(c, reserved) then State.Cutting([], None, true)
        else State.CutAfter(data[from..from + direct], State.Cut(c, reserved + 1, data[from + direct..]))
  {
    var rest := data[from..];
    var direct := Sizing.Min(|rest|, Sizing.MAX_PART as int);
    assert rest[..direct] == data[from..from + direct] && rest[direct..] == data[from + direct..];
  }

  class S3UploadSession {
    const config: Sizing.Config
    var lifecycle: State.Lifecycle
    var activeOperations: nat
    var nextOffset: nat
    var buffered: BufferedPart?
    var initialization: State.Initialization
    var uploadId: Option<nat>
    var etags: seq<string>
    var primaryError: Option<State.Error>
    var abortError: Option<State.Error>
    var disposition: State.Disposition
    var abortSuppressed: bool
    var cleanup: State.Cleanup

    ghost predicate Valid()
      reads this, buffered
    {
      config.growthInterval > 0 && (buffered != null ==> buffered.Valid())
    }

    ghost function Footprint(): set<object>
      reads this
    {
      if buffered == null then {this} else {this, buffered, buffered.buffer}
    }

    // The value the protocol works on.
    ghost function View(): State.Shared
      requires Valid()
      reads this, buffered, Footprint()
    {
      State.Shared(
        lifecycle, activeOperations, nextOffset, ViewOf(buffered), initialization, uploadId, etags,
        primaryError, abortError, disposition, abortSuppressed, cleanup)
    }

    static ghost function ViewOf(b: BufferedPart?): Option<State.Buffer>
      requires b != null ==> b.Valid()
      reads if b == null then {} else {b, b.buffer}
    {
      if b == null then None else Some(State.Buffer(b.Contents(), b.buffer.Length))
    }

    constructor (c: Sizing.Config)
      requires c.growthInterval > 0
      ensures Valid() && config == c && View() == State.InitialShared
    {
      config := c;
      lifecycle, activeOperations, nextOffset, buffered := State.Active, 0, 0, null;
      initialization, uploadId, etags := State.NotStarted, None, [];
      primaryError, abortError, disposition := None, None, State.Definitive;
      abortSuppressed, cleanup := false, State.NoCleanup;
    }

    // ---------------------------------------------------- admission and release

    method BeginWriteOperation() returns (r: Admitted)
      requires Valid()
      modifies this
      ensures Valid() && buffered == old(buffered)
      ensures r == Answer(State.BeginWrite(old(View())))
      ensures View() == if r.Granted? then State.BeginWrite(old(View())).state else old(View())
    {
      if primaryError.Some? && cleanup != State.CleanupComplete {
        return MustWait;
      }
      if primaryError.Some? {
        return Throws(State.Failure(primaryError.value, abortError));
      } else if lifecycle == State.Aborting || lifecycle == State.Aborted {
        return Rejected;
      } else if lifecycle == State.Finalizing {
        return Rejected;
      } else if lifecycle == State.Finalized {
        return Rejected;
      }
      activeOperations := activeOperations + 1;
      return Granted;
    }

    method BeginFinalize() returns (r: Admitted, tail: BufferedPart?)
      requires Valid()
      modifies this
      ensures Valid()
      ensures r == Answer(State.BeginFinalize(old(View())))
      ensures r.Granted? ==> tail == old(buffered) && buffered == null
      ensures !r.Granted? ==> tail == null && buffered == old(buffered)
      ensures View() == if r.Granted? then State.BeginFinalize(old(View())).state else old(View())
    {
      tail := null;
      if primaryError.Some? && cleanup != State.CleanupComplete {
        return MustWait, tail;
      }
      if primaryError.Some? {
        return Throws(State.Failure(primaryError.value, abortError)), tail;
      } else if lifecycle == State.Aborting || lifecycle == State.Aborted {
        return Rejected, tail;
      } else if lifecycle == State.Finalizing || activeOperations > 0 {
        return Rejected, tail;
      } else if lifecycle == State.Finalized {
        return AlreadyFinalized, tail;
      }
      lifecycle := State.Finalizing;
      activeOperations := activeOperations + 1;
      tail := buffered;
      buffered := null;
      return Granted, tail;
    }

    method FinishFinalize()
      requires Valid() && activeOperations > 0
      modifies this
      ensures Valid() && buffered == old(buffered)
      ensures View() == State.FinishFinalize(old(View()))
    {
      activeOperations := activeOperations - 1;
      lifecycle := State.Finalized;
    }

    method LatchFailureLocked(error: State.Error, d: State.Disposition)
      requires Valid()
      modifies this
      ensures Valid() && buffered == old(buffered)
      ensures View() == State.LatchFailure(old(View()), error, d)
    {
      if primaryError.None? {
        primaryError := Some(error);
        disposition := d;
      }
      if d == State.Ambiguous {
        abortSuppressed := true;
      }
      if lifecycle == State.Finalizing {
        lifecycle := State.Active;
      }
    }

    // The section of ReleaseOperation up to its wait or its abort request.
    method ReleaseOperation() returns (r: Released)
      requires Valid() && activeOperations > 0
      modifies this
      ensures Valid() && buffered == old(buffered)
      ensures r == ReleasedAs(State.ReleaseOperation(old(View())))
      ensures View() == State.ReleaseOperation(old(View())).state
    {
      activeOperations := activeOperations - 1;
      if primaryError.None? {
        return Returns;
      }
      if activeOperations == 0 && cleanup == State.NoCleanup {
        if disposition == State.Definitive && uploadId.Some? && !abortSuppressed {
          cleanup := State.CleanupInProgress;
          return MustClean(uploadId.value);
        }
        cleanup := State.CleanupComplete;
      }
      if cleanup != State.CleanupComplete {
        return AwaitsCleanup;
      }
      return ThrowsFailure(State.Failure(primaryError.value, abortError));
    }

    // The section of ReleaseOperation after its abort request.
    method RecordCleanup(error: Option<State.Error>)
      requires Valid()
      modifies this
      ensures Valid() && buffered == old(buffered)
      ensures View() == State.RecordCleanup(old(View()), error)
    {
      if error.Some? && abortError.None? {
        abortError := error;
      }
      cleanup := State.CleanupComplete;
    }

    // The section of ReleaseOperation after its wait: None to go on waiting, else the
    // failure that it throws.
    method AwaitCleanup() returns (failure: Option<State.Failure>)
      requires Valid() && primaryError.Some?
      ensures failure == if View().cleanup == State.CleanupComplete then Some(State.Capture(View())) else None
    {
      if cleanup != State.CleanupComplete {
        return None;
      }
      return Some(State.Failure(primaryError.value, abortError));
    }

    // What the operation rethrows, if anything was latched.
    method ThrowIfFailed() returns (failure: Option<State.Failure>)
      requires Valid()
      ensures failure == if View().primary.Some? then Some(State.Capture(View())) else None
    {
      if primaryError.Some? {
        return Some(State.Failure(primaryError.value, abortError));
      }
      return None;
    }

    // ------------------------------------------------------------ reserving parts

    // ReservePart; `ok` is false when the part limit makes it throw.
    method ReservePart(payload: Bytes, parts: seq<State.Part>) returns (ok: bool, more: seq<State.Part>)
      modifies this`etags
      ensures ok == Sizing.HasPartCapacity(config, old(|etags|))
      ensures !ok ==> etags == old(etags) && more == parts
      ensures ok ==> |etags| == old(|etags|) + 1
      ensures forall origin, pieces :: ok && Reserved(origin, pieces, old(etags), parts) ==>
        Reserved(origin, pieces + [payload], etags, more)
    {
      if !Sizing.HasPartCapacity(config, |etags|) {
        return false, parts;
      }
      more := parts + [State.Part(|etags|, payload)];
      etags := etags + [""];
      return true, more;
    }

    // Reserving parts changes `etags` and nothing else that the protocol sees.
    twostate predicate OnlyPartsReserved()
      reads this
    {
      && lifecycle == old(lifecycle) && activeOperations == old(activeOperations) && nextOffset == old(nextOffset)
      && initialization == old(initialization) && uploadId == old(uploadId) && primaryError == old(primaryError)
      && abortError == old(abortError) && disposition == old(disposition)
      && abortSuppressed == old(abortSuppressed) && cleanup == old(cleanup)
    }

    // The first half of PrepareWrite: tops up the buffered part, and reserves it
    // when input is left over.
    method TopUpBuffered(data: Bytes)
        returns (ok: bool, parts: seq<State.Part>, part: BufferedPart?, inputOffset: nat, ghost pieces: seq<Bytes>)
      requires Valid()
      modifies Footprint()
      ensures OnlyPartsReserved() && buffered == null && inputOffset <= |data|
      ensures part == null || (part == old(buffered) && part.Valid())
      ensures Reserved(old(etags), pieces, etags, parts)
      ensures var cut := State.CutBuffered(config, old(|etags|), old(ViewOf(buffered)), data);
        if !ok then cut == State.Cutting(pieces, None, true)
        else if part != null then cut == State.Cutting(pieces, ViewOf(part), false)
        else cut == Joined(pieces, State.Cut(config, |etags|, data[inputOffset..]))
    {
      ok, parts, inputOffset, pieces := true, [], 0, [];
      part := buffered;
      buffered := null;
      assert data[0..] == data;
      NothingReserved(etags);
      if part != null && |data| > 0 {
        if part.size < part.buffer.Length {
          inputOffset := part.Append(data, 0);
          assert data[0..inputOffset] == data[..inputOffset];
        } else {
          assert part.Contents() + data[..0] == part.Contents();
        }
        if part.size == part.buffer.Length && inputOffset < |data| {
          ok, parts := ReservePart(part.Contents(), parts);
          if ok {
            pieces := [part.Contents()];
          }
          part := null;
        }
      }
    }

    static method BufferRest(capacity: nat, data: Bytes, from: nat) returns (part: BufferedPart)
      requires from <= |data| && |data| - from <= capacity
      ensures fresh(part) && fresh(part.buffer) && part.Valid()
      ensures ViewOf(part) == Some(State.Buffer(data[from..], capacity))
    {
      part := new BufferedPart(capacity);
      var copied := part.Append(data, from);
      assert part.Contents() == data[from..from + copied] == data[from..];
    }

    // The loop of PrepareWrite, which continues a cutting already begun.
    method CutInput(data: Bytes, from: nat, first: seq<State.Part>,
                    ghost origin: seq<string>, ghost done: seq<Bytes>, ghost cut: State.Cutting)
        returns (ok: bool, parts: seq<State.Part>, part: BufferedPart?)
      requires config.growthInterval > 0 && from <= |data|
      requires Reserved(origin, done, etags, first)
      requires cut == Joined(done, State.Cut(config, |etags|, data[from..]))
      modifies this`etags
      ensures part == null || (fresh(part) && fresh(part.buffer) && part.Valid())
      ensures Reserved(origin, cut.parts, etags, parts)
      ensures ok == !cut.overflow && (ok ==> ViewOf(part) == cut.tail)
    {
      ok, parts, part := true, first, null;
      var inputOffset := from;
      ghost var pieces := done;
      while inputOffset < |data|
        invariant inputOffset <= |data| && part == null && ok
        invariant Reserved(origin, pieces, etags, parts)
        invariant cut == Joined(pieces, State.Cut(config, |etags|, data[inputOffset..]))
      {
        CutUnfolds(config, |etags|, data, inputOffset);
        var remaining := |data| - inputOffset;
        var partSize := Sizing.PartSize(config, |etags|);
        var shouldBuffer := if |etags| == 0 then remaining <= partSize else remaining < partSize;
        if shouldBuffer {
          part := BufferRest(partSize, data, inputOffset);
          return;
        }
        var directSize := Sizing.Min(remaining, Sizing.MAX_PART as int);
        var piece := data[inputOffset..inputOffset + directSize];
        ok, parts := ReservePart(piece, parts);
        if !ok {
          return;
        }
        JoinedAfter(pieces, piece, State.Cut(config, |etags|, data[inputOffset + directSize..]));
        pieces := pieces + [piece];
        inputOffset := inputOffset + directSize;
      }
    }

    method PrepareWrite(data: Bytes, location: nat) returns (r: Prepared)
      requires Valid()
      modifies Footprint()
      ensures Valid() && (buffered == null || buffered == old(buffered) || fresh(buffered))
      ensures match State.PrepareWrite(config, old(View()), data, location)
        case PrepareWait => r == Parked && View() == old(View())
        case PrepareLatched => r == AlreadyFailed && View() == old(View())
        case PrepareError(s, error) => r == Failed(error) && View() == s
        case Prepared(s, parts) => r == Parts(parts) && View() == s
    {
      if location > nextOffset && primaryError.None? {
        return Parked;
      }
      if primaryError.Some? {
        return AlreadyFailed;
      } else if location != nextOffset {
        return Failed(State.NotSequential);
      } else if |data| > config.maxFileSize as int - nextOffset {
        return Failed(State.FileTooLarge);
      }
      ghost var cut := State.CutBuffered(config, |etags|, ViewOf(buffered), data);
      var ok, parts, part, inputOffset;
      ghost var pieces;
      ok, parts, part, inputOffset, pieces := TopUpBuffered(data);
      if ok && part == null {
        ok, parts, part := CutInput(data, inputOffset, parts, old(etags), pieces, cut);
      }
      if !ok {
        return Failed(State.PartLimit);
      }
      buffered := part;
      nextOffset := nextOffset + |data|;
      return Parts(parts);
    }

    // The section of Finalize that chooses between one PUT and a multipart upload.
    method ChoosesMultipart() returns (multipart: bool)
      requires Valid()
      ensures multipart <==> |View().etags| > 0
    {
      return |etags| > 0;
    }

    // The section of Finalize that makes the buffered part the last one.
    method ReserveTail(tail: BufferedPart) returns (ok: bool, parts: seq<State.Part>)
      requires Valid() && tail.Valid()
      modifies this`etags
      ensures Valid() && ok == Sizing.HasPartCapacity(config, |old(View()).etags|)
      ensures ok ==> parts == [State.Part(|old(View()).etags|, tail.Contents())]
      ensures View() == if ok then old(View()).(etags := old(View()).etags + [""]) else old(View())
    {
      ghost var pieces: seq<Bytes> := [];
      NothingReserved(etags);
      ok, parts := ReservePart(tail.Contents(), []);
      assert ok ==> Reserved(old(etags), pieces + [tail.Contents()], etags, parts);
    }

    // ------------------------------------------------ initialization, completion

    // The first section of EnsureMultipartUpload.
    method EnsureMultipartUpload() returns (r: Ensured)
      requires Valid()
      modifies this`initialization
      ensures Valid()
      ensures match State.EnsureMultipart(old(View()))
        case EnsureWait => r == Parks && View() == old(View())
        case EnsureLatched => r == FailsLatched && View() == old(View())
        case EnsureReady(id) => r == Ready(id) && View() == old(View())
        case EnsureStart(s) => r == Initialize && View() == s
    {
      if initialization == State.InitInProgress && primaryError.None? {
        return Parks;
      }
      if primaryError.Some? {
        return FailsLatched;
      } else if initialization == State.InitSucceeded {
        return Ready(uploadId);
      } else if initialization == State.InitFailed {
        return FailsLatched;
      }
      initialization := State.InitInProgress;
      return Initialize;
    }

    // The second section: the id is published even when a failure was latched in
    // the meantime; `ok` is false when it makes the operation throw.
    method PublishUploadId(id: nat) returns (ok: bool)
      requires Valid() && initialization == State.InitInProgress && uploadId.None?
      modifies this`initialization, this`uploadId
      ensures Valid() && View() == State.PublishUploadId(old(View()), id)
      ensures ok == old(View()).primary.None?
    {
      uploadId := Some(id);
      initialization := State.InitSucceeded;
      ok := primaryError.None?;
    }

    method PublishInitializationFailure(error: State.Error, d: State.Disposition)
      requires Valid() && initialization == State.InitInProgress
      modifies this
      ensures Valid() && buffered == old(buffered)
      ensures View() == State.PublishInitFailure(old(View()), error, d)
    {
      initialization := State.InitFailed;
      LatchFailureLocked(error, d);
    }

    method StorePartETag(partNumber: nat, etag: string) returns (ok: bool)
      requires Valid() && 0 < partNumber <= |etags|
      modifies this`etags
      ensures Valid() && View() == State.StoreETag(old(View()), partNumber - 1, etag)
      ensures ok == old(View()).primary.None?
    {
      if primaryError.Some? {
        return false;
      }
      etags := etags[partNumber - 1 := etag];
      return true;
    }

    // GetMultipartSnapshot; None when it throws because a part is missing.
    method GetMultipartSnapshot() returns (snapshot: Option<(Option<nat>, seq<string>)>)
      requires Valid()
      ensures snapshot == if State.MissingPart(View()) then None else Some((uploadId, etags))
    {
      for i := 0 to |etags|
        invariant "" !in etags[..i]
      {
        if |etags[i]| == 0 {
          assert etags[i] in etags;
          return None;
        }
      }
      return Some((uploadId, etags));
    }

    // -------------------------------------------------------------------- abort

    // Abort up to its wait for the running operations.
    method BeginAbort() returns (r: AbortEntered)
      requires Valid()
      modifies this`lifecycle
      ensures Valid()
      ensures match State.BeginAbort(old(View()))
        case AbortEntryWait => r == WaitForOther && View() == old(View())
        case AbortReturns(aborted) => r == Answers(aborted) && View() == old(View())
        case AbortDrains(s) => r == Drains && View() == s
    {
      if lifecycle == State.Finalizing || lifecycle == State.Aborting {
        return WaitForOther;
      }
      if lifecycle == State.Finalized {
        return Answers(false);
      }
      if lifecycle == State.Aborted {
        return Answers(true);
      }
      lifecycle := State.Aborting;
      return Drains;
    }

    // Abort from that wait to its request, its return or its wait for a cleanup.
    method DrainAbort() returns (r: Drained)
      requires Valid()
      modifies this
      ensures Valid() && (buffered == old(buffered) || buffered == null)
      ensures match State.DrainAbort(old(View()))
        case DrainWait => r == StillBusy && View() == old(View())
        case DrainAwaitCleanup(s) => r == AwaitFailureCleanup && View() == s
        case DrainClean(s, id) => r == CleanUp(id) && View() == s
        case DrainDone(s) => r == NothingToClean && View() == s
    {
      if activeOperations > 0 {
        return StillBusy;
      }
      buffered := null;
      if primaryError.Some? {
        return AwaitFailureCleanup;
      } else if uploadId.Some? && !abortSuppressed {
        cleanup := State.CleanupInProgress;
        return CleanUp(uploadId.value);
      }
      cleanup := State.CleanupComplete;
      lifecycle := State.Aborted;
      return NothingToClean;
    }

    // Abort after its wait for the cleanup of a failure: None to go on waiting, else
    // the failure that it throws.
    method AwaitAbort() returns (failure: Option<State.Failure>)
      requires Valid() && primaryError.Some?
      modifies this`lifecycle
      ensures Valid()
      ensures old(View()).cleanup != State.CleanupComplete ==> failure.None? && View() == old(View())
      ensures old(View()).cleanup == State.CleanupComplete ==>
        failure == Some(State.Capture(View())) && View() == old(View()).(lifecycle := State.Aborted)
    {
      if cleanup != State.CleanupComplete {
        return None;
      }
      lifecycle := State.Aborted;
      return Some(State.Failure(primaryError.value, abortError));
    }

    // Abort after its own request.
    method FinishAbort()
      requires Valid()
      modifies this`cleanup, this`lifecycle
      ensures Valid()
      ensures View() == old(View()).(cleanup := State.CleanupComplete, lifecycle := State.Aborted)
    {
      cleanup := State.CleanupComplete;
      lifecycle := State.Aborted;
    }
  }
}
