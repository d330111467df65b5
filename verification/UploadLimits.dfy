// With a configuration from `S3UploadConfig::Create`, the limits of S3 hold in
// every run and the part limit never stops an upload.
module UploadLimits {
  import opened Common
  import opened UploadState
  import opened UploadProtocol
  import opened UploadTenancy
  import opened UploadData
  import Sizing = UploadSizing

  function Sizes(parts: seq<Bytes>): seq<nat> {
    seq(|parts|, i requires 0 <= i < |parts| => |parts[i]|)
  }

  lemma {:induction false} ConcatSize(parts: seq<Bytes>)
    ensures |Concat(parts)| == Sizing.Sum(Sizes(parts))
  {
    if |parts| > 0 {
      ConcatSize(parts[..|parts| - 1]);
      assert Sizes(parts)[..|parts| - 1] == Sizes(parts[..|parts| - 1]);
    }
  }

  // The first `n` parts are at least as large as scheduled.
  ghost predicate Full(c: Sizing.Config, parts: seq<Bytes>, n: int)
    requires c.growthInterval > 0
  {
    forall i :: 0 <= i < n && i < |parts| ==> |parts[i]| >= Sizing.PartSize(c, i)
  }

  ghost predicate PartsAccepted(c: Sizing.Config, parts: seq<Bytes>) {
    && |parts| <= c.maxParts as int
    && forall i :: 0 <= i < |parts| ==> 0 < |parts[i]| <= Sizing.MAX_PART as int
  }

  // The buffered piece is the beginning of the next part.
  ghost predicate BufferOk(c: Sizing.Config, reserved: nat, b: Option<Buffer>)
    requires c.growthInterval > 0
  {
    b.Some? ==> 0 < |b.value.data| <= b.value.capacity == Sizing.PartSize(c, reserved)
  }

  ghost predicate CutOk(c: Sizing.Config, reserved: seq<Bytes>, cut: Cutting)
    requires c.growthInterval > 0
  {
    && !cut.overflow
    && PartsAccepted(c, reserved + cut.parts)
    && Full(c, reserved + cut.parts, |reserved + cut.parts|)
    && BufferOk(c, |reserved + cut.parts|, cut.tail)
  }

  lemma CapacityLeft(c: Sizing.Config, reserved: seq<Bytes>)
    requires Sizing.ValidConfig(c)
    requires Full(c, reserved, |reserved|) && |Concat(reserved)| < c.maxFileSize as int
    ensures Sizing.HasPartCapacity(c, |reserved|)
  {
    ConcatSize(reserved);
    Sizing.PartLimitImpliesFileLimit(c, Sizes(reserved));
  }

  lemma AcceptPart(c: Sizing.Config, reserved: seq<Bytes>, part: Bytes)
    requires Sizing.ValidConfig(c)
    requires PartsAccepted(c, reserved) && Full(c, reserved, |reserved|)
    requires 0 < |part| <= Sizing.MAX_PART as int && |Concat(reserved)| + |part| <= c.maxFileSize as int
    ensures Sizing.HasPartCapacity(c, |reserved|)
    ensures PartsAccepted(c, reserved + [part]) && Full(c, reserved + [part], |reserved|)
    ensures |part| >= Sizing.PartSize(c, |reserved|) ==> Full(c, reserved + [part], |reserved| + 1)
    ensures |Concat(reserved + [part])| == |Concat(reserved)| + |part|
  {
    CapacityLeft(c, reserved);
    ConcatAppend(reserved, [part]);
    ConcatOne(part);
  }

  lemma CutAfterOk(c: Sizing.Config, reserved: seq<Bytes>, part: Bytes, rest: Cutting)
    requires c.growthInterval > 0
    requires CutOk(c, reserved + [part], rest)
    ensures CutOk(c, reserved, CutAfter(part, rest))
  {
    assert reserved + ([part] + rest.parts) == (reserved + [part]) + rest.parts;
  }

  lemma {:induction false} CutWithinLimits(c: Sizing.Config, reserved: seq<Bytes>, data: Bytes)
    requires Sizing.ValidConfig(c)
    requires PartsAccepted(c, reserved) && Full(c, reserved, |reserved|)
    requires |Concat(reserved)| + |data| <= c.maxFileSize as int
    ensures CutOk(c, reserved, Cut(c, |reserved|, data))
    decreases |data|
  {
    var cut := Cut(c, |reserved|, data);
    Sizing.PartSizeBounds(c, |reserved|);
    if cut.parts == [] && !cut.overflow {
      assert reserved + cut.parts == reserved;
    } else {
      var direct := Sizing.Min(|data|, Sizing.MAX_PART as int);
      var part, rest := data[..direct], data[direct..];
      AcceptPart(c, reserved, part);
      CutWithinLimits(c, reserved + [part], rest);
      CutAfterOk(c, reserved, part, Cut(c, |reserved| + 1, rest));
    }
  }

  lemma CutNextWithinLimits(c: Sizing.Config, reserved: seq<Bytes>, part: Bytes, rest: Bytes)
    requires Sizing.ValidConfig(c)
    requires PartsAccepted(c, reserved) && Full(c, reserved, |reserved|)
    requires |part| == Sizing.PartSize(c, |reserved|)
    requires |Concat(reserved)| + |part| + |rest| <= c.maxFileSize as int
    ensures Sizing.HasPartCapacity(c, |reserved|)
    ensures CutOk(c, reserved, CutAfter(part, Cut(c, |reserved| + 1, rest)))
  {
    Sizing.PartSizeBounds(c, |reserved|);
    AcceptPart(c, reserved, part);
    CutWithinLimits(c, reserved + [part], rest);
    CutAfterOk(c, reserved, part, Cut(c, |reserved| + 1, rest));
  }

  lemma CutBufferedWithinLimits(c: Sizing.Config, reserved: seq<Bytes>, buffered: Option<Buffer>, data: Bytes)
    requires Sizing.ValidConfig(c)
    requires PartsAccepted(c, reserved) && Full(c, reserved, |reserved|) && BufferOk(c, |reserved|, buffered)
    requires |Concat(reserved)| + |Data(buffered)| + |data| <= c.maxFileSize as int
    ensures CutOk(c, reserved, CutBuffered(c, |reserved|, buffered, data))
  {
    if buffered.None? {
      CutWithinLimits(c, reserved, data);
    } else {
      var b := buffered.value;
      var copied := Sizing.Min(|data|, b.capacity - |b.data|);
      var part := b.data + data[..copied];
      if |part| < b.capacity || copied == |data| {
        assert reserved + [] == reserved;
      } else {
        CutNextWithinLimits(c, reserved, part, data[copied..]);
      }
    }
  }

  // ------------------------------------------------------------------- invariant

  ghost predicate LimitsOf(c: Sizing.Config, s: System, l: Thread)
    requires c.growthInterval > 0
  {
    && (l.Failing? ==> l.error != PartLimit)
    && (l.Inside? && l.work.Deciding? ==>
          Full(c, s.data.reserved, |s.data.reserved|) && BufferOk(c, |s.data.reserved|, l.work.tail))
    && (l.Inside? && l.work.Reserving? ==>
          Full(c, s.data.reserved, |s.data.reserved|) && BufferOk(c, |s.data.reserved|, Some(l.work.buffer)))
  }

  ghost predicate LimitsGlobal(c: Sizing.Config, s: System)
    requires c.growthInterval > 0
  {
    && s.data.brokenBy.None?
    && s.sh.nextOffset <= c.maxFileSize as int
    && PartsAccepted(c, s.data.reserved)
    && Full(c, s.data.reserved, |s.data.reserved| - 1)
    && (s.sh.primary.None? && s.sh.lifecycle != Finalizing && s.sh.lifecycle != Finalized ==>
          Full(c, s.data.reserved, |s.data.reserved|))
    && BufferOk(c, |s.data.reserved|, s.sh.buffered)
    && (s.sh.lifecycle == Finalizing ==> s.sh.buffered.None?)
    && (forall i :: 0 <= i < |s.latches| ==> s.latches[i].0 != PartLimit)
  }

  ghost predicate Limits(c: Sizing.Config, s: System)
    requires c.growthInterval > 0
  {
    && LimitsGlobal(c, s)
    && forall t: Tid :: LimitsOf(c, s, At(s, t))
  }

  lemma StartLimits(c: Sizing.Config)
    requires Sizing.ValidConfig(c)
    ensures Limits(c, Start)
  {
  }

  ghost predicate LatchesKeep(s: System, s': System) {
    || s'.latches == s.latches
    || exists l: (Error, Disposition) :: s'.latches == s.latches + [l] && l.0 != PartLimit
  }

  lemma FrameLimits(c: Sizing.Config, s: System, s': System, t: Tid)
    requires Sizing.ValidConfig(c) && Limits(c, s)
    requires s'.data.reserved == s.data.reserved && s'.data.brokenBy == s.data.brokenBy
    requires s'.sh.nextOffset == s.sh.nextOffset
    requires s'.sh.buffered == s.sh.buffered || s'.sh.buffered.None?
    requires s.sh.primary.Some? ==> s'.sh.primary.Some?
    requires s'.sh.primary.Some? || s'.sh.lifecycle == Finalizing || s'.sh.lifecycle == Finalized
          || (s.sh.lifecycle != Finalizing && s.sh.lifecycle != Finalized)
    requires s'.sh.lifecycle == Finalizing ==> s.sh.lifecycle == Finalizing || s'.sh.buffered.None?
    requires LatchesKeep(s, s')
    requires s'.threads == s.threads[t := At(s', t)]
    requires LimitsOf(c, s, At(s', t))
    ensures Limits(c, s')
  {
    forall u: Tid ensures LimitsOf(c, s', At(s', u)) {
      assert LimitsOf(c, s, At(s, u));
    }
    if s'.latches != s.latches {
      var l: (Error, Disposition) :| s'.latches == s.latches + [l] && l.0 != PartLimit;
      forall i | 0 <= i < |s'.latches| ensures s'.latches[i].0 != PartLimit {
        if i < |s.latches| { assert s'.latches[i] == s.latches[i]; }
      }
    }
  }

  lemma PreparedLimits(c: Sizing.Config, s: System, t: Tid, data: Bytes, location: nat)
    requires Sizing.ValidConfig(c)
    requires Tenancy(s) && Datas(s) && Limits(c, s) && At(s, t) == Inside(false, Preparing(data, location))
    ensures Limits(c, StepPrepare(c, s, t, data, location))
  {
    var s' := StepPrepare(c, s, t, data, location);
    var p := PrepareWrite(c, s.sh, data, location);
    assert TenancyOf(s, t, At(s, t));
    if p.PrepareWait? {
    } else if p.Prepared? || (p.PrepareError? && p.error == PartLimit) {
      var cut := CutBuffered(c, |s.sh.etags|, s.sh.buffered, data);
      CutBufferedWithinLimits(c, s.data.reserved, s.sh.buffered, data);
      PayloadsOfNumbered(|s.sh.etags|, cut.parts);
      forall u: Tid ensures LimitsOf(c, s', At(s', u)) {
        assert LimitsOf(c, s, At(s, u)) && TenancyOf(s, u, At(s, u));
      }
    } else {
      FrameLimits(c, s, s', t);
    }
  }

  lemma ReservedAccepted(c: Sizing.Config, s: System, t: Tid, buffer: Buffer)
    requires Sizing.ValidConfig(c)
    requires Tenancy(s) && Datas(s) && Limits(c, s) && At(s, t) == Inside(true, Reserving(buffer))
    ensures Sizing.HasPartCapacity(c, |s.sh.etags|)
    ensures PartsAccepted(c, s.data.reserved + [buffer.data])
    ensures Full(c, s.data.reserved + [buffer.data], |s.data.reserved|)
    ensures s.sh.lifecycle == Finalizing && |s.holders| == 1 && t in s.holders && s.sh.buffered.None?
  {
    assert TenancyOf(s, t, At(s, t)) && DataOf(s, t, At(s, t)) && LimitsOf(c, s, At(s, t));
    Sizing.PartSizeBounds(c, |s.data.reserved|);
    AcceptPart(c, s.data.reserved, buffer.data);
  }

  lemma ReserveLimits(c: Sizing.Config, s: System, t: Tid, buffer: Buffer)
    requires Sizing.ValidConfig(c)
    requires Tenancy(s) && Datas(s) && Limits(c, s) && At(s, t) == Inside(true, Reserving(buffer))
    ensures Limits(c, StepReserve(c, s, t, buffer))
  {
    var s' := StepReserve(c, s, t, buffer);
    ReservedAccepted(c, s, t, buffer);
    assert LimitsGlobal(c, s');
    forall u: Tid ensures LimitsOf(c, s', At(s', u)) {
      assert LimitsOf(c, s, At(s, u)) && TenancyOf(s, u, At(s, u));
      if u in s.holders { Sole(s.holders, t, u); }
    }
  }

  // ------------------------------------------------------------------ every step

  lemma PublishLimits(c: Sizing.Config, s: System, t: Tid, fin: bool, parts: seq<Part>, answer: InitAnswer)
    requires Sizing.ValidConfig(c) && Tenancy(s) && Limits(c, s)
    requires At(s, t) == Inside(fin, Publishing(parts, answer))
    ensures Limits(c, StepPublish(s, t, fin, parts, answer))
  {
    FrameLimits(c, s, StepPublish(s, t, fin, parts, answer), t);
  }

  lemma EnsureLimits(c: Sizing.Config, s: System, t: Tid, fin: bool, parts: seq<Part>)
    requires Sizing.ValidConfig(c) && Limits(c, s) && At(s, t) == Inside(fin, Ensuring(parts))
    ensures Limits(c, StepEnsure(s, t, fin, parts))
  {
    var s' := StepEnsure(s, t, fin, parts);
    if s' != s { FrameLimits(c, s, s', t); }
  }

  lemma StoreLimits(c: Sizing.Config, s: System, t: Tid, fin: bool, parts: seq<Part>, etag: string)
    requires Sizing.ValidConfig(c) && Limits(c, s) && At(s, t) == Inside(fin, Storing(parts, etag))
    ensures Limits(c, StepStore(s, t, fin, parts, etag))
  {
    var s' := StepStore(s, t, fin, parts, etag);
    if s' != s { FrameLimits(c, s, s', t); }
  }

  lemma LocalLimits(c: Sizing.Config, s: System, t: Tid, fin: bool, work: Work, ev: Event)
    requires Sizing.ValidConfig(c) && Limits(c, s) && At(s, t) == Inside(fin, work) && LocalWork(work)
    ensures Limits(c, StepUpload(s, t, fin, work, ev))
  {
    var s' := StepUpload(s, t, fin, work, ev);
    if s' != s { FrameLimits(c, s, s', t); }
  }

  lemma UploadLimits(c: Sizing.Config, s: System, t: Tid, fin: bool, work: Work, ev: Event)
    requires Sizing.ValidConfig(c) && Tenancy(s) && Limits(c, s) && At(s, t) == Inside(fin, work)
    ensures Limits(c, StepUpload(s, t, fin, work, ev))
  {
    match work
    case Ensuring(parts) => if ev.Run? { EnsureLimits(c, s, t, fin, parts); }
    case Publishing(parts, answer) => if ev.Run? { PublishLimits(c, s, t, fin, parts, answer); }
    case Storing(parts, etag) => if ev.Run? { StoreLimits(c, s, t, fin, parts, etag); }
    case _ => if LocalWork(work) { LocalLimits(c, s, t, fin, work, ev); }
  }

  lemma FinalLimits(c: Sizing.Config, s: System, t: Tid, work: Work, ev: Event)
    requires Sizing.ValidConfig(c) && Tenancy(s) && Limits(c, s) && At(s, t) == Inside(true, work)
    ensures Limits(c, StepFinalize(s, t, work, ev))
  {
    var s' := StepFinalize(s, t, work, ev);
    assert TenancyOf(s, t, At(s, t)) && LimitsOf(c, s, At(s, t));
    if s' != s { FrameLimits(c, s, s', t); }
  }

  lemma InsideLimits(c: Sizing.Config, s: System, t: Tid, fin: bool, work: Work, ev: Event)
    requires Sizing.ValidConfig(c) && Tenancy(s) && Datas(s) && Limits(c, s) && At(s, t) == Inside(fin, work)
    ensures Limits(c, StepInside(c, s, t, fin, work, ev))
  {
    assert TenancyOf(s, t, At(s, t));
    match work
    case Preparing(data, location) => if ev.Run? { PreparedLimits(c, s, t, data, location); }
    case Reserving(buffer) => if ev.Run? { ReserveLimits(c, s, t, buffer); }
    case Deciding(_) => FinalLimits(c, s, t, work, ev);
    case PuttingSingle(_, _) => FinalLimits(c, s, t, work, ev);
    case Snapshotting => FinalLimits(c, s, t, work, ev);
    case Completing(_, _) => FinalLimits(c, s, t, work, ev);
    case Finishing => FinalLimits(c, s, t, work, ev);
    case _ => UploadLimits(c, s, t, fin, work, ev);
  }

  lemma LatchLimits(c: Sizing.Config, s: System, t: Tid, error: Error, disposition: Disposition)
    requires Sizing.ValidConfig(c) && Limits(c, s) && At(s, t) == Failing(error, disposition)
    ensures Limits(c, StepLatch(s, t, error, disposition))
  {
    assert LimitsOf(c, s, At(s, t));
    FrameLimits(c, s, StepLatch(s, t, error, disposition), t);
  }

  // A thread outside every operation.
  lemma OutsideLimits(c: Sizing.Config, s: System, s': System, t: Tid)
    requires Sizing.ValidConfig(c) && Limits(c, s)
    requires s' != s ==>
      && !At(s', t).Inside? && !At(s', t).Failing?
      && s'.data == s.data && s'.latches == s.latches && s'.threads == s.threads[t := At(s', t)]
      && s'.sh.nextOffset == s.sh.nextOffset && s'.sh.primary == s.sh.primary
      && (s'.sh.buffered == s.sh.buffered || s'.sh.buffered.None?)
      && (s'.sh.lifecycle == Finalizing <==> s.sh.lifecycle == Finalizing)
      && (s'.sh.lifecycle == Finalized <==> s.sh.lifecycle == Finalized)
    ensures Limits(c, s')
  {
    if s' != s { FrameLimits(c, s, s', t); }
  }

  lemma ReleaseLimits(c: Sizing.Config, s: System, t: Tid, failed: bool, quiet: bool)
    requires Sizing.ValidConfig(c) && Limits(c, s) && At(s, t) == Releasing(failed, quiet)
    ensures Limits(c, StepRelease(s, t, quiet))
  {
    OutsideLimits(c, s, StepRelease(s, t, quiet), t);
  }

  lemma CleanLimits(c: Sizing.Config, s: System, t: Tid, id: nat, quiet: bool, request: Request, ev: Event)
    requires Sizing.ValidConfig(c) && Limits(c, s) && At(s, t) == Cleaning(id, quiet, request)
    ensures Limits(c, StepClean(s, t, id, quiet, request, ev))
  {
    OutsideLimits(c, s, StepClean(s, t, id, quiet, request, ev), t);
  }

  lemma DrainLimits(c: Sizing.Config, s: System, t: Tid)
    requires Sizing.ValidConfig(c) && Limits(c, s) && At(s, t) == Draining && s.sh.lifecycle == Aborting
    ensures Limits(c, StepDrain(s, t))
  {
    OutsideLimits(c, s, StepDrain(s, t), t);
  }

  lemma AbortCleanLimits(c: Sizing.Config, s: System, t: Tid, id: nat, request: Request, ev: Event)
    requires Sizing.ValidConfig(c) && Limits(c, s) && At(s, t) == AbortCleaning(id, request)
    requires s.sh.lifecycle == Aborting
    ensures Limits(c, StepAbortClean(s, t, id, request, ev))
  {
    OutsideLimits(c, s, StepAbortClean(s, t, id, request, ev), t);
  }

  lemma AwaitLimits(c: Sizing.Config, s: System, t: Tid, quiet: bool, aborting: bool)
    requires Sizing.ValidConfig(c) && Limits(c, s) && (aborting ==> s.sh.lifecycle == Aborting)
    ensures Limits(c, StepAwait(s, t, quiet, aborting))
  {
    OutsideLimits(c, s, StepAwait(s, t, quiet, aborting), t);
  }

  lemma BeginWriteLimits(c: Sizing.Config, s: System, t: Tid, data: Bytes, location: nat)
    requires Sizing.ValidConfig(c) && Limits(c, s) && At(s, t).EnteringWrite?
    ensures Limits(c, StepBeginWrite(s, t, data, location))
  {
    var s' := StepBeginWrite(s, t, data, location);
    if s' != s { FrameLimits(c, s, s', t); }
  }

  lemma BeginFinalizeLimits(c: Sizing.Config, s: System, t: Tid)
    requires Sizing.ValidConfig(c) && Limits(c, s) && At(s, t).EnteringFinalize?
    ensures Limits(c, StepBeginFinalize(s, t))
  {
    var s' := StepBeginFinalize(s, t);
    if s' != s { FrameLimits(c, s, s', t); }
  }

  lemma BeginAbortLimits(c: Sizing.Config, s: System, t: Tid)
    requires Sizing.ValidConfig(c) && Limits(c, s) && At(s, t).EnteringAbort?
    ensures Limits(c, StepBeginAbort(s, t))
  {
    var s' := StepBeginAbort(s, t);
    if s' != s { FrameLimits(c, s, s', t); }
  }

  lemma EnteringLimits(c: Sizing.Config, s: System, t: Tid, ev: Event)
    requires Sizing.ValidConfig(c) && Limits(c, s)
    requires At(s, t).Idle? || At(s, t).EnteringWrite? || At(s, t).EnteringFinalize? || At(s, t).EnteringAbort?
    ensures Limits(c, StepEntering(s, t, ev))
  {
    match At(s, t)
    case EnteringWrite(data, location) => if ev.Run? { BeginWriteLimits(c, s, t, data, location); }
    case EnteringFinalize => if ev.Run? { BeginFinalizeLimits(c, s, t); }
    case EnteringAbort => if ev.Run? { BeginAbortLimits(c, s, t); }
    case Idle =>
      var s' := StepEntering(s, t, ev);
      if s' != s { FrameLimits(c, s, s', t); }
  }

  lemma StepLimits(c: Sizing.Config, s: System, t: Tid, ev: Event)
    requires Sizing.ValidConfig(c)
    requires Tenancy(s) && Datas(s) && Limits(c, s)
    requires At(s, t).Draining? || At(s, t).AbortAwaiting? || At(s, t).AbortCleaning? ==> s.sh.lifecycle == Aborting
    ensures Limits(c, Step(c, s, t, ev))
  {
    match At(s, t)
    case Inside(fin, work) => InsideLimits(c, s, t, fin, work, ev);
    case Failing(error, disposition) => if ev.Run? { LatchLimits(c, s, t, error, disposition); }
    case Releasing(failed, quiet) => if ev.Run? { ReleaseLimits(c, s, t, failed, quiet); }
    case Cleaning(id, quiet, request) => CleanLimits(c, s, t, id, quiet, request, ev);
    case Draining => if ev.Run? { DrainLimits(c, s, t); }
    case AbortCleaning(id, request) => AbortCleanLimits(c, s, t, id, request, ev);
    case AwaitingCleanup(quiet) => if ev.Run? { AwaitLimits(c, s, t, quiet, false); }
    case AbortAwaiting => if ev.Run? { AwaitLimits(c, s, t, false, true); }
    case _ => EnteringLimits(c, s, t, ev);
  }
}
