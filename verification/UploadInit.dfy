// Single-flight initialization: one thread at a time may create the multipart
// upload, it is tried once, and the upload id never changes.
module UploadInit {
  import opened Common
  import opened UploadState
  import opened UploadProtocol
  import opened UploadTenancy
  import Sizing = UploadSizing

  ghost predicate InitCalled(log: seq<Call>) {
    exists i :: 0 <= i < |log| && log[i].InitCall?
  }

  predicate Initializes(l: Thread) {
    l.Inside? && (l.work.Initializing? || l.work.Publishing?)
  }

  ghost predicate InitOf(s: System, t: Tid, l: Thread) {
    && (Initializes(l) <==> s.sh.init == InitInProgress && s.initializer == Some(t))
    && (l.Inside? ==>
          && (l.work.Initializing? && !l.work.sent ==> !InitCalled(s.log))
          && (l.work.Checking? || l.work.Putting? ==> s.sh.uploadId == Some(l.work.uploadId))
          && (l.work.Storing? ==> s.sh.uploadId.Some?))
  }

  ghost predicate InitGlobal(s: System) {
    && (s.sh.uploadId.Some? <==> s.sh.init == InitSucceeded)
    && (s.sh.init == NotStarted ==> !InitCalled(s.log))
    && (forall i, j :: 0 <= i < j < |s.log| && s.log[i].InitCall? ==> !s.log[j].InitCall?)
  }

  ghost predicate Inits(s: System) {
    && InitGlobal(s)
    && forall t: Tid :: InitOf(s, t, At(s, t))
  }

  lemma StartInits()
    ensures Inits(Start)
  {
  }

  lemma InitAppend(log: seq<Call>, call: Call)
    ensures InitCalled(log + [call]) <==> InitCalled(log) || call.InitCall?
  {
    assert (log + [call])[|log|] == call;
    forall i | 0 <= i < |log| ensures (log + [call])[i] == log[i] {}
  }

  lemma FrameInits(s: System, s': System, t: Tid)
    requires Inits(s)
    requires s'.sh.init == s.sh.init && s'.sh.uploadId == s.sh.uploadId && s'.initializer == s.initializer
    requires s'.log == s.log || (exists call: Call :: s'.log == s.log + [call] && !call.InitCall?)
    requires s'.threads == s.threads[t := At(s', t)]
    requires InitOf(s, t, At(s', t))
    ensures Inits(s')
  {
    assert InitCalled(s'.log) == InitCalled(s.log) by {
      if s'.log != s.log {
        var call: Call :| s'.log == s.log + [call] && !call.InitCall?;
        InitAppend(s.log, call);
      }
    }
    forall u: Tid ensures InitOf(s', u, At(s', u)) {
      assert InitOf(s, u, At(s, u));
    }
  }

  lemma EnsureInits(s: System, t: Tid, fin: bool, parts: seq<Part>)
    requires Tenancy(s) && Inits(s) && At(s, t) == Inside(fin, Ensuring(parts))
    ensures Inits(StepEnsure(s, t, fin, parts))
  {
    var s' := StepEnsure(s, t, fin, parts);
    assert InitOf(s, t, At(s, t));
    forall u: Tid ensures InitOf(s', u, At(s', u)) {
      assert InitOf(s, u, At(s, u));
    }
  }

  lemma PublishInits(s: System, t: Tid, fin: bool, parts: seq<Part>, answer: InitAnswer)
    requires Tenancy(s) && Inits(s) && At(s, t) == Inside(fin, Publishing(parts, answer))
    ensures Inits(StepPublish(s, t, fin, parts, answer))
    ensures s.sh.uploadId.None?
  {
    var s' := StepPublish(s, t, fin, parts, answer);
    assert InitOf(s, t, At(s, t));
    forall u: Tid ensures InitOf(s', u, At(s', u)) {
      assert InitOf(s, u, At(s, u));
    }
  }

  lemma SendInit(s: System, t: Tid, fin: bool, parts: seq<Part>)
    requires Inits(s) && At(s, t) == Inside(fin, Initializing(parts, false))
    ensures Inits(Send(s, t, Inside(fin, Initializing(parts, true)), InitCall))
  {
    var s' := Send(s, t, Inside(fin, Initializing(parts, true)), InitCall);
    assert InitOf(s, t, At(s, t));
    InitAppend(s.log, InitCall);
    forall u: Tid ensures InitOf(s', u, At(s', u)) {
      assert InitOf(s, u, At(s, u));
    }
  }

  lemma LocalInits(s: System, t: Tid, fin: bool, work: Work, ev: Event)
    requires Inits(s) && At(s, t) == Inside(fin, work) && LocalWork(work) && !Initializes(Inside(fin, work))
    ensures Inits(StepUpload(s, t, fin, work, ev))
  {
    var s' := StepUpload(s, t, fin, work, ev);
    assert InitOf(s, t, At(s, t));
    if s' != s {
      FrameInits(s, s', t);
    }
  }

  lemma UploadInits(s: System, t: Tid, fin: bool, work: Work, ev: Event)
    requires Tenancy(s) && Inits(s) && At(s, t) == Inside(fin, work)
    ensures var s' := StepUpload(s, t, fin, work, ev);
      Inits(s') && (s.sh.uploadId.Some? ==> s'.sh.uploadId == s.sh.uploadId)
  {
    assert InitOf(s, t, At(s, t));
    match work
    case Initializing(parts, sent) =>
      if !sent && ev.Run? {
        SendInit(s, t, fin, parts);
      } else if sent && ev.AnswerInit? {
        FrameInits(s, Continue(s, t, fin, Publishing(parts, ev.init)), t);
      }
    case Ensuring(parts) => if ev.Run? { EnsureInits(s, t, fin, parts); }
    case Publishing(parts, answer) => if ev.Run? { PublishInits(s, t, fin, parts, answer); }
    case Storing(parts, etag) =>
      if ev.Run? {
        var s' := StepStore(s, t, fin, parts, etag);
        if s' != s { FrameInits(s, s', t); }
      }
    case _ => if LocalWork(work) { LocalInits(s, t, fin, work, ev); }
  }

  lemma OtherInits(s: System, s': System, t: Tid)
    requires Inits(s)
    requires s' != s ==>
      && s'.sh.init == s.sh.init && s'.sh.uploadId == s.sh.uploadId && s'.initializer == s.initializer
      && (s'.log == s.log || (exists call: Call :: s'.log == s.log + [call] && !call.InitCall?))
      && s'.threads == s.threads[t := At(s', t)]
      && !Initializes(At(s, t)) && !Initializes(At(s', t))
      && (At(s', t).Inside? ==>
            !At(s', t).work.Checking? && !At(s', t).work.Putting? && !At(s', t).work.Storing?)
    ensures Inits(s')
  {
    assert InitOf(s, t, At(s, t));
    if s' != s { FrameInits(s, s', t); }
  }

  lemma FinalInits(s: System, t: Tid, work: Work, ev: Event)
    requires Inits(s) && At(s, t) == Inside(true, work) && FinalWork(work)
    ensures Inits(StepFinalize(s, t, work, ev))
    ensures StepFinalize(s, t, work, ev).sh.uploadId == s.sh.uploadId
  {
    OtherInits(s, StepFinalize(s, t, work, ev), t);
  }

  lemma PrepareInits(c: Sizing.Config, s: System, t: Tid, data: Bytes, location: nat)
    requires c.growthInterval > 0 && BufferFits(s.sh)
    requires Inits(s) && At(s, t) == Inside(false, Preparing(data, location))
    ensures Inits(StepPrepare(c, s, t, data, location))
    ensures StepPrepare(c, s, t, data, location).sh.uploadId == s.sh.uploadId
  {
    OtherInits(s, StepPrepare(c, s, t, data, location), t);
  }

  lemma ReserveInits(c: Sizing.Config, s: System, t: Tid, buffer: Buffer)
    requires Inits(s) && At(s, t) == Inside(true, Reserving(buffer))
    ensures Inits(StepReserve(c, s, t, buffer)) && StepReserve(c, s, t, buffer).sh.uploadId == s.sh.uploadId
  {
    OtherInits(s, StepReserve(c, s, t, buffer), t);
  }

  lemma InsideInits(c: Sizing.Config, s: System, t: Tid, fin: bool, work: Work, ev: Event)
    requires c.growthInterval > 0
    requires Tenancy(s) && Inits(s) && At(s, t) == Inside(fin, work)
    ensures var s' := StepInside(c, s, t, fin, work, ev);
      Inits(s') && (s.sh.uploadId.Some? ==> s'.sh.uploadId == s.sh.uploadId)
  {
    assert TenancyOf(s, t, At(s, t));
    match work
    case Preparing(data, location) => if ev.Run? { PrepareInits(c, s, t, data, location); }
    case Reserving(buffer) => if ev.Run? { ReserveInits(c, s, t, buffer); }
    case Deciding(_) => FinalInits(s, t, work, ev);
    case PuttingSingle(_, _) => FinalInits(s, t, work, ev);
    case Snapshotting => FinalInits(s, t, work, ev);
    case Completing(_, _) => FinalInits(s, t, work, ev);
    case Finishing => FinalInits(s, t, work, ev);
    case _ => UploadInits(s, t, fin, work, ev);
  }

  lemma LatchInits(s: System, t: Tid, error: Error, disposition: Disposition)
    requires Inits(s) && At(s, t) == Failing(error, disposition)
    ensures Inits(StepLatch(s, t, error, disposition))
    ensures StepLatch(s, t, error, disposition).sh.uploadId == s.sh.uploadId
  {
    OtherInits(s, StepLatch(s, t, error, disposition), t);
  }

  lemma ReleaseInits(s: System, t: Tid, failed: bool, quiet: bool)
    requires Inits(s) && At(s, t) == Releasing(failed, quiet)
    ensures Inits(StepRelease(s, t, quiet)) && StepRelease(s, t, quiet).sh.uploadId == s.sh.uploadId
  {
    OtherInits(s, StepRelease(s, t, quiet), t);
  }

  lemma CleanInits(s: System, t: Tid, id: nat, quiet: bool, request: Request, ev: Event)
    requires Inits(s) && At(s, t) == Cleaning(id, quiet, request)
    ensures Inits(StepClean(s, t, id, quiet, request, ev))
    ensures StepClean(s, t, id, quiet, request, ev).sh.uploadId == s.sh.uploadId
  {
    OtherInits(s, StepClean(s, t, id, quiet, request, ev), t);
  }

  lemma DrainInits(s: System, t: Tid)
    requires Inits(s) && At(s, t) == Draining
    ensures Inits(StepDrain(s, t)) && StepDrain(s, t).sh.uploadId == s.sh.uploadId
  {
    OtherInits(s, StepDrain(s, t), t);
  }

  lemma AbortCleanInits(s: System, t: Tid, id: nat, request: Request, ev: Event)
    requires Inits(s) && At(s, t) == AbortCleaning(id, request)
    ensures Inits(StepAbortClean(s, t, id, request, ev))
    ensures StepAbortClean(s, t, id, request, ev).sh.uploadId == s.sh.uploadId
  {
    OtherInits(s, StepAbortClean(s, t, id, request, ev), t);
  }

  lemma AwaitInits(s: System, t: Tid, quiet: bool, aborting: bool)
    requires Inits(s) && !At(s, t).Inside?
    ensures Inits(StepAwait(s, t, quiet, aborting)) && StepAwait(s, t, quiet, aborting).sh.uploadId == s.sh.uploadId
  {
    OtherInits(s, StepAwait(s, t, quiet, aborting), t);
  }

  lemma EnteringInits(s: System, t: Tid, ev: Event)
    requires Inits(s) && !At(s, t).Inside?
    ensures Inits(StepEntering(s, t, ev)) && StepEntering(s, t, ev).sh.uploadId == s.sh.uploadId
  {
    OtherInits(s, StepEntering(s, t, ev), t);
  }

  // The upload id never changes once it is known.
  lemma StepInits(c: Sizing.Config, s: System, t: Tid, ev: Event)
    requires c.growthInterval > 0
    requires Tenancy(s) && Inits(s)
    ensures var s' := Step(c, s, t, ev);
      Inits(s') && (s.sh.uploadId.Some? ==> s'.sh.uploadId == s.sh.uploadId)
  {
    match At(s, t)
    case Inside(fin, work) => InsideInits(c, s, t, fin, work, ev);
    case Failing(error, disposition) => if ev.Run? { LatchInits(s, t, error, disposition); }
    case Releasing(failed, quiet) => if ev.Run? { ReleaseInits(s, t, failed, quiet); }
    case Cleaning(id, quiet, request) => CleanInits(s, t, id, quiet, request, ev);
    case Draining => if ev.Run? { DrainInits(s, t); }
    case AbortCleaning(id, request) => AbortCleanInits(s, t, id, request, ev);
    case AwaitingCleanup(quiet) => if ev.Run? { AwaitInits(s, t, quiet, false); }
    case AbortAwaiting => if ev.Run? { AwaitInits(s, t, false, true); }
    case _ => EnteringInits(s, t, ev);
  }
}
