// The latched failure: the first latch decides it, and every caller that is told
// about it is told the same.
module UploadFailure {
  import opened Common
  import opened UploadState
  import opened UploadProtocol
  import opened UploadTenancy
  import opened UploadCleanup
  import Sizing = UploadSizing

  ghost predicate AmbiguousLatched(latches: seq<(Error, Disposition)>) {
    exists i :: 0 <= i < |latches| && latches[i].1 == Ambiguous
  }

  // What an outcome says about a failure is the final word on it.
  ghost predicate OutcomeHolds(sh: Shared, o: Outcome) {
    o.ThrewFailure? ==> sh.cleanup == CleanupComplete && sh.primary.Some? && o.failure == Capture(sh)
  }

  ghost predicate Failures(s: System) {
    && (s.sh.primary.Some? <==> |s.latches| > 0)
    && (|s.latches| > 0 ==> s.sh.primary == Some(s.latches[0].0) && s.sh.disposition == s.latches[0].1)
    && (s.sh.abortSuppressed <==> AmbiguousLatched(s.latches))
    && (forall o :: o in s.outcomes ==> OutcomeHolds(s.sh, o))
  }

  lemma StartFailures()
    ensures Failures(Start)
  {
  }

  ghost predicate SameFailure(a: Shared, b: Shared) {
    && a.primary == b.primary && a.abortError == b.abortError && a.disposition == b.disposition
    && a.abortSuppressed == b.abortSuppressed && (a.cleanup == CleanupComplete ==> b.cleanup == CleanupComplete)
  }

  lemma FrameFailures(s: System, s': System)
    requires Failures(s)
    requires SameFailure(s.sh, s'.sh) && s'.latches == s.latches
    requires s'.outcomes == s.outcomes
      || (exists o: Outcome :: s'.outcomes == s.outcomes + [o] && OutcomeHolds(s'.sh, o))
    ensures Failures(s')
  {
    forall o | o in s'.outcomes ensures OutcomeHolds(s'.sh, o) {
      if o in s.outcomes {
        assert OutcomeHolds(s.sh, o);
      }
    }
  }

  // While an operation is inside, nobody has been told about a failure yet.
  lemma LatchedFailures(s: System, s': System, error: Error, disposition: Disposition)
    requires Tenancy(s) && Failures(s) && s.holders != {}
    requires s'.latches == s.latches + [(error, disposition)] && s'.outcomes == s.outcomes
    requires s'.sh.primary == LatchFailure(s.sh, error, disposition).primary
    requires s'.sh.disposition == LatchFailure(s.sh, error, disposition).disposition
    requires s'.sh.abortSuppressed == LatchFailure(s.sh, error, disposition).abortSuppressed
    ensures Failures(s')
  {
    assert s'.latches[|s.latches|].1 == disposition;
    forall i | 0 <= i < |s.latches| ensures s'.latches[i] == s.latches[i] {}
    forall o | o in s'.outcomes ensures OutcomeHolds(s'.sh, o) {
      assert OutcomeHolds(s.sh, o);
    }
  }

  lemma CleanFailures(s: System, t: Tid, id: nat, quiet: bool, request: Request, ev: Event)
    requires Tenancy(s) && Cleanups(s) && Failures(s) && At(s, t) == Cleaning(id, quiet, request)
    ensures Failures(StepClean(s, t, id, quiet, request, ev))
  {
    var s' := StepClean(s, t, id, quiet, request, ev);
    assert CleanupOf(s, t, At(s, t));
    forall o | o in s'.outcomes ensures OutcomeHolds(s'.sh, o) {
      if o in s.outcomes {
        assert OutcomeHolds(s.sh, o);
      }
    }
  }

  lemma PublishFailures(s: System, t: Tid, fin: bool, parts: seq<Part>, answer: InitAnswer)
    requires Tenancy(s) && Failures(s) && At(s, t) == Inside(fin, Publishing(parts, answer))
    ensures Failures(StepPublish(s, t, fin, parts, answer))
  {
    assert TenancyOf(s, t, At(s, t));
    var s' := StepPublish(s, t, fin, parts, answer);
    if answer.InitError? {
      LatchedFailures(s, s', RequestFailed(answer.fault), answer.disposition);
    } else {
      FrameFailures(s, s');
    }
  }

  lemma UploadFailures(s: System, t: Tid, fin: bool, work: Work, ev: Event)
    requires Tenancy(s) && Failures(s) && At(s, t) == Inside(fin, work)
    ensures Failures(StepUpload(s, t, fin, work, ev))
  {
    if work.Publishing? && ev.Run? {
      PublishFailures(s, t, fin, work.parts, work.answer);
    } else {
      FrameFailures(s, StepUpload(s, t, fin, work, ev));
    }
  }

  lemma FinalizeFailures(s: System, t: Tid, work: Work, ev: Event)
    requires Tenancy(s) && Failures(s) && At(s, t) == Inside(true, work)
    ensures Failures(StepFinalize(s, t, work, ev))
  {
    FrameFailures(s, StepFinalize(s, t, work, ev));
  }

  lemma InsideFailures(c: Sizing.Config, s: System, t: Tid, fin: bool, work: Work, ev: Event)
    requires c.growthInterval > 0
    requires Tenancy(s) && Failures(s) && At(s, t) == Inside(fin, work)
    ensures Failures(StepInside(c, s, t, fin, work, ev))
  {
    assert TenancyOf(s, t, At(s, t));
    match work
    case Preparing(data, location) =>
      if ev.Run? { FrameFailures(s, StepPrepare(c, s, t, data, location)); }
    case Reserving(buffer) => if ev.Run? { FrameFailures(s, StepReserve(c, s, t, buffer)); }
    case Deciding(_) => FinalizeFailures(s, t, work, ev);
    case PuttingSingle(_, _) => FinalizeFailures(s, t, work, ev);
    case Snapshotting => FinalizeFailures(s, t, work, ev);
    case Completing(_, _) => FinalizeFailures(s, t, work, ev);
    case Finishing => FinalizeFailures(s, t, work, ev);
    case _ => UploadFailures(s, t, fin, work, ev);
  }

  lemma LatchFailures(s: System, t: Tid, error: Error, disposition: Disposition)
    requires Tenancy(s) && Failures(s) && At(s, t) == Failing(error, disposition)
    ensures Failures(StepLatch(s, t, error, disposition))
  {
    assert TenancyOf(s, t, At(s, t));
    LatchedFailures(s, StepLatch(s, t, error, disposition), error, disposition);
  }

  lemma ReleaseFailures(s: System, t: Tid, failed: bool, quiet: bool)
    requires Tenancy(s) && Failures(s) && At(s, t) == Releasing(failed, quiet)
    ensures Failures(StepRelease(s, t, quiet))
  {
    FrameFailures(s, StepRelease(s, t, quiet));
  }

  lemma AbortFailures(s: System, t: Tid, id: nat, request: Request, ev: Event)
    requires Failures(s) && At(s, t) == AbortCleaning(id, request)
    ensures Failures(StepAbortClean(s, t, id, request, ev))
  {
    FrameFailures(s, StepAbortClean(s, t, id, request, ev));
  }

  lemma DrainFailures(s: System, t: Tid)
    requires Cleanups(s) && Failures(s) && At(s, t) == Draining
    ensures Failures(StepDrain(s, t))
  {
    assert CleanupOf(s, t, At(s, t));
    FrameFailures(s, StepDrain(s, t));
  }

  lemma EnteringFailures(s: System, t: Tid, ev: Event)
    requires Tenancy(s) && Failures(s)
    ensures Failures(StepEntering(s, t, ev))
  {
    FrameFailures(s, StepEntering(s, t, ev));
  }

  lemma StepFailures(c: Sizing.Config, s: System, t: Tid, ev: Event)
    requires c.growthInterval > 0
    requires Tenancy(s) && Cleanups(s) && Failures(s)
    ensures Failures(Step(c, s, t, ev))
  {
    match At(s, t)
    case Inside(fin, work) => InsideFailures(c, s, t, fin, work, ev);
    case Failing(error, disposition) => if ev.Run? { LatchFailures(s, t, error, disposition); }
    case Releasing(failed, quiet) => if ev.Run? { ReleaseFailures(s, t, failed, quiet); }
    case Cleaning(id, quiet, request) => CleanFailures(s, t, id, quiet, request, ev);
    case Draining => if ev.Run? { DrainFailures(s, t); }
    case AbortCleaning(id, request) => AbortFailures(s, t, id, request, ev);
    case AwaitingCleanup(quiet) => if ev.Run? { FrameFailures(s, StepAwait(s, t, quiet, false)); }
    case AbortAwaiting => if ev.Run? { FrameFailures(s, StepAwait(s, t, false, true)); }
    case _ => EnteringFailures(s, t, ev);
  }
}
