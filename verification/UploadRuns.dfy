// What holds in every run of an upload session: for every schedule of threads,
// every sequence of calls and every behaviour of the server.
module UploadRuns {
  import opened Common
  import opened UploadState
  import opened UploadProtocol
  import opened UploadTenancy
  import opened UploadCleanup
  import opened UploadInit
  import opened UploadFailure
  import opened UploadData
  import opened UploadLimits
  import Sizing = UploadSizing

  ghost predicate Safe(c: Sizing.Config, s: System)
    requires c.growthInterval > 0
  {
    && Tenancy(s) && Cleanups(s) && Inits(s) && Failures(s) && Datas(s)
    && (Sizing.ValidConfig(c) ==> Limits(c, s))
  }

  lemma StartSafe(c: Sizing.Config)
    requires c.growthInterval > 0
    ensures Safe(c, Start)
  {
    StartTenancy();
    StartCleanups();
    StartInits();
    StartFailures();
    StartDatas();
    if Sizing.ValidConfig(c) { StartLimits(c); }
  }

  lemma StepSafe(c: Sizing.Config, s: System, t: Tid, ev: Event)
    requires c.growthInterval > 0 && Safe(c, s)
    ensures Safe(c, Step(c, s, t, ev))
  {
    assert CleanupOf(s, t, At(s, t)) && InitOf(s, t, At(s, t));
    StepTenancy(c, s, t, ev);
    StepCleanups(c, s, t, ev);
    StepInits(c, s, t, ev);
    StepFailures(c, s, t, ev);
    StepDatas(c, s, t, ev);
    if Sizing.ValidConfig(c) { StepLimits(c, s, t, ev); }
  }

  type Schedule = seq<(Tid, Event)>

  lemma InsideFits(c: Sizing.Config, s: System, t: Tid, fin: bool, work: Work, ev: Event)
    requires c.growthInterval > 0 && BufferFits(s.sh) && At(s, t) == Inside(fin, work)
    ensures BufferFits(StepInside(c, s, t, fin, work, ev).sh)
  {
    match work
    case Preparing(data, location) => if ev.Run? { PrepareFits(c, s.sh, data, location); }
    case _ =>
  }

  lemma StepFits(c: Sizing.Config, s: System, t: Tid, ev: Event)
    requires c.growthInterval > 0 && BufferFits(s.sh)
    ensures BufferFits(Step(c, s, t, ev).sh)
  {
    match At(s, t)
    case Inside(fin, work) => InsideFits(c, s, t, fin, work, ev);
    case _ =>
  }

  // The state after a schedule of steps.
  function Run(c: Sizing.Config, sched: Schedule): (s: System)
    requires c.growthInterval > 0
    ensures BufferFits(s.sh)
  {
    if |sched| == 0 then Start
    else
      var s := Run(c, sched[..|sched| - 1]);
      var (t, ev) := sched[|sched| - 1];
      StepFits(c, s, t, ev);
      Step(c, s, t, ev)
  }

  lemma {:induction false} RunSafe(c: Sizing.Config, sched: Schedule)
    requires c.growthInterval > 0
    ensures Safe(c, Run(c, sched))
  {
    if |sched| == 0 {
      StartSafe(c);
    } else {
      RunSafe(c, sched[..|sched| - 1]);
      StepSafe(c, Run(c, sched[..|sched| - 1]), sched[|sched| - 1].0, sched[|sched| - 1].1);
    }
  }

  // ------------------------------------------------------------- what only grows

  ghost predicate Forward(s: System, s': System) {
    && s.log <= s'.log && s.outcomes <= s'.outcomes && s.latches <= s'.latches
    && s.data.stream <= s'.data.stream && s.data.reserved <= s'.data.reserved
    && (s.sh.uploadId.Some? ==> s'.sh.uploadId == s.sh.uploadId)
    && (s.sh.cleanup != NoCleanup ==> s'.sh.cleanup != NoCleanup)
    && (s.sh.lifecycle == Finalized ==> s'.sh.lifecycle == Finalized && s'.data == s.data && s'.log == s.log)
    && (s.sh.lifecycle == Aborted ==> s'.sh.lifecycle == Aborted)
  }

  lemma ForwardUpload(s: System, t: Tid, fin: bool, work: Work, ev: Event)
    requires Tenancy(s) && Inits(s) && At(s, t) == Inside(fin, work)
    ensures Forward(s, StepUpload(s, t, fin, work, ev))
  {
    assert TenancyOf(s, t, At(s, t)) && InitOf(s, t, At(s, t));
  }

  lemma ForwardPrepare(c: Sizing.Config, s: System, t: Tid, data: Bytes, location: nat)
    requires c.growthInterval > 0 && Tenancy(s) && At(s, t) == Inside(false, Preparing(data, location))
    ensures Forward(s, StepPrepare(c, s, t, data, location))
  {
    assert TenancyOf(s, t, At(s, t));
  }

  lemma ForwardFinal(s: System, t: Tid, work: Work, ev: Event)
    requires Tenancy(s) && At(s, t) == Inside(true, work)
    ensures Forward(s, StepFinalize(s, t, work, ev))
  {
    assert TenancyOf(s, t, At(s, t));
  }

  lemma ForwardInside(c: Sizing.Config, s: System, t: Tid, fin: bool, work: Work, ev: Event)
    requires c.growthInterval > 0 && Tenancy(s) && Inits(s) && At(s, t) == Inside(fin, work)
    ensures Forward(s, StepInside(c, s, t, fin, work, ev))
  {
    assert TenancyOf(s, t, At(s, t));
    match work
    case Preparing(data, location) => if ev.Run? { ForwardPrepare(c, s, t, data, location); }
    case Reserving(buffer) =>
    case Deciding(_) => ForwardFinal(s, t, work, ev);
    case PuttingSingle(_, _) => ForwardFinal(s, t, work, ev);
    case Snapshotting => ForwardFinal(s, t, work, ev);
    case Completing(_, _) => ForwardFinal(s, t, work, ev);
    case Finishing => ForwardFinal(s, t, work, ev);
    case _ => ForwardUpload(s, t, fin, work, ev);
  }

  lemma ForwardEntering(s: System, t: Tid, ev: Event)
    requires Tenancy(s)
    ensures Forward(s, StepEntering(s, t, ev))
  {
  }

  lemma ForwardAbort(s: System, t: Tid, ev: Event)
    requires Tenancy(s) && Cleanups(s)
    ensures At(s, t).Draining? ==> Forward(s, StepDrain(s, t))
    ensures At(s, t).AbortAwaiting? ==> Forward(s, StepAwait(s, t, false, true))
    ensures At(s, t).AbortCleaning? ==> Forward(s, StepAbortClean(s, t, At(s, t).id, At(s, t).request, ev))
  {
    assert CleanupOf(s, t, At(s, t));
  }

  lemma ForwardRelease(s: System, t: Tid, ev: Event)
    requires Tenancy(s) && Cleanups(s)
    ensures At(s, t).Releasing? ==> Forward(s, StepRelease(s, t, At(s, t).quiet))
    ensures At(s, t).AwaitingCleanup? ==> Forward(s, StepAwait(s, t, At(s, t).quiet, false))
    ensures At(s, t).Cleaning? ==> Forward(s, StepClean(s, t, At(s, t).id, At(s, t).quiet, At(s, t).request, ev))
  {
    assert CleanupOf(s, t, At(s, t)) && TenancyOf(s, t, At(s, t));
  }

  lemma ForwardLatch(s: System, t: Tid, error: Error, disposition: Disposition)
    requires Tenancy(s) && At(s, t) == Failing(error, disposition)
    ensures Forward(s, StepLatch(s, t, error, disposition))
  {
    assert TenancyOf(s, t, At(s, t));
  }

  lemma StepForward(c: Sizing.Config, s: System, t: Tid, ev: Event)
    requires c.growthInterval > 0 && Tenancy(s) && Cleanups(s) && Inits(s)
    ensures Forward(s, Step(c, s, t, ev))
  {
    match At(s, t)
    case Inside(fin, work) => ForwardInside(c, s, t, fin, work, ev);
    case Failing(error, disposition) => if ev.Run? { ForwardLatch(s, t, error, disposition); }
    case Releasing(_, _) => ForwardRelease(s, t, ev);
    case AwaitingCleanup(_) => ForwardRelease(s, t, ev);
    case Cleaning(_, _, _) => ForwardRelease(s, t, ev);
    case Draining => ForwardAbort(s, t, ev);
    case AbortAwaiting => ForwardAbort(s, t, ev);
    case AbortCleaning(_, _) => ForwardAbort(s, t, ev);
    case _ => ForwardEntering(s, t, ev);
  }

  lemma {:induction false} RunForward(c: Sizing.Config, sched: Schedule, more: Schedule)
    requires c.growthInterval > 0
    ensures Forward(Run(c, sched), Run(c, sched + more))
  {
    if |more| == 0 {
      assert sched + more == sched;
    } else {
      var (t, ev) := more[|more| - 1];
      var before := sched + more[..|more| - 1];
      assert (sched + more)[..|sched + more| - 1] == before;
      RunForward(c, sched, more[..|more| - 1]);
      RunSafe(c, before);
      StepForward(c, Run(c, before), t, ev);
    }
  }

  // ------------------------------------------------------------------- theorems

  // A finalized upload shows exactly the admitted bytes, in offset order, has
  // seen no failure and was never aborted. Even a publication whose answer was
  // lost shows exactly the admitted bytes.
  lemma FinalizedPublishesStream(c: Sizing.Config, sched: Schedule)
    requires c.growthInterval > 0
    ensures var s := Run(c, sched);
      && |s.data.stream| == s.sh.nextOffset
      && (s.data.published.Some? ==> s.data.published.value == s.data.stream)
      && (s.sh.lifecycle == Finalized ==>
            s.data.published.Some? && s.latches == [] && !DeleteCalled(s.log) && s.holders == {})
  {
    RunSafe(c, sched);
  }

  // FINALIZED is terminal.
  lemma FinalizedIsTerminal(c: Sizing.Config, sched: Schedule, more: Schedule)
    requires c.growthInterval > 0
    requires Run(c, sched).sh.lifecycle == Finalized
    ensures var s, s' := Run(c, sched), Run(c, sched + more);
      && s'.sh.lifecycle == Finalized && s'.data.published == s.data.published && s'.log == s.log
      && s'.latches == []
  {
    RunForward(c, sched, more);
    RunSafe(c, sched + more);
  }

  // Before any disturbance the reserved parts followed by the buffered piece are
  // the admitted bytes.
  lemma PartsAndBufferAreStream(c: Sizing.Config, sched: Schedule)
    requires c.growthInterval > 0
    ensures var s := Run(c, sched);
      Undisturbed(s) ==> Concat(s.data.reserved) + Data(s.sh.buffered) == s.data.stream
  {
    RunSafe(c, sched);
  }

  // The abort request is sent at most once, for the upload that was created, and
  // it is the last request of the session.
  lemma AbortIsLastRequest(c: Sizing.Config, sched: Schedule, i: nat)
    requires c.growthInterval > 0
    requires i < |Run(c, sched).log| && Run(c, sched).log[i].DeleteCall?
    ensures var s := Run(c, sched);
      i == |s.log| - 1 && s.sh.uploadId == Some(s.log[i].id) && s.holders == {}
  {
    RunSafe(c, sched);
  }

  // Once cleanup has begun, no operation is inside the session, now or later, so
  // no part upload and no completion is in flight or starts.
  lemma CleanupMeansQuiet(c: Sizing.Config, sched: Schedule, more: Schedule, t: Tid)
    requires c.growthInterval > 0
    requires Run(c, sched).sh.cleanup != NoCleanup
    ensures var s := Run(c, sched + more);
      s.sh.active == 0 && s.holders == {} && !At(s, t).Inside? && !At(s, t).Failing? && !At(s, t).Releasing?
  {
    RunForward(c, sched, more);
    RunSafe(c, sched + more);
    var s := Run(c, sched + more);
    assert TenancyOf(s, t, At(s, t));
  }

  // Cleanup ends with an abort request exactly when there was an upload to abort
  // and no operation had an ambiguous outcome, whichever failure came first.
  lemma AbortExactlyWhenCertain(c: Sizing.Config, sched: Schedule)
    requires c.growthInterval > 0
    ensures var s := Run(c, sched);
      && (AmbiguousLatched(s.latches) ==> !DeleteCalled(s.log))
      && (s.sh.cleanup == CleanupComplete ==>
            (DeleteCalled(s.log) <==> s.sh.uploadId.Some? && !AmbiguousLatched(s.latches)))
  {
    RunSafe(c, sched);
  }

  // The first latched error is the primary error for good; whoever is told about
  // the failure, by Write, Finish, Finalize or Abort and at any time of the run,
  // is told the same pair of errors.
  lemma FailureAgreement(c: Sizing.Config, sched: Schedule, more: Schedule, o: Outcome, o': Outcome)
    requires c.growthInterval > 0
    requires o in Run(c, sched).outcomes && o' in Run(c, sched + more).outcomes
    requires o.ThrewFailure? && o'.ThrewFailure?
    ensures o == o' && Run(c, sched).latches != [] && o.failure.primary == Run(c, sched).latches[0].0
  {
    RunForward(c, sched, more);
    RunSafe(c, sched);
    RunSafe(c, sched + more);
    var s, s' := Run(c, sched), Run(c, sched + more);
    assert OutcomeHolds(s.sh, o);
    assert o in s'.outcomes;
    assert OutcomeHolds(s'.sh, o) && OutcomeHolds(s'.sh, o');
  }

  lemma PrimaryNeverChanges(c: Sizing.Config, sched: Schedule, more: Schedule)
    requires c.growthInterval > 0
    requires Run(c, sched).sh.primary.Some?
    ensures Run(c, sched + more).sh.primary == Run(c, sched).sh.primary
    ensures Run(c, sched + more).sh.disposition == Run(c, sched).sh.disposition
  {
    RunForward(c, sched, more);
    RunSafe(c, sched);
    RunSafe(c, sched + more);
  }

  // A failure is always cleaned up after: with nobody inside, cleanup has begun;
  // and an operation that failed never returns normally.
  lemma FailureStartsCleanup(c: Sizing.Config, sched: Schedule, t: Tid)
    requires c.growthInterval > 0
    ensures var s := Run(c, sched);
      && (s.sh.primary.Some? && s.sh.active == 0 ==> s.sh.cleanup != NoCleanup)
      && (At(s, t).Releasing? && At(s, t).failed && s.sh.active > 0 ==> !ReleaseOperation(s.sh).ReleaseDone?)
  {
    RunSafe(c, sched);
    var s := Run(c, sched);
    assert TenancyOf(s, t, At(s, t));
  }

  // The upload is created by at most one request and its id never changes.
  lemma InitializedOnce(c: Sizing.Config, sched: Schedule, more: Schedule)
    requires c.growthInterval > 0
    ensures var s := Run(c, sched);
      && (forall i, j :: 0 <= i < j < |s.log| && s.log[i].InitCall? ==> !s.log[j].InitCall?)
      && (s.sh.uploadId.Some? ==> Run(c, sched + more).sh.uploadId == s.sh.uploadId)
  {
    RunSafe(c, sched);
    RunForward(c, sched, more);
  }

  // The completion request lists every reserved part, each with its ETag, and the
  // server holds for each of them the bytes that were reserved.
  lemma CompletionCarriesEverything(c: Sizing.Config, sched: Schedule, t: Tid)
    requires c.growthInterval > 0
    requires At(Run(c, sched), t).Inside? && At(Run(c, sched), t).work.Completing?
    ensures var s := Run(c, sched);
      var etags := At(s, t).work.etags;
      && |etags| == |s.data.reserved| && "" !in etags
      && (forall i :: 0 <= i < |etags| ==> i in s.data.store && s.data.store[i] == s.data.reserved[i])
      && Concat(s.data.reserved) == s.data.stream
      && s.holders == {t}
  {
    RunSafe(c, sched);
    var s := Run(c, sched);
    assert TenancyOf(s, t, At(s, t)) && DataOf(s, t, At(s, t));
    var etags := At(s, t).work.etags;
    forall i | 0 <= i < |etags| ensures i in s.data.store {
      assert etags[i] in etags;
    }
    forall u | u in s.holders ensures u == t {
      Sole(s.holders, t, u);
    }
  }

  // A completion fails for a missing part exactly when the server answered some
  // part upload with an empty ETag; the upload id is known by then.
  lemma MissingPartExactly(c: Sizing.Config, sched: Schedule, t: Tid)
    requires c.growthInterval > 0
    requires At(Run(c, sched), t).Inside? && At(Run(c, sched), t).work.Snapshotting?
    ensures var s := Run(c, sched);
      s.sh.uploadId.Some? && (MissingPart(s.sh) <==> s.data.blanks != {})
  {
    RunSafe(c, sched);
    var s := Run(c, sched);
    assert TenancyOf(s, t, At(s, t));
    SnapshotExact(s, t);
  }

  // With a configuration that `Create` returned, no operation ever fails for
  // having too many parts, in Finalize neither; every part but the last is at
  // least as large as scheduled, none is larger than S3 accepts, and there are
  // never more than the configured number.
  lemma PartLimitUnreachable(c: Sizing.Config, sched: Schedule, t: Tid)
    requires Sizing.ValidConfig(c)
    ensures var s := Run(c, sched);
      && !(At(s, t).Failing? && At(s, t).error == PartLimit)
      && (forall i :: 0 <= i < |s.latches| ==> s.latches[i].0 != PartLimit)
      && |s.data.reserved| <= c.maxParts as int
      && (forall i :: 0 <= i < |s.data.reserved| - 1 ==>
            |s.data.reserved[i]| >= Sizing.PartSize(c, i) >= Sizing.MIN_PART as int)
      && (forall i :: 0 <= i < |s.data.reserved| ==> |s.data.reserved[i]| <= Sizing.MAX_PART as int)
  {
    RunSafe(c, sched);
    var s := Run(c, sched);
    assert LimitsOf(c, s, At(s, t));
    forall i | 0 <= i < |s.data.reserved| - 1
      ensures |s.data.reserved[i]| >= Sizing.PartSize(c, i) >= Sizing.MIN_PART as int
    {
      Sizing.PartSizeBounds(c, i);
    }
  }
}
