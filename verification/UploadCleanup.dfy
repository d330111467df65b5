// At most one thread cleans up, at most one abort request is sent, and only
// after the last operation has left.
module UploadCleanup {
  import opened Common
  import opened UploadState
  import opened UploadProtocol
  import opened UploadTenancy
  import Sizing = UploadSizing

  ghost predicate DeleteCalled(log: seq<Call>) {
    exists i :: 0 <= i < |log| && log[i].DeleteCall?
  }

  predicate InCleanup(l: Thread) { l.Cleaning? || l.AbortCleaning? }

  predicate InAbort(l: Thread) { l.Draining? || l.AbortAwaiting? || l.AbortCleaning? }

  ghost predicate CleanupOf(s: System, t: Tid, l: Thread) {
    && (InCleanup(l) <==> s.sh.cleanup == CleanupInProgress && s.cleaner == Some(t))
    && (InAbort(l) <==> s.sh.lifecycle == Aborting && s.aborter == Some(t))
    && (InCleanup(l) ==> s.sh.uploadId == Some(l.id) && !s.sh.abortSuppressed)
    && (InCleanup(l) ==> (l.request.Unsent? <==> !DeleteCalled(s.log)))
    && (l.Cleaning? || l.AwaitingCleanup? || l.AbortAwaiting? ==> s.sh.primary.Some?)
    && (l.AbortCleaning? ==> s.sh.primary.None?)
    && (l.AbortAwaiting? ==> s.sh.cleanup != NoCleanup)
    && (l.Draining? && s.sh.primary.None? ==> s.sh.cleanup == NoCleanup)
  }

  ghost predicate CleanupGlobal(s: System) {
    && (s.sh.cleanup == NoCleanup ==> !DeleteCalled(s.log))
    && (s.sh.cleanup == CleanupComplete ==>
          (DeleteCalled(s.log) <==> s.sh.uploadId.Some? && !s.sh.abortSuppressed))
    && (forall i :: 0 <= i < |s.log| && s.log[i].DeleteCall? ==>
          i == |s.log| - 1 && Some(s.log[i].id) == s.sh.uploadId)
    && (s.sh.cleanup == CleanupInProgress ==> s.sh.uploadId.Some? && !s.sh.abortSuppressed)
    && (s.sh.primary.Some? && s.sh.disposition == Ambiguous ==> s.sh.abortSuppressed)
  }

  ghost predicate Cleanups(s: System) {
    && CleanupGlobal(s)
    && forall t: Tid :: CleanupOf(s, t, At(s, t))
  }

  lemma StartCleanups()
    ensures Cleanups(Start)
  {
  }

  lemma DeleteAppend(log: seq<Call>, call: Call)
    ensures DeleteCalled(log + [call]) <==> DeleteCalled(log) || call.DeleteCall?
  {
    assert (log + [call])[|log|] == call;
    forall i | 0 <= i < |log| ensures (log + [call])[i] == log[i] {}
  }

  // Nothing that cleanup looks at changes.
  lemma FrameCleanups(s: System, s': System, t: Tid)
    requires Cleanups(s)
    requires s'.sh.cleanup == s.sh.cleanup && s'.sh.primary == s.sh.primary
    requires s'.sh.disposition == s.sh.disposition
    requires s'.sh.uploadId == s.sh.uploadId && s'.sh.abortSuppressed == s.sh.abortSuppressed
    requires s'.sh.lifecycle == Aborting <==> s.sh.lifecycle == Aborting
    requires s'.log == s.log && s'.cleaner == s.cleaner && s'.aborter == s.aborter
    requires s'.threads == s.threads[t := At(s', t)]
    requires CleanupOf(s, t, At(s', t))
    ensures Cleanups(s')
  {
    forall u: Tid ensures CleanupOf(s', u, At(s', u)) {
      assert CleanupOf(s, u, At(s, u));
    }
  }

  // While an operation is inside nobody cleans up, so it may send its requests,
  // publish the upload id and latch failures.
  lemma BusyCleanups(s: System, s': System, t: Tid)
    requires Tenancy(s) && Cleanups(s) && s.holders != {}
    requires s'.sh.cleanup == NoCleanup
    requires s.sh.primary.Some? ==> s'.sh.primary == s.sh.primary && s'.sh.disposition == s.sh.disposition
    requires s.sh.primary.None? && s'.sh.primary.Some? && s'.sh.disposition == Ambiguous ==> s'.sh.abortSuppressed
    requires s.sh.abortSuppressed ==> s'.sh.abortSuppressed
    requires s'.sh.lifecycle == Aborting <==> s.sh.lifecycle == Aborting
    requires s'.log == s.log || exists call: Call :: s'.log == s.log + [call] && !call.DeleteCall?
    requires s'.cleaner == s.cleaner && s'.aborter == s.aborter
    requires s'.threads == s.threads[t := At(s', t)]
    requires !InCleanup(At(s', t)) && !InAbort(At(s', t)) && !At(s', t).AwaitingCleanup?
    requires !InAbort(At(s, t))
    ensures Cleanups(s')
  {
    assert s.sh.cleanup == NoCleanup;
    assert !DeleteCalled(s'.log) by {
      if s'.log != s.log {
        var call: Call :| s'.log == s.log + [call] && !call.DeleteCall?;
        DeleteAppend(s.log, call);
      }
    }
    assert CleanupOf(s, t, At(s, t));
    forall u: Tid ensures CleanupOf(s', u, At(s', u)) {
      assert CleanupOf(s, u, At(s, u));
    }
  }

  // The request of the cleaning thread leaves.
  lemma SendDelete(s: System, s': System, t: Tid)
    requires Tenancy(s) && Cleanups(s)
    requires InCleanup(At(s, t)) && At(s, t).request == Unsent
    requires s' == Send(s, t, At(s', t), DeleteCall(At(s, t).id))
    requires At(s', t) == At(s, t).(request := Sent)
    ensures Cleanups(s')
  {
    DeleteAppend(s.log, DeleteCall(At(s, t).id));
    assert CleanupOf(s, t, At(s, t));
    forall u: Tid ensures CleanupOf(s', u, At(s', u)) {
      assert CleanupOf(s, u, At(s, u));
    }
  }

  lemma ReleaseCleanups(s: System, t: Tid, failed: bool, quiet: bool)
    requires Tenancy(s) && Cleanups(s) && At(s, t) == Releasing(failed, quiet)
    ensures Cleanups(StepRelease(s, t, quiet))
  {
    var s' := StepRelease(s, t, quiet);
    assert TenancyOf(s, t, At(s, t));
    assert CleanupOf(s, t, At(s, t));
    assert s.sh.cleanup == NoCleanup;
    forall u: Tid ensures CleanupOf(s', u, At(s', u)) {
      assert CleanupOf(s, u, At(s, u));
    }
  }

  lemma CleanCleanups(s: System, t: Tid, id: nat, quiet: bool, request: Request, ev: Event)
    requires Tenancy(s) && Cleanups(s) && At(s, t) == Cleaning(id, quiet, request)
    ensures Cleanups(StepClean(s, t, id, quiet, request, ev))
  {
    var s' := StepClean(s, t, id, quiet, request, ev);
    assert CleanupOf(s, t, At(s, t));
    if s' == s {
    } else if request.Unsent? {
      SendDelete(s, s', t);
    } else if request.Sent? {
      FrameCleanups(s, s', t);
    } else {
      forall u: Tid ensures CleanupOf(s', u, At(s', u)) {
        assert CleanupOf(s, u, At(s, u));
      }
    }
  }

  lemma BeginAbortCleanups(s: System, t: Tid)
    requires Tenancy(s) && Cleanups(s) && At(s, t).EnteringAbort?
    ensures Cleanups(StepBeginAbort(s, t))
  {
    var s' := StepBeginAbort(s, t);
    assert CleanupOf(s, t, At(s, t));
    forall u: Tid ensures CleanupOf(s', u, At(s', u)) {
      assert CleanupOf(s, u, At(s, u));
    }
  }

  lemma DrainCleanups(s: System, t: Tid)
    requires Tenancy(s) && Cleanups(s) && At(s, t) == Draining
    ensures Cleanups(StepDrain(s, t))
  {
    var s' := StepDrain(s, t);
    assert CleanupOf(s, t, At(s, t));
    forall u: Tid ensures CleanupOf(s', u, At(s', u)) {
      assert CleanupOf(s, u, At(s, u));
    }
  }

  lemma AbortCleanCleanups(s: System, t: Tid, id: nat, request: Request, ev: Event)
    requires Tenancy(s) && Cleanups(s) && At(s, t) == AbortCleaning(id, request)
    ensures Cleanups(StepAbortClean(s, t, id, request, ev))
  {
    var s' := StepAbortClean(s, t, id, request, ev);
    assert CleanupOf(s, t, At(s, t));
    if s' == s {
    } else if request.Unsent? {
      SendDelete(s, s', t);
    } else if request.Sent? {
      FrameCleanups(s, s', t);
    } else {
      forall u: Tid ensures CleanupOf(s', u, At(s', u)) {
        assert CleanupOf(s, u, At(s, u));
      }
    }
  }

  // ------------------------------------------------------------------ every step

  lemma BeginWriteCleanups(s: System, t: Tid, data: Bytes, location: nat)
    requires Cleanups(s) && At(s, t).EnteringWrite?
    ensures Cleanups(StepBeginWrite(s, t, data, location))
  {
    var s' := StepBeginWrite(s, t, data, location);
    assert CleanupOf(s, t, At(s, t));
    if s' != s { FrameCleanups(s, s', t); }
  }

  lemma BeginFinalizeCleanups(s: System, t: Tid)
    requires Cleanups(s) && At(s, t).EnteringFinalize?
    ensures Cleanups(StepBeginFinalize(s, t))
  {
    var s' := StepBeginFinalize(s, t);
    assert CleanupOf(s, t, At(s, t));
    if s' != s { FrameCleanups(s, s', t); }
  }

  lemma EnteringCleanups(s: System, t: Tid, ev: Event)
    requires Tenancy(s) && Cleanups(s)
    requires At(s, t).Idle? || At(s, t).EnteringWrite? || At(s, t).EnteringFinalize? || At(s, t).EnteringAbort?
    ensures Cleanups(StepEntering(s, t, ev))
  {
    assert CleanupOf(s, t, At(s, t));
    match At(s, t)
    case EnteringWrite(data, location) => if ev.Run? { BeginWriteCleanups(s, t, data, location); }
    case EnteringFinalize => if ev.Run? { BeginFinalizeCleanups(s, t); }
    case EnteringAbort => if ev.Run? { BeginAbortCleanups(s, t); }
    case Idle =>
      var s' := StepEntering(s, t, ev);
      if s' != s { FrameCleanups(s, s', t); }
  }

  lemma PrepareCleanups(c: Sizing.Config, s: System, t: Tid, data: Bytes, location: nat)
    requires c.growthInterval > 0
    requires Tenancy(s) && Cleanups(s) && At(s, t) == Inside(false, Preparing(data, location))
    ensures Cleanups(StepPrepare(c, s, t, data, location))
  {
    var s' := StepPrepare(c, s, t, data, location);
    assert TenancyOf(s, t, At(s, t));
    if s' != s {
      BusyCleanups(s, s', t);
    }
  }

  lemma ReserveCleanups(c: Sizing.Config, s: System, t: Tid, buffer: Buffer)
    requires Tenancy(s) && Cleanups(s) && At(s, t) == Inside(true, Reserving(buffer))
    ensures Cleanups(StepReserve(c, s, t, buffer))
  {
    assert TenancyOf(s, t, At(s, t));
    BusyCleanups(s, StepReserve(c, s, t, buffer), t);
  }

  lemma LocalCleanups(s: System, t: Tid, fin: bool, work: Work, ev: Event)
    requires Tenancy(s) && Cleanups(s) && At(s, t) == Inside(fin, work) && LocalWork(work)
    ensures Cleanups(StepUpload(s, t, fin, work, ev))
  {
    var s' := StepUpload(s, t, fin, work, ev);
    assert TenancyOf(s, t, At(s, t));
    if s' != s {
      BusyCleanups(s, s', t);
    }
  }

  lemma EnsureCleanups(s: System, t: Tid, fin: bool, parts: seq<Part>)
    requires Tenancy(s) && Cleanups(s) && At(s, t) == Inside(fin, Ensuring(parts))
    ensures Cleanups(StepEnsure(s, t, fin, parts))
  {
    assert TenancyOf(s, t, At(s, t));
    BusyCleanups(s, StepEnsure(s, t, fin, parts), t);
  }

  lemma PublishCleanups(s: System, t: Tid, fin: bool, parts: seq<Part>, answer: InitAnswer)
    requires Tenancy(s) && Cleanups(s) && At(s, t) == Inside(fin, Publishing(parts, answer))
    ensures Cleanups(StepPublish(s, t, fin, parts, answer))
  {
    assert TenancyOf(s, t, At(s, t));
    BusyCleanups(s, StepPublish(s, t, fin, parts, answer), t);
  }

  lemma StoreCleanups(s: System, t: Tid, fin: bool, parts: seq<Part>, etag: string)
    requires Tenancy(s) && Cleanups(s) && At(s, t) == Inside(fin, Storing(parts, etag))
    ensures Cleanups(StepStore(s, t, fin, parts, etag))
  {
    assert TenancyOf(s, t, At(s, t));
    BusyCleanups(s, StepStore(s, t, fin, parts, etag), t);
  }

  lemma UploadCleanups(s: System, t: Tid, fin: bool, work: Work, ev: Event)
    requires Tenancy(s) && Cleanups(s) && At(s, t) == Inside(fin, work)
    ensures Cleanups(StepUpload(s, t, fin, work, ev))
  {
    if LocalWork(work) {
      LocalCleanups(s, t, fin, work, ev);
    } else if ev.Run? {
      match work
      case Ensuring(parts) => EnsureCleanups(s, t, fin, parts);
      case Publishing(parts, answer) => PublishCleanups(s, t, fin, parts, answer);
      case Storing(parts, etag) => StoreCleanups(s, t, fin, parts, etag);
      case _ =>
    }
  }

  lemma FinalizeCleanups(s: System, t: Tid, work: Work, ev: Event)
    requires Tenancy(s) && Cleanups(s) && At(s, t) == Inside(true, work)
    ensures Cleanups(StepFinalize(s, t, work, ev))
  {
    var s' := StepFinalize(s, t, work, ev);
    assert TenancyOf(s, t, At(s, t));
    if s' != s {
      BusyCleanups(s, s', t);
    }
  }

  lemma LatchCleanups(s: System, t: Tid, error: Error, disposition: Disposition)
    requires Tenancy(s) && Cleanups(s) && At(s, t) == Failing(error, disposition)
    ensures Cleanups(StepLatch(s, t, error, disposition))
  {
    assert TenancyOf(s, t, At(s, t));
    BusyCleanups(s, StepLatch(s, t, error, disposition), t);
  }

  lemma InsideCleanups(c: Sizing.Config, s: System, t: Tid, fin: bool, work: Work, ev: Event)
    requires c.growthInterval > 0
    requires Tenancy(s) && Cleanups(s) && At(s, t) == Inside(fin, work)
    ensures Cleanups(StepInside(c, s, t, fin, work, ev))
  {
    assert TenancyOf(s, t, At(s, t));
    match work
    case Preparing(data, location) => if ev.Run? { PrepareCleanups(c, s, t, data, location); }
    case Reserving(buffer) => if ev.Run? { ReserveCleanups(c, s, t, buffer); }
    case Deciding(_) => FinalizeCleanups(s, t, work, ev);
    case PuttingSingle(_, _) => FinalizeCleanups(s, t, work, ev);
    case Snapshotting => FinalizeCleanups(s, t, work, ev);
    case Completing(_, _) => FinalizeCleanups(s, t, work, ev);
    case Finishing => FinalizeCleanups(s, t, work, ev);
    case _ => UploadCleanups(s, t, fin, work, ev);
  }

  lemma AwaitCleanups(s: System, t: Tid, quiet: bool, aborting: bool)
    requires Tenancy(s) && Cleanups(s)
    requires At(s, t) == if aborting then AbortAwaiting else AwaitingCleanup(quiet)
    ensures Cleanups(StepAwait(s, t, quiet, aborting))
  {
    var s' := StepAwait(s, t, quiet, aborting);
    assert CleanupOf(s, t, At(s, t));
    forall u: Tid ensures CleanupOf(s', u, At(s', u)) {
      assert CleanupOf(s, u, At(s, u));
    }
  }

  lemma StepCleanups(c: Sizing.Config, s: System, t: Tid, ev: Event)
    requires c.growthInterval > 0
    requires Tenancy(s) && Cleanups(s)
    ensures Cleanups(Step(c, s, t, ev))
  {
    match At(s, t)
    case Inside(fin, work) => InsideCleanups(c, s, t, fin, work, ev);
    case Failing(error, disposition) => if ev.Run? { LatchCleanups(s, t, error, disposition); }
    case Releasing(failed, quiet) => if ev.Run? { ReleaseCleanups(s, t, failed, quiet); }
    case AwaitingCleanup(quiet) => if ev.Run? { AwaitCleanups(s, t, quiet, false); }
    case Cleaning(id, quiet, request) => CleanCleanups(s, t, id, quiet, request, ev);
    case Draining => if ev.Run? { DrainCleanups(s, t); }
    case AbortAwaiting => if ev.Run? { AwaitCleanups(s, t, false, true); }
    case AbortCleaning(id, request) => AbortCleanCleanups(s, t, id, request, ev);
    case _ => EnteringCleanups(s, t, ev);
  }
}
