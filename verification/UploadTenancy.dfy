// Who is inside an operation, and what the lifecycle and the failure state say
// about it.
module UploadTenancy {
  import opened Common
  import opened UploadState
  import opened UploadProtocol
  import Sizing = UploadSizing

  predicate FinalWork(w: Work) {
    w.Deciding? || w.PuttingSingle? || w.Reserving? || w.Snapshotting? || w.Completing? || w.Finishing?
  }

  ghost predicate TenancyOf(s: System, t: Tid, l: Thread) {
    && (l.Inside? || l.Failing? || l.Releasing? <==> t in s.holders)
    && (l.Inside? ==> (l.fin <==> s.sh.lifecycle == Finalizing))
    && (l.Inside? ==> (FinalWork(l.work) ==> l.fin) && (l.work.Claimed? || l.work.Preparing? ==> !l.fin))
    && (l.Releasing? ==> s.sh.lifecycle != Finalizing && (l.failed ==> s.sh.primary.Some?))
    && (l.Failing? ==> l.error == Rethrown ==> s.sh.primary.Some?)
  }

  ghost predicate TenancyGlobal(sh: Shared, holders: set<Tid>) {
    && sh.active == |holders|
    && BufferFits(sh)
    && (sh.cleanup != NoCleanup ==> holders == {})
    && (sh.primary.Some? && holders == {} ==> sh.cleanup != NoCleanup)
    && (sh.cleanup != NoCleanup ==> sh.primary.Some? || sh.lifecycle == Aborting || sh.lifecycle == Aborted)
    && (sh.lifecycle == Finalizing ==> |holders| == 1 && sh.primary.None?)
    && (sh.lifecycle == Finalized ==> holders == {} && sh.primary.None?)
    && (sh.lifecycle == Aborted ==> holders == {} && sh.cleanup == CleanupComplete)
    && (sh.abortError.Some? ==> sh.cleanup == CleanupComplete && sh.primary.Some?)
    && (sh.init == InitFailed ==> sh.primary.Some?)
  }

  ghost predicate Tenancy(s: System) {
    && TenancyGlobal(s.sh, s.holders)
    && forall t: Tid :: TenancyOf(s, t, At(s, t))
  }

  lemma StartTenancy()
    ensures Tenancy(Start)
  {
  }

  // The fields of `sh` that tenancy looks at, except the buffer.
  ghost predicate SameTenancy(a: Shared, b: Shared) {
    && a.lifecycle == b.lifecycle && a.active == b.active && a.primary == b.primary
    && a.abortError == b.abortError && a.cleanup == b.cleanup
  }

  lemma FrameTenancy(s: System, s': System, t: Tid)
    requires Tenancy(s)
    requires SameTenancy(s.sh, s'.sh) && BufferFits(s'.sh)
    requires s'.sh.init == InitFailed ==> s.sh.primary.Some?
    requires s'.threads == s.threads[t := At(s', t)]
    requires s'.holders == s.holders
    requires TenancyOf(s, t, At(s', t))
    ensures Tenancy(s')
  {
    forall u: Tid ensures TenancyOf(s', u, At(s', u)) {
      assert TenancyOf(s, u, At(s, u));
    }
  }

  lemma BeginWriteTenancy(s: System, t: Tid, data: Bytes, location: nat)
    requires Tenancy(s) && At(s, t).EnteringWrite?
    ensures Tenancy(StepBeginWrite(s, t, data, location))
  {
    var s' := StepBeginWrite(s, t, data, location);
    assert TenancyOf(s, t, At(s, t));
    forall u: Tid ensures TenancyOf(s', u, At(s', u)) {
      assert TenancyOf(s, u, At(s, u));
    }
  }

  lemma BeginFinalizeTenancy(s: System, t: Tid)
    requires Tenancy(s) && At(s, t).EnteringFinalize?
    ensures Tenancy(StepBeginFinalize(s, t))
  {
    var s' := StepBeginFinalize(s, t);
    assert TenancyOf(s, t, At(s, t));
    forall u: Tid ensures TenancyOf(s', u, At(s', u)) {
      assert TenancyOf(s, u, At(s, u));
    }
  }

  lemma BeginAbortTenancy(s: System, t: Tid)
    requires Tenancy(s) && At(s, t).EnteringAbort?
    ensures Tenancy(StepBeginAbort(s, t))
  {
    var s' := StepBeginAbort(s, t);
    assert TenancyOf(s, t, At(s, t));
    forall u: Tid ensures TenancyOf(s', u, At(s', u)) {
      assert TenancyOf(s, u, At(s, u));
    }
  }

  lemma Sole(holders: set<Tid>, t: Tid, u: Tid)
    requires |holders| == 1 && t in holders && u in holders
    ensures t == u
  {
    assert holders == {t} + (holders - {t});
    assert |holders - {t}| == 0;
  }

  // Latching ends Finalizing, which only the sole holder can be in.
  lemma LatchTenancy(s: System, s': System, t: Tid, error: Error, disposition: Disposition)
    requires Tenancy(s) && t in s.holders
    requires error == Rethrown ==> s.sh.primary.Some?
    requires SameTenancy(s'.sh, LatchFailure(s.sh, error, disposition)) && BufferFits(s'.sh)
    requires s'.threads == s.threads[t := At(s', t)] && s'.holders == s.holders
    requires At(s', t) == Releasing(true, false) || At(s', t) == Failing(error, disposition)
    ensures Tenancy(s')
  {
    assert TenancyOf(s, t, At(s, t));
    forall u: Tid ensures TenancyOf(s', u, At(s', u)) {
      assert TenancyOf(s, u, At(s, u));
      if s.sh.lifecycle == Finalizing && u in s.holders {
        Sole(s.holders, t, u);
      }
    }
  }

  lemma FinishTenancy(s: System, t: Tid, ev: Event)
    requires Tenancy(s) && At(s, t) == Inside(true, Finishing)
    ensures Tenancy(StepFinalize(s, t, Finishing, ev))
  {
    var s' := StepFinalize(s, t, Finishing, ev);
    assert TenancyOf(s, t, At(s, t));
    forall u: Tid ensures TenancyOf(s', u, At(s', u)) {
      assert TenancyOf(s, u, At(s, u));
      if u in s.holders {
        Sole(s.holders, t, u);
      }
    }
    if s' != s {
      assert s'.holders == {} by {
        forall u | u in s.holders ensures u == t { Sole(s.holders, t, u); }
      }
    }
  }

  lemma ReleaseTenancy(s: System, t: Tid, failed: bool, quiet: bool)
    requires Tenancy(s) && At(s, t) == Releasing(failed, quiet)
    ensures Tenancy(StepRelease(s, t, quiet))
  {
    var s' := StepRelease(s, t, quiet);
    assert TenancyOf(s, t, At(s, t));
    assert |s.holders - {t}| == |s.holders| - 1;
    forall u: Tid ensures TenancyOf(s', u, At(s', u)) {
      assert TenancyOf(s, u, At(s, u));
    }
  }

  // The end of a cleanup, of an operation's or of an abort's.
  lemma CleanedTenancy(s: System, s': System, t: Tid)
    requires Tenancy(s) && s.sh.cleanup != NoCleanup
    requires s'.sh.cleanup == CleanupComplete && s'.sh.primary == s.sh.primary && s'.sh.active == s.sh.active
    requires s'.sh.buffered == s.sh.buffered && s'.sh.init == s.sh.init
    requires s'.sh.abortError.Some? ==> s.sh.primary.Some?
    requires s'.sh.lifecycle == s.sh.lifecycle || (s.sh.lifecycle == Aborting && s'.sh.lifecycle == Aborted)
    requires s'.threads == s.threads[t := At(s', t)] && s'.holders == s.holders
    requires !At(s', t).Inside? && !At(s', t).Failing? && !At(s', t).Releasing? && t !in s.holders
    ensures Tenancy(s')
  {
    forall u: Tid ensures TenancyOf(s', u, At(s', u)) {
      assert TenancyOf(s, u, At(s, u));
    }
  }

  lemma DrainTenancy(s: System, t: Tid)
    requires Tenancy(s) && At(s, t) == Draining && s.sh.lifecycle == Aborting
    ensures Tenancy(StepDrain(s, t))
  {
    var s' := StepDrain(s, t);
    assert TenancyOf(s, t, At(s, t));
    forall u: Tid ensures TenancyOf(s', u, At(s', u)) {
      assert TenancyOf(s, u, At(s, u));
    }
  }

  lemma {:induction false} CutFits(c: Sizing.Config, reserved: nat, data: Bytes)
    requires c.growthInterval > 0
    ensures Cut(c, reserved, data).tail.Some? ==>
      |Cut(c, reserved, data).tail.value.data| <= Cut(c, reserved, data).tail.value.capacity
    decreases |data|
  {
    var direct := Sizing.Min(|data|, Sizing.MAX_PART as int);
    if |data| > 0 {
      CutFits(c, reserved + 1, data[direct..]);
    }
  }

  lemma PrepareFits(c: Sizing.Config, sh: Shared, data: Bytes, location: nat)
    requires c.growthInterval > 0 && BufferFits(sh)
    ensures var p := PrepareWrite(c, sh, data, location);
      (p.PrepareError? || p.Prepared?) ==> BufferFits(p.state) && SameTenancy(sh, p.state) && sh.init == p.state.init
  {
    var copied :=
      if sh.buffered.Some? then Sizing.Min(|data|, sh.buffered.value.capacity - |sh.buffered.value.data|) else 0;
    CutFits(c, |sh.etags|, data);
    CutFits(c, |sh.etags| + 1, data[copied..]);
  }

  // ------------------------------------------------------------------ every step

  lemma PrepareTenancy(c: Sizing.Config, s: System, t: Tid, data: Bytes, location: nat)
    requires c.growthInterval > 0
    requires Tenancy(s) && At(s, t) == Inside(false, Preparing(data, location))
    ensures Tenancy(StepPrepare(c, s, t, data, location))
  {
    assert TenancyOf(s, t, At(s, t));
    PrepareFits(c, s.sh, data, location);
    var s' := StepPrepare(c, s, t, data, location);
    if s' != s {
      FrameTenancy(s, s', t);
    }
  }

  lemma EnsureTenancy(s: System, t: Tid, fin: bool, parts: seq<Part>)
    requires Tenancy(s) && At(s, t) == Inside(fin, Ensuring(parts))
    ensures Tenancy(StepEnsure(s, t, fin, parts))
  {
    var s' := StepEnsure(s, t, fin, parts);
    assert TenancyOf(s, t, At(s, t));
    if s' != s {
      FrameTenancy(s, s', t);
    }
  }

  lemma PublishTenancy(s: System, t: Tid, fin: bool, parts: seq<Part>, answer: InitAnswer)
    requires Tenancy(s) && At(s, t) == Inside(fin, Publishing(parts, answer))
    ensures Tenancy(StepPublish(s, t, fin, parts, answer))
  {
    var s' := StepPublish(s, t, fin, parts, answer);
    assert TenancyOf(s, t, At(s, t));
    if answer.InitError? {
      LatchTenancy(s, s', t, RequestFailed(answer.fault), answer.disposition);
    } else {
      FrameTenancy(s, s', t);
    }
  }

  lemma StoreTenancy(s: System, t: Tid, fin: bool, parts: seq<Part>, etag: string)
    requires Tenancy(s) && At(s, t) == Inside(fin, Storing(parts, etag))
    ensures Tenancy(StepStore(s, t, fin, parts, etag))
  {
    var s' := StepStore(s, t, fin, parts, etag);
    assert TenancyOf(s, t, At(s, t));
    if s' != s {
      FrameTenancy(s, s', t);
    }
  }

  // The places of an upload whose next step leaves `sh` alone.
  predicate LocalWork(w: Work) {
    w.Looping? || w.Initializing? || w.Checking? || w.Putting? || w.Claimed?
  }

  lemma LocalTenancy(s: System, t: Tid, fin: bool, work: Work, ev: Event)
    requires Tenancy(s) && At(s, t) == Inside(fin, work) && LocalWork(work)
    ensures Tenancy(StepUpload(s, t, fin, work, ev))
  {
    var s' := StepUpload(s, t, fin, work, ev);
    assert TenancyOf(s, t, At(s, t));
    if s' != s {
      FrameTenancy(s, s', t);
    }
  }

  lemma UploadTenancy(s: System, t: Tid, fin: bool, work: Work, ev: Event)
    requires Tenancy(s) && At(s, t) == Inside(fin, work)
    ensures Tenancy(StepUpload(s, t, fin, work, ev))
  {
    if LocalWork(work) {
      LocalTenancy(s, t, fin, work, ev);
    } else if ev.Run? {
      match work
      case Ensuring(parts) => EnsureTenancy(s, t, fin, parts);
      case Publishing(parts, answer) => PublishTenancy(s, t, fin, parts, answer);
      case Storing(parts, etag) => StoreTenancy(s, t, fin, parts, etag);
      case _ =>
    }
  }

  lemma FinalizeTenancy(s: System, t: Tid, work: Work, ev: Event)
    requires Tenancy(s) && At(s, t) == Inside(true, work)
    ensures Tenancy(StepFinalize(s, t, work, ev))
  {
    var s' := StepFinalize(s, t, work, ev);
    assert TenancyOf(s, t, At(s, t));
    if s' == s {
    } else if work.Finishing? {
      FinishTenancy(s, t, ev);
    } else {
      FrameTenancy(s, s', t);
    }
  }

  lemma ReserveTenancy(c: Sizing.Config, s: System, t: Tid, buffer: Buffer)
    requires Tenancy(s) && At(s, t) == Inside(true, Reserving(buffer))
    ensures Tenancy(StepReserve(c, s, t, buffer))
  {
    assert TenancyOf(s, t, At(s, t));
    FrameTenancy(s, StepReserve(c, s, t, buffer), t);
  }

  lemma EnteringTenancy(s: System, t: Tid, ev: Event)
    requires Tenancy(s)
    requires At(s, t).Idle? || At(s, t).EnteringWrite? || At(s, t).EnteringFinalize? || At(s, t).EnteringAbort?
    ensures Tenancy(StepEntering(s, t, ev))
  {
    assert TenancyOf(s, t, At(s, t));
    var s' := StepEntering(s, t, ev);
    match At(s, t)
    case EnteringWrite(data, location) => BeginWriteTenancy(s, t, data, location);
    case EnteringFinalize => BeginFinalizeTenancy(s, t);
    case EnteringAbort => BeginAbortTenancy(s, t);
    case _ => if s' != s { FrameTenancy(s, s', t); }
  }

  lemma InsideTenancy(c: Sizing.Config, s: System, t: Tid, fin: bool, work: Work, ev: Event)
    requires c.growthInterval > 0
    requires Tenancy(s) && At(s, t) == Inside(fin, work)
    ensures Tenancy(StepInside(c, s, t, fin, work, ev))
  {
    assert TenancyOf(s, t, At(s, t));
    match work
    case Preparing(data, location) => if ev.Run? { PrepareTenancy(c, s, t, data, location); }
    case Reserving(buffer) => if ev.Run? { ReserveTenancy(c, s, t, buffer); }
    case Deciding(_) => FinalizeTenancy(s, t, work, ev);
    case PuttingSingle(_, _) => FinalizeTenancy(s, t, work, ev);
    case Snapshotting => FinalizeTenancy(s, t, work, ev);
    case Completing(_, _) => FinalizeTenancy(s, t, work, ev);
    case Finishing => FinalizeTenancy(s, t, work, ev);
    case _ => UploadTenancy(s, t, fin, work, ev);
  }

  lemma AwaitTenancy(s: System, t: Tid, quiet: bool, aborting: bool)
    requires Tenancy(s)
    requires At(s, t) == if aborting then AbortAwaiting else AwaitingCleanup(quiet)
    requires aborting ==> s.sh.lifecycle == Aborting && s.sh.cleanup != NoCleanup
    ensures Tenancy(StepAwait(s, t, quiet, aborting))
  {
    var s' := StepAwait(s, t, quiet, aborting);
    assert TenancyOf(s, t, At(s, t));
    if s' == s {
    } else if aborting {
      CleanedTenancy(s, s', t);
    } else {
      FrameTenancy(s, s', t);
    }
  }

  lemma CleanTenancy(s: System, t: Tid, id: nat, quiet: bool, request: Request, ev: Event)
    requires Tenancy(s) && At(s, t) == Cleaning(id, quiet, request)
    requires s.sh.cleanup == CleanupInProgress && s.sh.primary.Some?
    ensures Tenancy(StepClean(s, t, id, quiet, request, ev))
  {
    var s' := StepClean(s, t, id, quiet, request, ev);
    assert TenancyOf(s, t, At(s, t));
    if s' == s {
    } else if request.Answered? {
      CleanedTenancy(s, s', t);
    } else {
      FrameTenancy(s, s', t);
    }
  }

  lemma AbortCleanTenancy(s: System, t: Tid, id: nat, request: Request, ev: Event)
    requires Tenancy(s) && At(s, t) == AbortCleaning(id, request)
    requires s.sh.cleanup == CleanupInProgress && s.sh.lifecycle == Aborting
    ensures Tenancy(StepAbortClean(s, t, id, request, ev))
  {
    var s' := StepAbortClean(s, t, id, request, ev);
    assert TenancyOf(s, t, At(s, t));
    if s' == s {
    } else if request.Answered? {
      CleanedTenancy(s, s', t);
    } else {
      FrameTenancy(s, s', t);
    }
  }

  // The preconditions are what the cleanup part of the invariant knows of the
  // thread that steps.
  lemma StepTenancy(c: Sizing.Config, s: System, t: Tid, ev: Event)
    requires c.growthInterval > 0
    requires Tenancy(s)
    requires At(s, t).Cleaning? || At(s, t).AbortCleaning? ==> s.sh.cleanup == CleanupInProgress
    requires At(s, t).Cleaning? ==> s.sh.primary.Some?
    requires At(s, t).Draining? || At(s, t).AbortAwaiting? || At(s, t).AbortCleaning? ==> s.sh.lifecycle == Aborting
    requires At(s, t).AbortAwaiting? ==> s.sh.cleanup != NoCleanup
    ensures Tenancy(Step(c, s, t, ev))
  {
    assert TenancyOf(s, t, At(s, t));
    match At(s, t)
    case Inside(fin, work) => InsideTenancy(c, s, t, fin, work, ev);
    case Failing(error, disposition) =>
      if ev.Run? { LatchTenancy(s, StepLatch(s, t, error, disposition), t, error, disposition); }
    case Releasing(failed, quiet) => if ev.Run? { ReleaseTenancy(s, t, failed, quiet); }
    case AwaitingCleanup(quiet) => if ev.Run? { AwaitTenancy(s, t, quiet, false); }
    case Cleaning(id, quiet, request) => CleanTenancy(s, t, id, quiet, request, ev);
    case Draining => if ev.Run? { DrainTenancy(s, t); }
    case AbortAwaiting => if ev.Run? { AwaitTenancy(s, t, false, true); }
    case AbortCleaning(id, request) => AbortCleanTenancy(s, t, id, request, ev);
    case _ => EnteringTenancy(s, t, ev);
  }
}
