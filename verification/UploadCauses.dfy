// Why calls on an upload session fail, and what their callers are told: nothing fails
// without a cause outside the session.
module UploadCauses {
  import opened Common
  import opened UploadState
  import opened UploadProtocol
  import opened UploadTenancy
  import opened UploadCleanup
  import opened UploadInit
  import opened UploadFailure
  import opened UploadData
  import opened UploadLimits
  import opened UploadWrites
  import Progress = UploadProgress
  import R = UploadRuns
  import Sizing = UploadSizing

  // ------------------------------------------------------------------- admission

  // What the caller of Write or Finalize is told at the door.
  lemma AdmissionDecided(c: Sizing.Config, s: System, t: Tid)
    requires c.growthInterval > 0 && R.Safe(c, s)
    requires At(s, t).EnteringWrite? || At(s, t).EnteringFinalize?
    ensures var s' := Step(c, s, t, Run);
      var fin := At(s, t).EnteringFinalize?;
      if AwaitsCleanup(s.sh) then s' == s
      else if s.sh.primary.Some? then Ends(s, s', t, ThrewFailure(Capture(s.sh)))
      else if s.sh.lifecycle == Active && (fin ==> s.holders == {}) then
        At(s', t).Inside? && t in s'.holders && (fin <==> s'.sh.lifecycle == Finalizing)
      else Ends(s, s', t, if fin && s.sh.lifecycle == Finalized then Returned else ThrewRefused)
  {
    assert TenancyOf(s, t, At(s, t));
  }

  // The call ends, and nothing else changes.
  predicate Ends(s: System, s': System, t: Tid, told: Outcome) {
    At(s', t).Idle? && s'.outcomes == s.outcomes + [told] && s'.sh == s.sh && s'.data == s.data
  }

  // ---------------------------------------------------------------------- causes

  // Why step `ev` of `t` makes an operation fail with this error: the caller's write,
  // the answer of the server, or a failure that is latched already.
  ghost predicate Caused(c: Sizing.Config, s: System, t: Tid, ev: Event, error: Error, disposition: Disposition) {
    match error
    case Rethrown => s.sh.primary.Some? && disposition == Definitive
    case NotSequential =>
      && disposition == Definitive && At(s, t).Inside? && At(s, t).work.Preparing?
      && At(s, t).work.location < s.sh.nextOffset
    case FileTooLarge =>
      && disposition == Definitive && At(s, t).Inside? && At(s, t).work.Preparing?
      && At(s, t).work.location == s.sh.nextOffset && !FitsFile(c, s, At(s, t).work.data)
    case PartLimit => disposition == Definitive && !Sizing.ValidConfig(c)
    case PartMissing => disposition == Definitive && At(s, t).Inside? && s.data.blanks != {}
    case RequestFailed(fault) =>
      || (ev.AnswerError? && ev.fault == fault && At(s, t).Inside?
          && disposition == if At(s, t).work.Completing? then ev.disposition else Definitive)
      || (At(s, t).Inside? && At(s, t).work.Publishing? && At(s, t).work.answer == InitError(fault, disposition))
  }

  lemma UploadCaused(c: Sizing.Config, s: System, t: Tid, fin: bool, work: Work, ev: Event)
    requires c.growthInterval > 0 && At(s, t) == Inside(fin, work) && TenancyGlobal(s.sh, s.holders)
    requires At(StepUpload(s, t, fin, work, ev), t).Failing?
    ensures var l := At(StepUpload(s, t, fin, work, ev), t); Caused(c, s, t, ev, l.error, l.disposition)
  {
  }

  lemma FinalizeCaused(c: Sizing.Config, s: System, t: Tid, work: Work, ev: Event)
    requires c.growthInterval > 0 && R.Safe(c, s) && At(s, t) == Inside(true, work)
    requires At(StepFinalize(s, t, work, ev), t).Failing?
    ensures var l := At(StepFinalize(s, t, work, ev), t); Caused(c, s, t, ev, l.error, l.disposition)
  {
    if work.Snapshotting? { SnapshotExact(s, t); }
  }

  lemma PrepareCaused(c: Sizing.Config, s: System, t: Tid, data: Bytes, location: nat)
    requires c.growthInterval > 0 && R.Safe(c, s) && Offers(s, t, data, location)
    requires At(StepPrepare(c, s, t, data, location), t).Failing?
    ensures var l := At(StepPrepare(c, s, t, data, location), t); Caused(c, s, t, Run, l.error, l.disposition)
  {
    WriteDecided(c, s, t, data, location);
    assert StepPrepare(c, s, t, data, location) == Step(c, s, t, Run);
    if Sizing.ValidConfig(c) { FittingAccepted(c, s, t, data, location); }
  }

  lemma ReserveCaused(c: Sizing.Config, s: System, t: Tid, buffer: Buffer)
    requires c.growthInterval > 0 && R.Safe(c, s) && At(s, t) == Inside(true, Reserving(buffer))
    requires At(StepReserve(c, s, t, buffer), t).Failing?
    ensures var l := At(StepReserve(c, s, t, buffer), t); Caused(c, s, t, Run, l.error, l.disposition)
  {
    if Sizing.ValidConfig(c) { ReservedAccepted(c, s, t, buffer); }
  }

  lemma InsideCaused(c: Sizing.Config, s: System, t: Tid, fin: bool, work: Work, ev: Event)
    requires c.growthInterval > 0 && R.Safe(c, s) && At(s, t) == Inside(fin, work)
    requires At(StepInside(c, s, t, fin, work, ev), t).Failing?
    ensures var l := At(StepInside(c, s, t, fin, work, ev), t); Caused(c, s, t, ev, l.error, l.disposition)
  {
    assert TenancyOf(s, t, At(s, t));
    match work
    case Preparing(data, location) => PrepareCaused(c, s, t, data, location);
    case Reserving(buffer) => ReserveCaused(c, s, t, buffer);
    case Deciding(_) => FinalizeCaused(c, s, t, work, ev);
    case PuttingSingle(_, _) => FinalizeCaused(c, s, t, work, ev);
    case Snapshotting => FinalizeCaused(c, s, t, work, ev);
    case Completing(_, _) => FinalizeCaused(c, s, t, work, ev);
    case Finishing => FinalizeCaused(c, s, t, work, ev);
    case _ => UploadCaused(c, s, t, fin, work, ev);
  }

  // An operation fails only for a cause, with its error and disposition.
  lemma FailsForCause(c: Sizing.Config, s: System, t: Tid, ev: Event)
    requires c.growthInterval > 0 && R.Safe(c, s) && !At(s, t).Failing? && At(Step(c, s, t, ev), t).Failing?
    ensures var l := At(Step(c, s, t, ev), t); Caused(c, s, t, ev, l.error, l.disposition)
  {
    assert TenancyOf(s, t, At(s, t));
    match At(s, t)
    case Inside(fin, work) => InsideCaused(c, s, t, fin, work, ev);
    case _ =>
  }

  // Somewhere in the run.
  ghost predicate CausedIn(c: Sizing.Config, sched: R.Schedule, error: Error, disposition: Disposition)
    requires c.growthInterval > 0
  {
    exists i :: 0 <= i < |sched| && CausedAt(c, sched, i, error, disposition)
  }

  ghost predicate CausedAt(c: Sizing.Config, sched: R.Schedule, i: nat, error: Error, disposition: Disposition)
    requires c.growthInterval > 0 && i < |sched|
  {
    Caused(c, R.Run(c, sched[..i]), sched[i].0, sched[i].1, error, disposition)
  }

  lemma CausedLater(c: Sizing.Config, init: R.Schedule, step: (Tid, Event), error: Error, disposition: Disposition)
    requires c.growthInterval > 0 && CausedIn(c, init, error, disposition)
    ensures CausedIn(c, init + [step], error, disposition)
  {
    var i :| 0 <= i < |init| && CausedAt(c, init, i, error, disposition);
    assert (init + [step])[..i] == init[..i];
    assert CausedAt(c, init + [step], i, error, disposition);
  }

  lemma CausedNow(c: Sizing.Config, init: R.Schedule, step: (Tid, Event), error: Error, disposition: Disposition)
    requires c.growthInterval > 0 && Caused(c, R.Run(c, init), step.0, step.1, error, disposition)
    ensures CausedIn(c, init + [step], error, disposition)
  {
    assert (init + [step])[..|init|] == init;
    assert CausedAt(c, init + [step], |init|, error, disposition);
  }

  ghost predicate Known(c: Sizing.Config, sched: R.Schedule, error: Error, disposition: Disposition)
    requires c.growthInterval > 0
  {
    error == Rethrown || CausedIn(c, sched, error, disposition)
  }

  ghost predicate KnownIn(c: Sizing.Config, sched: R.Schedule, s: System)
    requires c.growthInterval > 0
  {
    && (forall t: Tid :: At(s, t).Failing? ==> Known(c, sched, At(s, t).error, At(s, t).disposition))
    && (forall i :: 0 <= i < |s.latches| ==> Known(c, sched, s.latches[i].0, s.latches[i].1))
    && (|s.latches| > 0 ==> s.latches[0].0 != Rethrown)
  }

  ghost predicate CausesKnown(c: Sizing.Config, sched: R.Schedule)
    requires c.growthInterval > 0
  {
    KnownIn(c, sched, R.Run(c, sched))
  }

  // What a step latches: the error of the thread that takes it. No other thread moves.
  predicate Latches(s: System, s': System, t: Tid) {
    && LatchesOwn(s, s', t)
    && (s'.threads == s.threads || (t in s'.threads && s'.threads == s.threads[t := s'.threads[t]]))
  }

  predicate LatchesOwn(s: System, s': System, t: Tid) {
    || s'.latches == s.latches
    || (At(s, t).Failing? && s'.latches == s.latches + [(At(s, t).error, At(s, t).disposition)])
    || (At(s, t).Inside? && At(s, t).work.Publishing? && At(s, t).work.answer.InitError?
        && s'.latches == s.latches + [(RequestFailed(At(s, t).work.answer.fault), At(s, t).work.answer.disposition)])
  }

  lemma UploadLatches(s: System, t: Tid, fin: bool, work: Work, ev: Event)
    requires At(s, t) == Inside(fin, work)
    ensures Latches(s, StepUpload(s, t, fin, work, ev), t)
  {
  }

  lemma FinalizeLatches(s: System, t: Tid, work: Work, ev: Event)
    ensures Latches(s, StepFinalize(s, t, work, ev), t)
  {
  }

  lemma InsideLatches(c: Sizing.Config, s: System, t: Tid, fin: bool, work: Work, ev: Event)
    requires c.growthInterval > 0 && BufferFits(s.sh) && At(s, t) == Inside(fin, work)
    ensures Latches(s, StepInside(c, s, t, fin, work, ev), t)
  {
    match work
    case Preparing(_, _) =>
    case Reserving(_) =>
    case Deciding(_) => FinalizeLatches(s, t, work, ev);
    case PuttingSingle(_, _) => FinalizeLatches(s, t, work, ev);
    case Snapshotting => FinalizeLatches(s, t, work, ev);
    case Completing(_, _) => FinalizeLatches(s, t, work, ev);
    case Finishing => FinalizeLatches(s, t, work, ev);
    case _ => UploadLatches(s, t, fin, work, ev);
  }

  lemma EnteringLatches(s: System, t: Tid, ev: Event)
    ensures Latches(s, StepEntering(s, t, ev), t)
  {
  }

  lemma LeavingLatches(c: Sizing.Config, s: System, t: Tid, ev: Event)
    requires c.growthInterval > 0 && BufferFits(s.sh)
    requires At(s, t).Failing? || At(s, t).Releasing? || At(s, t).AwaitingCleanup? || At(s, t).Cleaning?
    ensures Latches(s, Step(c, s, t, ev), t)
  {
  }

  lemma AbortLatches(c: Sizing.Config, s: System, t: Tid, ev: Event)
    requires c.growthInterval > 0 && BufferFits(s.sh) && InAbort(At(s, t))
    ensures Latches(s, Step(c, s, t, ev), t)
  {
  }

  lemma OutsideLatches(c: Sizing.Config, s: System, t: Tid, ev: Event)
    requires c.growthInterval > 0 && BufferFits(s.sh) && !At(s, t).Inside?
    ensures Latches(s, Step(c, s, t, ev), t)
  {
    if InAbort(At(s, t)) {
      AbortLatches(c, s, t, ev);
    } else if At(s, t).Failing? || At(s, t).Releasing? || At(s, t).AwaitingCleanup? || At(s, t).Cleaning? {
      LeavingLatches(c, s, t, ev);
    } else {
      EnteringLatches(s, t, ev);
    }
  }

  lemma StepLatches(c: Sizing.Config, s: System, t: Tid, ev: Event)
    requires c.growthInterval > 0 && R.Safe(c, s)
    ensures Latches(s, Step(c, s, t, ev), t)
  {
    match At(s, t)
    case Inside(fin, work) => InsideLatches(c, s, t, fin, work, ev);
    case _ => OutsideLatches(c, s, t, ev);
  }

  lemma FailingStays(c: Sizing.Config, s: System, t: Tid, ev: Event)
    requires c.growthInterval > 0 && R.Safe(c, s) && At(s, t).Failing? && At(Step(c, s, t, ev), t).Failing?
    ensures Step(c, s, t, ev) == s
  {
  }

  lemma KnownLater(c: Sizing.Config, init: R.Schedule, step: (Tid, Event), error: Error, disposition: Disposition)
    requires c.growthInterval > 0 && Known(c, init, error, disposition)
    ensures Known(c, init + [step], error, disposition)
  {
    if error != Rethrown { CausedLater(c, init, step, error, disposition); }
  }

  // What a thread fails with, and what was latched, is known after one more step.
  lemma FailingKnown(c: Sizing.Config, init: R.Schedule, step: (Tid, Event), s: System, u: Tid)
    requires c.growthInterval > 0 && CausesKnown(c, init) && s == R.Run(c, init) && R.Safe(c, s)
    requires At(Step(c, s, step.0, step.1), u).Failing?
    ensures var l := At(Step(c, s, step.0, step.1), u); Known(c, init + [step], l.error, l.disposition)
  {
    var (t, ev) := step;
    var l := At(Step(c, s, t, ev), u);
    if u != t { OthersKeep(c, s, t, ev, u); }
    if At(s, u).Failing? {
      if u == t { FailingStays(c, s, t, ev); }
      KnownLater(c, init, step, l.error, l.disposition);
    } else {
      FailsForCause(c, s, t, ev);
      CausedNow(c, init, step, l.error, l.disposition);
    }
  }

  lemma OthersKeep(c: Sizing.Config, s: System, t: Tid, ev: Event, u: Tid)
    requires c.growthInterval > 0 && R.Safe(c, s) && u != t
    ensures At(Step(c, s, t, ev), u) == At(s, u)
  {
    StepLatches(c, s, t, ev);
  }

  lemma LatchKnown(c: Sizing.Config, init: R.Schedule, step: (Tid, Event), s: System, i: nat)
    requires c.growthInterval > 0 && CausesKnown(c, init) && s == R.Run(c, init) && R.Safe(c, s)
    requires i < |Step(c, s, step.0, step.1).latches|
    ensures var latch := Step(c, s, step.0, step.1).latches[i]; Known(c, init + [step], latch.0, latch.1)
  {
    var (t, ev) := step;
    var latch := Step(c, s, t, ev).latches[i];
    StepLatches(c, s, t, ev);
    if i < |s.latches| || At(s, t).Failing? {
      KnownLater(c, init, step, latch.0, latch.1);
    } else {
      CausedNow(c, init, step, latch.0, latch.1);
    }
  }

  // The first failure to be latched is nobody else's.
  lemma FirstLatch(c: Sizing.Config, s: System, t: Tid, ev: Event)
    requires c.growthInterval > 0 && R.Safe(c, s) && |Step(c, s, t, ev).latches| > 0
    requires |s.latches| > 0 ==> s.latches[0].0 != Rethrown
    ensures Step(c, s, t, ev).latches[0].0 != Rethrown
  {
    assert TenancyOf(s, t, At(s, t));
    StepLatches(c, s, t, ev);
  }

  lemma StepKnownIn(c: Sizing.Config, init: R.Schedule, step: (Tid, Event), s: System, s': System)
    requires c.growthInterval > 0 && CausesKnown(c, init) && s == R.Run(c, init) && R.Safe(c, s)
    requires s' == Step(c, s, step.0, step.1)
    ensures KnownIn(c, init + [step], s')
  {
    var all := init + [step];
    forall u: Tid | At(s', u).Failing? ensures Known(c, all, At(s', u).error, At(s', u).disposition) {
      FailingKnown(c, init, step, s, u);
    }
    forall i | 0 <= i < |s'.latches| ensures Known(c, all, s'.latches[i].0, s'.latches[i].1) {
      LatchKnown(c, init, step, s, i);
    }
    if |s'.latches| > 0 { FirstLatch(c, s, step.0, step.1); }
  }

  lemma StepKnown(c: Sizing.Config, init: R.Schedule, step: (Tid, Event))
    requires c.growthInterval > 0 && CausesKnown(c, init)
    ensures CausesKnown(c, init + [step])
  {
    var s := R.Run(c, init);
    R.RunSafe(c, init);
    RunOne(c, init, step);
    StepKnownIn(c, init, step, s, Step(c, s, step.0, step.1));
  }

  lemma {:induction false} RunKnown(c: Sizing.Config, sched: R.Schedule)
    requires c.growthInterval > 0
    ensures CausesKnown(c, sched)
  {
    if |sched| > 0 {
      var init, step := sched[..|sched| - 1], sched[|sched| - 1];
      RunKnown(c, init);
      StepKnown(c, init, step);
      assert init + [step] == sched;
    }
  }

  // In every run a latched failure has a cause: a write out of order or too large, a
  // request that failed, or an empty ETag; with a valid configuration never the part
  // limit. It has the disposition of that cause.
  lemma FailureHasCause(c: Sizing.Config, sched: R.Schedule)
    requires c.growthInterval > 0 && R.Run(c, sched).sh.primary.Some?
    ensures var sh := R.Run(c, sched).sh;
      sh.primary.value != Rethrown && CausedIn(c, sched, sh.primary.value, sh.disposition)
  {
    R.RunSafe(c, sched);
    RunKnown(c, sched);
  }

  // ----------------------------------------------------------- how calls end

  predicate Told(s: System, s': System, told: Outcome) {
    s'.outcomes == s.outcomes + [told]
  }

  // Finalize returns only when the object is shown.
  lemma FinalizeEnds(c: Sizing.Config, s: System, t: Tid, ev: Event)
    requires c.growthInterval > 0 && R.Safe(c, s) && At(s, t).Inside? && At(Step(c, s, t, ev), t).Idle?
    ensures var s' := Step(c, s, t, ev);
      && At(s, t).fin && Told(s, s', Returned)
      && s'.sh.lifecycle == Finalized && s'.data.published == Some(s.data.stream)
  {
    assert TenancyOf(s, t, At(s, t)) && DataOf(s, t, At(s, t));
    OnlyFinishing(c, s, t, At(s, t).fin, At(s, t).work, ev);
  }

  lemma OnlyFinishing(c: Sizing.Config, s: System, t: Tid, fin: bool, work: Work, ev: Event)
    requires c.growthInterval > 0 && BufferFits(s.sh) && At(s, t) == Inside(fin, work)
    requires At(StepInside(c, s, t, fin, work, ev), t).Idle?
    ensures work.Finishing?
  {
    if !FinalWork(work) && !work.Preparing? { UploadEnds(s, t, fin, work, ev); }
  }

  lemma UploadEnds(s: System, t: Tid, fin: bool, work: Work, ev: Event)
    requires At(s, t) == Inside(fin, work)
    ensures !At(StepUpload(s, t, fin, work, ev), t).Idle?
  {
  }

  // A write, or a failed operation, reports the failure if there is one, unless its
  // claim was dropped.
  lemma ReleaseEnds(c: Sizing.Config, s: System, t: Tid, ev: Event)
    requires c.growthInterval > 0 && R.Safe(c, s) && At(Step(c, s, t, ev), t).Idle?
    requires At(s, t).Releasing? || At(s, t).AwaitingCleanup? || At(s, t).Cleaning?
    ensures var s' := Step(c, s, t, ev);
      && Told(s, s', if s'.sh.primary.None? || At(s, t).quiet then Returned else ThrewFailure(Capture(s'.sh)))
      && (At(s, t).Cleaning? ==> s'.sh.abortError == At(s, t).request.abortError && s'.sh.cleanup == CleanupComplete)
  {
    assert TenancyOf(s, t, At(s, t)) && CleanupOf(s, t, At(s, t));
  }

  // Abort reports a failure latched before it, else the error of its own request.
  lemma AbortEnds(c: Sizing.Config, s: System, t: Tid, ev: Event)
    requires c.growthInterval > 0 && R.Safe(c, s)
    requires At(Step(c, s, t, ev), t).Idle? && At(Step(c, s, t, ev), t) != At(s, t)
    requires At(s, t).EnteringAbort? || InAbort(At(s, t))
    ensures var s' := Step(c, s, t, ev);
      && (s'.sh.lifecycle == Aborted || (s'.sh == s.sh && s.sh.lifecycle == Finalized))
      && Told(s, s',
              if At(s, t).EnteringAbort? then AbortReturned(s.sh.lifecycle == Aborted)
              else if At(s, t).AbortAwaiting? then ThrewFailure(Capture(s'.sh))
              else if At(s, t).AbortCleaning? && At(s, t).request.abortError.Some? then
                ThrewAbortError(At(s, t).request.abortError.value)
              else AbortReturned(true))
  {
    assert TenancyOf(s, t, At(s, t)) && CleanupOf(s, t, At(s, t));
  }
}
