// A latched failure stops the upload: nothing more is admitted, reserved, stored or
// shown, and apart from the abort request nothing is sent but what had been decided on
// before.
module UploadStops {
  import opened Common
  import opened UploadState
  import opened UploadProtocol
  import opened UploadTenancy
  import R = UploadRuns
  import Sizing = UploadSizing

  // What a completion would be made of.
  predicate SameData(s: System, s': System) {
    && s'.data.stream == s.data.stream && s'.data.reserved == s.data.reserved
    && s'.data.published == s.data.published
    && s'.sh.etags == s.sh.etags && s'.sh.nextOffset == s.sh.nextOffset && s'.sh.primary.Some?
  }

  // About to send a request other than the abort request.
  predicate Decided(l: Thread) {
    l.Inside? &&
    match l.work
    case Initializing(_, sent) => !sent
    case Putting(_, _, sent) => !sent
    case PuttingSingle(_, sent) => !sent
    case Completing(_, sent) => !sent
    case _ => false
  }

  predicate OneMore(s: System, s': System) {
    |s'.log| == |s.log| + 1 && s'.log[..|s.log|] == s.log
  }

  // No thread comes to that anew.
  ghost predicate Stops(s: System, s': System, t: Tid) {
    && SameData(s, s') && (forall u: Tid :: u != t ==> At(s', u) == At(s, u))
    && (Decided(At(s', t)) ==> At(s', t) == At(s, t) && s'.log == s.log)
    && (s'.log == s.log
        || (OneMore(s, s')
            && (s'.log[|s.log|].DeleteCall? || (Decided(At(s, t)) && !Decided(At(s', t))))))
  }

  lemma UploadStep(s: System, t: Tid, work: Work, ev: Event)
    requires At(s, t) == Inside(false, work) && !FinalWork(work) && !work.Preparing? && s.sh.primary.Some?
    ensures Stops(s, StepUpload(s, t, false, work, ev), t)
  {
  }

  lemma InsideStep(c: Sizing.Config, s: System, t: Tid, ev: Event)
    requires c.growthInterval > 0 && R.Safe(c, s) && At(s, t).Inside? && s.sh.primary.Some?
    ensures Stops(s, Step(c, s, t, ev), t)
  {
    assert TenancyOf(s, t, At(s, t));
    if !At(s, t).work.Preparing? { UploadStep(s, t, At(s, t).work, ev); }
  }

  lemma LatchStep(s: System, t: Tid, error: Error, disposition: Disposition)
    requires s.sh.primary.Some?
    ensures Stops(s, StepLatch(s, t, error, disposition), t)
  {
  }

  lemma ReleaseStep(s: System, t: Tid, quiet: bool)
    requires s.sh.primary.Some? && !Decided(At(s, t))
    ensures Stops(s, StepRelease(s, t, quiet), t)
  {
  }

  lemma CleanStep(s: System, t: Tid, id: nat, quiet: bool, request: Request, ev: Event)
    requires s.sh.primary.Some? && !Decided(At(s, t))
    ensures Stops(s, StepClean(s, t, id, quiet, request, ev), t)
  {
  }

  lemma AwaitStep(s: System, t: Tid, quiet: bool, aborting: bool)
    requires s.sh.primary.Some? && !Decided(At(s, t))
    ensures Stops(s, StepAwait(s, t, quiet, aborting), t)
  {
  }

  lemma NoStep(s: System, t: Tid)
    requires s.sh.primary.Some?
    ensures Stops(s, s, t)
  {
  }

  lemma LeavingStep(c: Sizing.Config, s: System, t: Tid, ev: Event)
    requires c.growthInterval > 0 && R.Safe(c, s) && s.sh.primary.Some?
    requires At(s, t).Failing? || At(s, t).Releasing? || At(s, t).AwaitingCleanup? || At(s, t).Cleaning?
    ensures Stops(s, Step(c, s, t, ev), t)
  {
    NoStep(s, t);
    match At(s, t)
    case Failing(error, disposition) => LatchStep(s, t, error, disposition);
    case Releasing(_, quiet) => ReleaseStep(s, t, quiet);
    case AwaitingCleanup(quiet) => AwaitStep(s, t, quiet, false);
    case Cleaning(id, quiet, request) => CleanStep(s, t, id, quiet, request, ev);
  }

  lemma AbortStep(c: Sizing.Config, s: System, t: Tid, ev: Event)
    requires c.growthInterval > 0 && R.Safe(c, s) && s.sh.primary.Some?
    requires At(s, t).Draining? || At(s, t).AbortAwaiting? || At(s, t).AbortCleaning?
    ensures Stops(s, Step(c, s, t, ev), t)
  {
  }

  lemma EnteringStep(s: System, t: Tid, ev: Event)
    requires s.sh.primary.Some? && !At(s, t).Inside?
    ensures Stops(s, StepEntering(s, t, ev), t)
  {
  }

  lemma StepStops(c: Sizing.Config, s: System, t: Tid, ev: Event)
    requires c.growthInterval > 0 && R.Safe(c, s) && s.sh.primary.Some?
    ensures Stops(s, Step(c, s, t, ev), t)
  {
    match At(s, t)
    case Inside(_, _) => InsideStep(c, s, t, ev);
    case Failing(_, _) => LeavingStep(c, s, t, ev);
    case Releasing(_, _) => LeavingStep(c, s, t, ev);
    case AwaitingCleanup(_) => LeavingStep(c, s, t, ev);
    case Cleaning(_, _, _) => LeavingStep(c, s, t, ev);
    case Draining => AbortStep(c, s, t, ev);
    case AbortAwaiting => AbortStep(c, s, t, ev);
    case AbortCleaning(_, _) => AbortStep(c, s, t, ev);
    case _ => EnteringStep(s, t, ev);
  }

  // Requests other than abort requests.
  function Requests(log: seq<Call>): nat {
    if |log| == 0 then 0 else Requests(log[..|log| - 1]) + if log[|log| - 1].DeleteCall? then 0 else 1
  }

  function Pending(s: System): set<Tid> {
    set t | t in s.threads && Decided(s.threads[t])
  }

  lemma PendingShrinks(s: System, s': System, t: Tid)
    requires Stops(s, s', t)
    ensures Pending(s') <= Pending(s)
    ensures Decided(At(s, t)) && !Decided(At(s', t)) ==> Pending(s') <= Pending(s) - {t} && t in Pending(s)
  {
    forall u | u in Pending(s') ensures u in Pending(s) { assert At(s', u) == At(s, u); }
  }

  lemma SizeOf(a: set<Tid>, b: set<Tid>)
    requires a <= b
    ensures |a| <= |b|
  {
    assert a + (b - a) == b;
  }

  // A request that is sent was pending.
  lemma StepCounts(s: System, s': System, t: Tid)
    requires Stops(s, s', t)
    ensures Requests(s'.log) + |Pending(s')| <= Requests(s.log) + |Pending(s)|
  {
    PendingShrinks(s, s', t);
    SizeOf(Pending(s'), Pending(s));
    if s'.log != s.log && !s'.log[|s.log|].DeleteCall? {
      SizeOf(Pending(s'), Pending(s) - {t});
    }
  }

  ghost predicate Stopped(s: System, s': System) {
    SameData(s, s') && Requests(s'.log) + |Pending(s')| <= Requests(s.log) + |Pending(s)|
  }

  lemma StoppedNext(c: Sizing.Config, first: System, s: System, t: Tid, ev: Event, s': System)
    requires c.growthInterval > 0 && R.Safe(c, s) && Stopped(first, s) && s' == Step(c, s, t, ev)
    ensures Stopped(first, s')
  {
    StepStops(c, s, t, ev);
    StepCounts(s, s', t);
  }

  lemma RunLast(c: Sizing.Config, all: R.Schedule, before: R.Schedule, step: (Tid, Event))
    requires c.growthInterval > 0 && all == before + [step]
    ensures R.Run(c, all) == Step(c, R.Run(c, before), step.0, step.1)
  {
    assert all[..|all| - 1] == before;
  }

  lemma Joined<T>(a: seq<T>, b: seq<T>)
    requires |b| > 0
    ensures a + b == (a + b[..|b| - 1]) + [b[|b| - 1]]
  {
  }

  lemma {:induction false} StoppedRun(c: Sizing.Config, sched: R.Schedule, more: R.Schedule, first: System)
    requires c.growthInterval > 0 && first == R.Run(c, sched) && first.sh.primary.Some?
    ensures Stopped(first, R.Run(c, sched + more))
    decreases |more|
  {
    if |more| == 0 {
      assert sched + more == sched;
    } else {
      var before, step := sched + more[..|more| - 1], more[|more| - 1];
      StoppedRun(c, sched, more[..|more| - 1], first);
      R.RunSafe(c, before);
      Joined(sched, more);
      RunLast(c, sched + more, before, step);
      StoppedNext(c, first, R.Run(c, before), step.0, step.1, R.Run(c, sched + more));
    }
  }

  // From a latched failure on, whatever happens: the admitted bytes, the reserved
  // parts, their ETags and the object shown stay as they are, and no more requests but
  // abort requests are sent than threads had decided on by then.
  lemma FailureStopsUpload(c: Sizing.Config, sched: R.Schedule, more: R.Schedule)
    requires c.growthInterval > 0 && R.Run(c, sched).sh.primary.Some?
    ensures var s, s' := R.Run(c, sched), R.Run(c, sched + more);
      SameData(s, s') && Requests(s'.log) <= Requests(s.log) + |Pending(s)|
  {
    StoppedRun(c, sched, more, R.Run(c, sched));
  }
}
