// Calls of an upload session end: every step that a call in progress takes brings
// it nearer to its end, and where no step is left all calls have ended, but for
// admitted writes ahead of the offset and the aborts that wait for them.
module UploadProgress {
  import opened Common
  import opened UploadState
  import opened UploadProtocol
  import opened UploadTenancy
  import opened UploadCleanup
  import opened UploadInit
  import opened UploadData
  import opened UploadRuns
  import Sizing = UploadSizing

  predicate Starts(ev: Event) {
    ev.StartWrite? || ev.StartFinalize? || ev.StartAbort?
  }

  // A step of a call in progress, or an answer to it.
  predicate Moves(c: Sizing.Config, s: System, t: Tid, ev: Event)
    requires c.growthInterval > 0 && BufferFits(s.sh)
  {
    !Starts(ev) && Step(c, s, t, ev) != s
  }

  // ---------------------------------------------------------------- what is left

  function WorkRank(w: Work): nat {
    match w
    case Preparing(data, _) => 32 + 10 * |data|
    case Looping(parts) => 21 + 10 * |parts|
    case Ensuring(parts) => 19 + 10 * |parts|
    case Initializing(parts, sent) => (if sent then 17 else 18) + 10 * |parts|
    case Publishing(parts, _) => 16 + 10 * |parts|
    case Checking(parts, _) => 15 + 10 * |parts|
    case Putting(parts, _, sent) => (if sent then 13 else 14) + 10 * |parts|
    case Storing(parts, _) => 12 + 10 * |parts|
    case Claimed => 7
    case Deciding(_) => 31
    case Reserving(_) => 30
    case Snapshotting => 10
    case PuttingSingle(_, sent) => if sent then 8 else 9
    case Completing(_, sent) => if sent then 8 else 9
    case Finishing => 7
  }

  function RequestRank(r: Request): nat {
    match r
    case Unsent => 3
    case Sent => 2
    case Answered(_) => 1
  }

  // A bound on the steps that a call has still to take.
  function Rank(l: Thread): nat {
    match l
    case Idle => 0
    case EnteringWrite(data, _) => 33 + 10 * |data|
    case EnteringFinalize => 32
    case EnteringAbort => 5
    case Inside(_, work) => WorkRank(work)
    case Failing(_, _) => 6
    case Releasing(_, _) => 5
    case AwaitingCleanup(_) => 1
    case Cleaning(_, _, request) => RequestRank(request)
    case Draining => 4
    case AbortAwaiting => 1
    case AbortCleaning(_, request) => RequestRank(request)
  }

  // A write is cut into no more pieces than it has bytes.
  lemma {:induction false} CutCount(c: Sizing.Config, reserved: nat, data: Bytes)
    requires c.growthInterval > 0
    ensures |Cut(c, reserved, data).parts| <= |data|
    decreases |data|
  {
    if |data| > 0 && |Cut(c, reserved, data).parts| > 0 {
      CutCount(c, reserved + 1, data[Sizing.Min(|data|, Sizing.MAX_PART as int)..]);
    }
  }

  lemma PrepareCount(c: Sizing.Config, s: Shared, data: Bytes, location: nat)
    requires c.growthInterval > 0 && BufferFits(s) && PrepareWrite(c, s, data, location).Prepared?
    ensures |PrepareWrite(c, s, data, location).parts| <= |data| + 1
  {
    if s.buffered.None? {
      CutCount(c, |s.etags|, data);
    } else {
      var b := s.buffered.value;
      CutCount(c, |s.etags| + 1, data[Sizing.Min(|data|, b.capacity - |b.data|)..]);
    }
  }

  ghost predicate Nearer(s: System, s': System, t: Tid) {
    Rank(At(s', t)) < Rank(At(s, t)) && s'.threads == s.threads[t := At(s', t)]
  }

  lemma LoopNearer(s: System, t: Tid, fin: bool, parts: seq<Part>)
    ensures At(s, t) == Inside(fin, Looping(parts)) && StepLoop(s, t, fin, parts) != s ==>
      Nearer(s, StepLoop(s, t, fin, parts), t)
    ensures At(s, t) == Inside(fin, Ensuring(parts)) && StepEnsure(s, t, fin, parts) != s ==>
      Nearer(s, StepEnsure(s, t, fin, parts), t)
  {
  }

  lemma PublishNearer(s: System, t: Tid, fin: bool, parts: seq<Part>, answer: InitAnswer)
    requires At(s, t) == Inside(fin, Publishing(parts, answer))
    ensures Nearer(s, StepPublish(s, t, fin, parts, answer), t)
  {
  }

  lemma StoreNearer(s: System, t: Tid, fin: bool, parts: seq<Part>, etag: string)
    requires At(s, t) == Inside(fin, Storing(parts, etag)) && StepStore(s, t, fin, parts, etag) != s
    ensures Nearer(s, StepStore(s, t, fin, parts, etag), t)
  {
  }

  lemma RequestNearer(s: System, t: Tid, fin: bool, work: Work, ev: Event)
    requires At(s, t) == Inside(fin, work) && StepUpload(s, t, fin, work, ev) != s
    requires work.Initializing? || work.Checking? || work.Putting? || work.Claimed?
    ensures Nearer(s, StepUpload(s, t, fin, work, ev), t)
  {
  }

  lemma UploadNearer(s: System, t: Tid, fin: bool, work: Work, ev: Event)
    requires At(s, t) == Inside(fin, work) && StepUpload(s, t, fin, work, ev) != s
    ensures Nearer(s, StepUpload(s, t, fin, work, ev), t)
  {
    match work
    case Looping(parts) => LoopNearer(s, t, fin, parts);
    case Ensuring(parts) => LoopNearer(s, t, fin, parts);
    case Publishing(parts, answer) => PublishNearer(s, t, fin, parts, answer);
    case Storing(parts, etag) => StoreNearer(s, t, fin, parts, etag);
    case Initializing(_, _) => RequestNearer(s, t, fin, work, ev);
    case Checking(_, _) => RequestNearer(s, t, fin, work, ev);
    case Putting(_, _, _) => RequestNearer(s, t, fin, work, ev);
    case Claimed => RequestNearer(s, t, fin, work, ev);
    case _ =>
  }

  lemma FinalizeNearer(s: System, t: Tid, work: Work, ev: Event)
    requires At(s, t) == Inside(true, work) && StepFinalize(s, t, work, ev) != s
    ensures Nearer(s, StepFinalize(s, t, work, ev), t)
  {
  }

  lemma PrepareNearer(c: Sizing.Config, s: System, t: Tid, data: Bytes, location: nat)
    requires c.growthInterval > 0 && BufferFits(s.sh) && At(s, t) == Inside(false, Preparing(data, location))
    requires StepPrepare(c, s, t, data, location) != s
    ensures Nearer(s, StepPrepare(c, s, t, data, location), t)
  {
    if PrepareWrite(c, s.sh, data, location).Prepared? { PrepareCount(c, s.sh, data, location); }
  }

  lemma ReserveNearer(c: Sizing.Config, s: System, t: Tid, buffer: Buffer)
    requires At(s, t) == Inside(true, Reserving(buffer))
    ensures Nearer(s, StepReserve(c, s, t, buffer), t)
  {
  }

  lemma InsideNearer(c: Sizing.Config, s: System, t: Tid, fin: bool, work: Work, ev: Event)
    requires c.growthInterval > 0 && Safe(c, s) && At(s, t) == Inside(fin, work)
    requires StepInside(c, s, t, fin, work, ev) != s
    ensures Nearer(s, StepInside(c, s, t, fin, work, ev), t)
  {
    assert TenancyOf(s, t, At(s, t));
    match work
    case Preparing(data, location) => PrepareNearer(c, s, t, data, location);
    case Reserving(buffer) => ReserveNearer(c, s, t, buffer);
    case Deciding(_) => FinalizeNearer(s, t, work, ev);
    case PuttingSingle(_, _) => FinalizeNearer(s, t, work, ev);
    case Snapshotting => FinalizeNearer(s, t, work, ev);
    case Completing(_, _) => FinalizeNearer(s, t, work, ev);
    case Finishing => FinalizeNearer(s, t, work, ev);
    case _ => UploadNearer(s, t, fin, work, ev);
  }

  lemma OutsideNearer(s: System, t: Tid, ev: Event)
    requires !Starts(ev)
    ensures At(s, t).Failing? ==> Nearer(s, StepLatch(s, t, At(s, t).error, At(s, t).disposition), t)
    ensures At(s, t).Releasing? && StepRelease(s, t, At(s, t).quiet) != s ==>
      Nearer(s, StepRelease(s, t, At(s, t).quiet), t)
    ensures At(s, t).Draining? && StepDrain(s, t) != s ==> Nearer(s, StepDrain(s, t), t)
    ensures At(s, t).Idle? ==> StepEntering(s, t, ev) == s
    ensures StepEntering(s, t, ev) != s ==> Nearer(s, StepEntering(s, t, ev), t)
  {
  }

  lemma CleanupNearer(s: System, t: Tid, ev: Event)
    ensures At(s, t).AwaitingCleanup? && StepAwait(s, t, At(s, t).quiet, false) != s ==>
      Nearer(s, StepAwait(s, t, At(s, t).quiet, false), t)
    ensures At(s, t).AbortAwaiting? && StepAwait(s, t, false, true) != s ==> Nearer(s, StepAwait(s, t, false, true), t)
    ensures At(s, t).Cleaning? ==>
      var s' := StepClean(s, t, At(s, t).id, At(s, t).quiet, At(s, t).request, ev); s' != s ==> Nearer(s, s', t)
    ensures At(s, t).AbortCleaning? ==>
      var s' := StepAbortClean(s, t, At(s, t).id, At(s, t).request, ev); s' != s ==> Nearer(s, s', t)
  {
  }

  // Every step of a call brings it nearer to its end and moves no other call.
  lemma MovesNearer(c: Sizing.Config, s: System, t: Tid, ev: Event)
    requires c.growthInterval > 0 && Safe(c, s) && Moves(c, s, t, ev)
    ensures Nearer(s, Step(c, s, t, ev), t)
  {
    match At(s, t)
    case Inside(fin, work) => InsideNearer(c, s, t, fin, work, ev);
    case Failing(_, _) => OutsideNearer(s, t, ev);
    case Releasing(_, _) => OutsideNearer(s, t, ev);
    case Draining => OutsideNearer(s, t, ev);
    case AwaitingCleanup(_) => CleanupNearer(s, t, ev);
    case Cleaning(_, _, _) => CleanupNearer(s, t, ev);
    case AbortAwaiting => CleanupNearer(s, t, ev);
    case AbortCleaning(_, _) => CleanupNearer(s, t, ev);
    case _ => OutsideNearer(s, t, ev);
  }

  // The threads below `n` together.
  function Total(s: System, n: nat): nat {
    if n == 0 then 0 else Total(s, n - 1) + Rank(At(s, n - 1))
  }

  ghost predicate Within(s: System, n: nat) {
    forall t: Tid :: t in s.threads ==> t < n
  }

  lemma {:induction false} TotalNearer(s: System, s': System, t: Tid, n: nat)
    requires Nearer(s, s', t)
    ensures if t < n then Total(s', n) < Total(s, n) else Total(s', n) == Total(s, n)
  {
    if n > 0 {
      TotalNearer(s, s', t, n - 1);
      assert n - 1 != t ==> At(s', n - 1) == At(s, n - 1);
    }
  }

  lemma MovesWithin(c: Sizing.Config, s: System, t: Tid, ev: Event, n: nat)
    requires c.growthInterval > 0 && Safe(c, s) && Within(s, n) && Moves(c, s, t, ev)
    ensures Within(Step(c, s, t, ev), n) && Total(Step(c, s, t, ev), n) < Total(s, n)
  {
    MovesNearer(c, s, t, ev);
    assert t in s.threads;
    TotalNearer(s, Step(c, s, t, ev), t, n);
  }

  // --------------------------------------------------- owners of what others wait for

  ghost predicate Owned(s: System) {
    && (s.sh.cleanup == CleanupInProgress ==> s.cleaner.Some?)
    && (s.sh.lifecycle == Aborting ==> s.aborter.Some?)
    && (s.sh.init == InitInProgress ==> s.initializer.Some?)
  }

  lemma OwnedInit(s: System, t: Tid, fin: bool, parts: seq<Part>, answer: InitAnswer)
    requires Owned(s)
    ensures Owned(StepEnsure(s, t, fin, parts)) && Owned(StepPublish(s, t, fin, parts, answer))
  {
  }

  lemma OwnedUpload(s: System, t: Tid, fin: bool, work: Work, ev: Event)
    requires Owned(s)
    ensures Owned(StepUpload(s, t, fin, work, ev))
  {
    match work
    case Ensuring(parts) => OwnedInit(s, t, fin, parts, InitOk(0));
    case Publishing(parts, answer) => OwnedInit(s, t, fin, parts, answer);
    case _ =>
  }

  lemma OwnedFinalize(s: System, t: Tid, work: Work, ev: Event)
    requires Owned(s)
    ensures Owned(StepFinalize(s, t, work, ev))
  {
  }

  lemma OwnedReserve(c: Sizing.Config, s: System, t: Tid)
    requires c.growthInterval > 0 && BufferFits(s.sh) && Owned(s)
    ensures forall data, location :: Owned(StepPrepare(c, s, t, data, location))
    ensures forall buffer :: Owned(StepReserve(c, s, t, buffer))
  {
  }

  lemma OwnedInside(c: Sizing.Config, s: System, t: Tid, fin: bool, work: Work, ev: Event)
    requires c.growthInterval > 0 && BufferFits(s.sh) && Owned(s)
    ensures Owned(StepInside(c, s, t, fin, work, ev))
  {
    match work
    case Preparing(_, _) => OwnedReserve(c, s, t);
    case Reserving(_) => OwnedReserve(c, s, t);
    case Deciding(_) => OwnedFinalize(s, t, work, ev);
    case PuttingSingle(_, _) => OwnedFinalize(s, t, work, ev);
    case Snapshotting => OwnedFinalize(s, t, work, ev);
    case Completing(_, _) => OwnedFinalize(s, t, work, ev);
    case Finishing => OwnedFinalize(s, t, work, ev);
    case _ => OwnedUpload(s, t, fin, work, ev);
  }

  lemma OwnedLeaving(s: System, t: Tid)
    requires Owned(s)
    ensures At(s, t).Failing? ==> Owned(StepLatch(s, t, At(s, t).error, At(s, t).disposition))
    ensures At(s, t).Releasing? ==> Owned(StepRelease(s, t, At(s, t).quiet))
  {
  }

  lemma OwnedCleaning(s: System, t: Tid, ev: Event)
    requires Owned(s)
    ensures At(s, t).AwaitingCleanup? ==> Owned(StepAwait(s, t, At(s, t).quiet, false))
    ensures At(s, t).Cleaning? ==> Owned(StepClean(s, t, At(s, t).id, At(s, t).quiet, At(s, t).request, ev))
  {
  }

  lemma OwnedAbort(s: System, t: Tid, ev: Event)
    requires Owned(s)
    ensures At(s, t).Draining? ==> Owned(StepDrain(s, t))
    ensures At(s, t).AbortAwaiting? ==> Owned(StepAwait(s, t, false, true))
    ensures At(s, t).AbortCleaning? ==> Owned(StepAbortClean(s, t, At(s, t).id, At(s, t).request, ev))
  {
  }

  lemma OwnedEntering(s: System, t: Tid, ev: Event)
    requires Owned(s)
    ensures Owned(StepEntering(s, t, ev))
  {
  }

  lemma StepOwned(c: Sizing.Config, s: System, t: Tid, ev: Event)
    requires c.growthInterval > 0 && BufferFits(s.sh) && Owned(s)
    ensures Owned(Step(c, s, t, ev))
  {
    match At(s, t)
    case Inside(fin, work) => OwnedInside(c, s, t, fin, work, ev);
    case Failing(_, _) => OwnedLeaving(s, t);
    case Releasing(_, _) => OwnedLeaving(s, t);
    case AwaitingCleanup(_) => OwnedCleaning(s, t, ev);
    case Cleaning(_, _, _) => OwnedCleaning(s, t, ev);
    case Draining => OwnedAbort(s, t, ev);
    case AbortAwaiting => OwnedAbort(s, t, ev);
    case AbortCleaning(_, _) => OwnedAbort(s, t, ev);
    case _ => OwnedEntering(s, t, ev);
  }

  lemma {:induction false} RunOwned(c: Sizing.Config, sched: Schedule)
    requires c.growthInterval > 0
    ensures Owned(UploadRuns.Run(c, sched))
  {
    if |sched| > 0 {
      RunOwned(c, sched[..|sched| - 1]);
      StepOwned(c, UploadRuns.Run(c, sched[..|sched| - 1]), sched[|sched| - 1].0, sched[|sched| - 1].1);
    }
  }

  // ---------------------------------------------------------------- who can move

  // A write that was admitted and waits for an earlier one.
  predicate Ahead(s: System, t: Tid) {
    var l := At(s, t);
    l.Inside? && l.work.Preparing? && l.work.location > s.sh.nextOffset && s.sh.primary.None?
  }

  predicate AwaitsInit(s: System, t: Tid) {
    var l := At(s, t);
    l.Inside? && l.work.Ensuring? && s.sh.init == InitInProgress && s.sh.primary.None?
  }

  // An answer that a sent request may get, or the thread's own next step.
  function Next(l: Thread): Event {
    match l
    case Inside(_, Initializing(_, true)) => AnswerInit(InitOk(0))
    case Inside(_, Putting(_, _, true)) => AnswerOk("")
    case Inside(_, PuttingSingle(_, true)) => AnswerOk("")
    case Inside(_, Completing(_, true)) => AnswerOk("")
    case Inside(_, Claimed) => FinishClaim
    case Cleaning(_, _, Sent) => AnswerDelete(None)
    case AbortCleaning(_, Sent) => AnswerDelete(None)
    case _ => Run
  }

  lemma UploadMoves(s: System, t: Tid, fin: bool, work: Work)
    requires Tenancy(s) && Inits(s) && Datas(s) && At(s, t) == Inside(fin, work)
    requires Uploading(work) || work.Looping? || work.Claimed?
    requires !AwaitsInit(s, t)
    ensures StepUpload(s, t, fin, work, Next(At(s, t))) != s
  {
    var l := At(s, t);
    assert TenancyOf(s, t, l) && InitOf(s, t, l) && DataOf(s, t, l);
    var s' := StepUpload(s, t, fin, work, Next(l));
    if work.Storing? { assert PartOf(s, t, Pending(l)[0]); }
    assert At(s', t) != l;
  }

  lemma OtherMoves(c: Sizing.Config, s: System, t: Tid)
    requires c.growthInterval > 0 && Tenancy(s) && At(s, t).Inside? && !Ahead(s, t)
    requires FinalWork(At(s, t).work) || At(s, t).work.Preparing?
    ensures Moves(c, s, t, Next(At(s, t)))
  {
    var l := At(s, t);
    assert TenancyOf(s, t, l) && |s.holders| > 0;
    var s' := StepInside(c, s, t, l.fin, l.work, Next(l));
    assert At(s', t) != l;
  }

  lemma InsideMoves(c: Sizing.Config, s: System, t: Tid)
    requires c.growthInterval > 0 && Safe(c, s) && At(s, t).Inside? && !Ahead(s, t) && !AwaitsInit(s, t)
    ensures Moves(c, s, t, Next(At(s, t)))
  {
    var l := At(s, t);
    assert TenancyOf(s, t, l);
    if Uploading(l.work) || l.work.Looping? || l.work.Claimed? {
      UploadMoves(s, t, l.fin, l.work);
    } else {
      OtherMoves(c, s, t);
    }
  }

  // Whoever was given the cleanup can go on with it.
  lemma CleanupMoves(c: Sizing.Config, s: System, t: Tid)
    requires c.growthInterval > 0 && Safe(c, s) && InCleanup(At(s, t))
    ensures Moves(c, s, t, Next(At(s, t)))
  {
    assert CleanupOf(s, t, At(s, t));
    var s' := Step(c, s, t, Next(At(s, t)));
    assert At(s', t) != At(s, t);
  }

  // So can whoever fails or releases.
  lemma LeavingMoves(c: Sizing.Config, s: System, t: Tid)
    requires c.growthInterval > 0 && Safe(c, s) && (At(s, t).Failing? || At(s, t).Releasing?)
    ensures Moves(c, s, t, Run)
  {
    assert TenancyOf(s, t, At(s, t)) && |s.holders| > 0;
    var s' := Step(c, s, t, Run);
    assert At(s', t) != At(s, t);
  }

  ghost predicate Quiet(c: Sizing.Config, s: System)
    requires c.growthInterval > 0 && BufferFits(s.sh)
  {
    forall t: Tid, ev: Event :: !Moves(c, s, t, ev)
  }

  // In a quiet state only writes ahead of the offset are inside.
  lemma QuietHolder(c: Sizing.Config, s: System, t: Tid)
    requires c.growthInterval > 0 && Safe(c, s) && Owned(s) && Quiet(c, s) && t in s.holders
    ensures Ahead(s, t)
  {
    assert TenancyOf(s, t, At(s, t));
    if At(s, t).Inside? && !Ahead(s, t) {
      if AwaitsInit(s, t) {
        var o := s.initializer.value;
        assert InitOf(s, o, At(s, o));
        InsideMoves(c, s, o);
      } else {
        InsideMoves(c, s, t);
      }
      assert false;
    } else if !At(s, t).Inside? {
      LeavingMoves(c, s, t);
      assert false;
    }
  }

  // In a quiet state no cleanup is due.
  lemma QuietClean(c: Sizing.Config, s: System)
    requires c.growthInterval > 0 && Safe(c, s) && Owned(s) && Quiet(c, s)
    ensures !AwaitsCleanup(s.sh) && s.sh.cleanup != CleanupInProgress && s.sh.lifecycle != Finalizing
  {
    if s.sh.cleanup == CleanupInProgress {
      var o := s.cleaner.value;
      assert CleanupOf(s, o, At(s, o));
      CleanupMoves(c, s, o);
      assert false;
    }
    if s.holders != {} {
      var t :| t in s.holders;
      QuietHolder(c, s, t);
      assert TenancyOf(s, t, At(s, t));
    }
  }

  predicate BehindAbort(s: System, t: Tid) {
    At(s, t).Draining? || (At(s, t).EnteringAbort? && s.sh.lifecycle == Aborting)
  }

  // Whoever is not inside and waits for neither a cleanup nor an abort can move.
  lemma OutsideMoves(c: Sizing.Config, s: System, t: Tid)
    requires c.growthInterval > 0 && Safe(c, s) && t !in s.holders && !At(s, t).Idle? && !BehindAbort(s, t)
    requires !AwaitsCleanup(s.sh) && s.sh.cleanup != CleanupInProgress && s.sh.lifecycle != Finalizing
    ensures Moves(c, s, t, Run)
  {
    assert TenancyOf(s, t, At(s, t)) && CleanupOf(s, t, At(s, t));
    var s' := Step(c, s, t, Run);
    assert At(s', t) != At(s, t);
  }

  // Where a thread can be when nothing moves.
  lemma QuietThread(c: Sizing.Config, s: System, t: Tid)
    requires c.growthInterval > 0 && Safe(c, s) && Owned(s) && Quiet(c, s)
    ensures At(s, t).Idle? || Ahead(s, t) || BehindAbort(s, t)
  {
    QuietClean(c, s);
    if t in s.holders {
      QuietHolder(c, s, t);
    } else if !At(s, t).Idle? && !BehindAbort(s, t) {
      OutsideMoves(c, s, t);
      assert false;
    }
  }

  lemma DrainMoves(c: Sizing.Config, s: System, t: Tid)
    requires c.growthInterval > 0 && Tenancy(s) && s.holders == {} && At(s, t).Draining?
    ensures Moves(c, s, t, Run)
  {
    var s' := StepDrain(s, t);
    assert At(s', t) != At(s, t);
  }

  // An abort waits for a write that is ahead.
  lemma QuietAbort(c: Sizing.Config, s: System, t: Tid)
    requires c.growthInterval > 0 && Safe(c, s) && Owned(s) && Quiet(c, s) && BehindAbort(s, t)
    ensures exists u: Tid :: Ahead(s, u)
  {
    assert CleanupOf(s, t, At(s, t));
    var o := s.aborter.value;
    assert CleanupOf(s, o, At(s, o));
    QuietThread(c, s, o);
    if s.holders == {} {
      DrainMoves(c, s, o);
      assert false;
    }
    var u :| u in s.holders;
    QuietHolder(c, s, u);
  }

  // ---------------------------------------------------------------------- theorems

  // Nothing can move exactly when every call has ended, but for admitted writes
  // ahead of the offset and, if there are any, aborts that wait for them.
  lemma QuietExactly(c: Sizing.Config, sched: Schedule)
    requires c.growthInterval > 0
    ensures var s := UploadRuns.Run(c, sched);
      Quiet(c, s) <==>
        && (forall t: Tid :: At(s, t).Idle? || Ahead(s, t) || BehindAbort(s, t))
        && ((exists t: Tid :: BehindAbort(s, t)) ==> exists u: Tid :: Ahead(s, u))
  {
    RunSafe(c, sched);
    RunOwned(c, sched);
    var s := UploadRuns.Run(c, sched);
    if Quiet(c, s) {
      forall t: Tid ensures At(s, t).Idle? || Ahead(s, t) || BehindAbort(s, t) { QuietThread(c, s, t); }
      forall t: Tid | BehindAbort(s, t) ensures exists u: Tid :: Ahead(s, u) { QuietAbort(c, s, t); }
    } else {
      var t: Tid, ev: Event :| Moves(c, s, t, ev);
      if u: Tid :| Ahead(s, u) {
        assert TenancyOf(s, u, At(s, u)) && s.sh.active > 0;
      }
      assert !(At(s, t).Idle? || Ahead(s, t)) && (BehindAbort(s, t) ==> !exists u: Tid :: Ahead(s, u));
    }
  }

  // A schedule after `sched` in which every step is one of a call in progress.
  ghost predicate Working(c: Sizing.Config, sched: Schedule, more: Schedule)
    requires c.growthInterval > 0
  {
    |more| == 0
    || (&& Working(c, sched, more[..|more| - 1])
        && Moves(c, UploadRuns.Run(c, sched + more[..|more| - 1]), more[|more| - 1].0, more[|more| - 1].1))
  }

  lemma Joined<T>(a: seq<T>, b: seq<T>)
    requires |b| > 0
    ensures a + b == (a + b[..|b| - 1]) + [b[|b| - 1]]
  {
  }

  lemma RunOne(c: Sizing.Config, before: Schedule, step: (Tid, Event), all: Schedule)
    requires c.growthInterval > 0 && all == before + [step]
    ensures UploadRuns.Run(c, all) == Step(c, UploadRuns.Run(c, before), step.0, step.1)
  {
    assert all[..|all| - 1] == before;
  }

  lemma RunNext(c: Sizing.Config, sched: Schedule, more: Schedule)
    requires c.growthInterval > 0 && |more| > 0
    ensures var n := |more| - 1;
      UploadRuns.Run(c, sched + more) == Step(c, UploadRuns.Run(c, sched + more[..n]), more[n].0, more[n].1)
  {
    Joined(sched, more);
    RunOne(c, sched + more[..|more| - 1], more[|more| - 1], sched + more);
  }

  // Without new calls only so many steps are left, whatever the threads and the
  // server do.
  lemma {:induction false} CallsEnd(c: Sizing.Config, sched: Schedule, more: Schedule, n: nat)
    requires c.growthInterval > 0 && Working(c, sched, more) && Within(UploadRuns.Run(c, sched), n)
    ensures Within(UploadRuns.Run(c, sched + more), n)
    ensures |more| + Total(UploadRuns.Run(c, sched + more), n) <= Total(UploadRuns.Run(c, sched), n)
  {
    if |more| == 0 {
      assert sched + more == sched;
    } else {
      var k := |more| - 1;
      CallsEnd(c, sched, more[..k], n);
      RunSafe(c, sched + more[..k]);
      RunNext(c, sched, more);
      MovesWithin(c, UploadRuns.Run(c, sched + more[..k]), more[k].0, more[k].1, n);
    }
  }

  // The offset of a write that has not been accepted yet.
  function Offset(l: Thread): nat {
    match l
    case EnteringWrite(_, location) => location
    case Inside(_, Preparing(_, location)) => location
    case _ => 0
  }

  ghost predicate NoneAhead(s: System) {
    forall t: Tid :: Offset(At(s, t)) <= s.sh.nextOffset
  }

  lemma UploadOffset(s: System, t: Tid, fin: bool, work: Work, ev: Event)
    requires At(s, t) == Inside(fin, work) && !work.Preparing?
    ensures Offset(At(StepUpload(s, t, fin, work, ev), t)) == 0
  {
  }

  lemma InsideOffset(c: Sizing.Config, s: System, t: Tid, fin: bool, work: Work, ev: Event)
    requires c.growthInterval > 0 && BufferFits(s.sh) && At(s, t) == Inside(fin, work)
    ensures Offset(At(StepInside(c, s, t, fin, work, ev), t)) <= Offset(At(s, t))
  {
    if Uploading(work) || work.Looping? || work.Claimed? { UploadOffset(s, t, fin, work, ev); }
  }

  lemma StepOffset(c: Sizing.Config, s: System, t: Tid, ev: Event)
    requires c.growthInterval > 0 && BufferFits(s.sh) && !Starts(ev)
    ensures Offset(At(Step(c, s, t, ev), t)) <= Offset(At(s, t))
  {
    if At(s, t).Inside? { InsideOffset(c, s, t, At(s, t).fin, At(s, t).work, ev); }
  }

  lemma MovesNoneAhead(c: Sizing.Config, s: System, t: Tid, ev: Event)
    requires c.growthInterval > 0 && Safe(c, s) && NoneAhead(s) && Moves(c, s, t, ev)
    ensures NoneAhead(Step(c, s, t, ev))
  {
    var s' := Step(c, s, t, ev);
    StepForward(c, s, t, ev);
    StepSafe(c, s, t, ev);
    StepOffset(c, s, t, ev);
    MovesNearer(c, s, t, ev);
    forall u: Tid ensures Offset(At(s', u)) <= s'.sh.nextOffset {
      if u != t { assert At(s', u) == At(s, u); }
    }
  }

  lemma {:induction false} WorkingNoneAhead(c: Sizing.Config, sched: Schedule, more: Schedule)
    requires c.growthInterval > 0 && Working(c, sched, more) && NoneAhead(UploadRuns.Run(c, sched))
    ensures NoneAhead(UploadRuns.Run(c, sched + more))
  {
    if |more| == 0 {
      assert sched + more == sched;
    } else {
      var n := |more| - 1;
      WorkingNoneAhead(c, sched, more[..n]);
      RunSafe(c, sched + more[..n]);
      RunNext(c, sched, more);
      MovesNoneAhead(c, UploadRuns.Run(c, sched + more[..n]), more[n].0, more[n].1);
    }
  }

  // If no write is ahead of the offset when the last call is made, then wherever
  // the calls in progress come to rest all of them have ended, the aborts too.
  lemma AllCallsEnd(c: Sizing.Config, sched: Schedule, more: Schedule, t: Tid)
    requires c.growthInterval > 0 && NoneAhead(UploadRuns.Run(c, sched))
    requires Working(c, sched, more) && Quiet(c, UploadRuns.Run(c, sched + more))
    ensures At(UploadRuns.Run(c, sched + more), t).Idle?
  {
    var s := UploadRuns.Run(c, sched + more);
    WorkingNoneAhead(c, sched, more);
    QuietExactly(c, sched + more);
    forall u: Tid ensures !Ahead(s, u) {
      assert Offset(At(s, u)) <= s.sh.nextOffset;
    }
  }

  // And they do come to rest.
  lemma {:induction false} ComesToRest(c: Sizing.Config, sched: Schedule, sofar: Schedule, n: nat)
      returns (more: Schedule)
    requires c.growthInterval > 0 && Working(c, sched, sofar) && Within(UploadRuns.Run(c, sched + sofar), n)
    ensures Working(c, sched, more) && Quiet(c, UploadRuns.Run(c, sched + more))
    decreases Total(UploadRuns.Run(c, sched + sofar), n)
  {
    var s := UploadRuns.Run(c, sched + sofar);
    if Quiet(c, s) {
      return sofar;
    }
    var t: Tid, ev: Event :| Moves(c, s, t, ev);
    var next := sofar + [(t, ev)];
    assert next[..|next| - 1] == sofar;
    RunSafe(c, sched + sofar);
    RunNext(c, sched, next);
    MovesWithin(c, s, t, ev, n);
    more := ComesToRest(c, sched, next, n);
  }
}
