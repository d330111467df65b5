// Handle and session together: threads call Write, Close (which finalizes) and
// AbortUpload on the handle, and reach the session only through it.
module HandleProtocol {
  import opened Common
  import opened HandleState
  import P = UploadProtocol
  import S = UploadState
  import T = UploadTenancy
  import C = UploadCleanup
  import R = UploadRuns
  import Sizing = UploadSizing

  datatype Caller =
    | Away
    | Claiming(call: P.Event)
    | Holding(call: P.Event)     // claim granted, session not yet entered
    | Calling                    // inside the session, under the claim
    | AbortEntering
    | AbortOwner                 // handle is Aborting on behalf of this thread
    | AbortCalling               // inside the session's Abort
    | AbortEnded(terminal: bool)

  datatype Event = CallWrite(data: Bytes, location: nat) | CallFinalize | CallAbort | Go | Session(ev: P.Event)

  datatype System = System(
    handle: Handle,
    session: P.System,
    callers: map<P.Tid, Caller>,
    claims: set<P.Tid>,
    owner: Option<P.Tid>)         // thread that moved the handle to Aborting

  const Start := System(Handle(Active, 0, true), P.Start, map[], {}, None)

  function At(s: System, t: P.Tid): Caller {
    if t in s.callers then s.callers[t] else Away
  }

  function Move(s: System, t: P.Tid, next: Caller): System {
    s.(callers := s.callers[t := next])
  }

  function StepClaim(s: System, t: P.Tid, call: P.Event): System {
    match ClaimUpload(s.handle, call.StartWrite?)
    case ClaimGranted(h) => Move(s, t, Holding(call)).(handle := h, claims := s.claims + {t})
    case _ => Move(s, t, Away)
  }

  // A thread inside the session takes its next step there, and leaves when that
  // call has ended; only then does the claim's destructor run.
  function StepCalling(c: Sizing.Config, s: System, t: P.Tid, ev: Event): System
    requires c.growthInterval > 0 && S.BufferFits(s.session.sh)
  {
    if P.At(s.session, t).Idle? then
      if ev.Go? && s.handle.calls > 0 then
        Move(s, t, Away).(handle := ReleaseUpload(s.handle), claims := s.claims - {t})
      else s
    else if ev.Session? then s.(session := P.Step(c, s.session, t, ev.ev))
    else s
  }

  // A thrown abort counts as terminal.
  function StepAbortCalling(c: Sizing.Config, s: System, t: P.Tid, ev: Event): System
    requires c.growthInterval > 0 && S.BufferFits(s.session.sh)
  {
    if !ev.Session? || P.At(s.session, t).Idle? then s
    else
      var session := P.Step(c, s.session, t, ev.ev);
      if P.At(session, t).Idle? && |session.outcomes| > 0 then
        Move(s, t, AbortEnded(session.outcomes[|session.outcomes| - 1] != P.AbortReturned(false))).(session := session)
      else s.(session := session)
  }

  function StepAbortEntering(s: System, t: P.Tid): System {
    match BeginAbort(s.handle)
    case AbortWaits => s
    case NothingToAbort => Move(s, t, Away)
    case AbortOwned(h) => Move(s, t, AbortOwner).(handle := h, owner := Some(t))
  }

  function StepAbortEnded(s: System, t: P.Tid, terminal: bool): System {
    match EndAbort(s.handle, terminal)
    case AbortDrains => s
    case SessionKept(h) => Move(s, t, Away).(handle := h, owner := None)
    case SessionDetached(h) => Move(s, t, Away).(handle := h, owner := None)
  }

  function Step(c: Sizing.Config, s: System, t: P.Tid, ev: Event): System
    requires c.growthInterval > 0 && S.BufferFits(s.session.sh)
  {
    match (At(s, t), ev)
    case (Away, CallWrite(data, location)) => Move(s, t, Claiming(P.StartWrite(data, location)))
    case (Away, CallFinalize) => Move(s, t, Claiming(P.StartFinalize))
    case (Away, CallAbort) => Move(s, t, AbortEntering)
    case (Claiming(call), Go) => StepClaim(s, t, call)
    case (Holding(call), Go) => Move(s, t, Calling).(session := P.Step(c, s.session, t, call))
    case (Calling, _) => StepCalling(c, s, t, ev)
    case (AbortEntering, Go) => StepAbortEntering(s, t)
    case (AbortOwner, Go) => Move(s, t, AbortCalling).(session := P.Step(c, s.session, t, P.StartAbort))
    case (AbortCalling, _) => StepAbortCalling(c, s, t, ev)
    case (AbortEnded(terminal), Go) => StepAbortEnded(s, t, terminal)
    case _ => s
  }

  // --------------------------------------------------- what the session promises

  predicate InAbortCall(l: P.Thread) { l.EnteringAbort? || C.InAbort(l) }

  predicate SameAborting(s: P.System, s': P.System) {
    && (s'.sh.lifecycle == S.Aborting <==> s.sh.lifecycle == S.Aborting)
    && (s'.sh.lifecycle == S.Aborted <==> s.sh.lifecycle == S.Aborted)
  }

  ghost predicate OnlyMoves(s: P.System, s': P.System, t: P.Tid) {
    forall u: P.Tid :: u != t ==> P.At(s', u) == P.At(s, u)
  }

  // Outside a call to Abort no step touches the aborting states.
  ghost predicate Ordinary(s: P.System, s': P.System, t: P.Tid) {
    OnlyMoves(s, s', t) && SameAborting(s, s') && !InAbortCall(P.At(s', t))
  }

  lemma OrdinaryUpload(s: P.System, t: P.Tid, fin: bool, work: P.Work, ev: P.Event)
    requires T.Tenancy(s) && P.At(s, t) == P.Inside(fin, work)
    ensures Ordinary(s, P.StepUpload(s, t, fin, work, ev), t)
  {
    assert T.TenancyOf(s, t, P.At(s, t));
  }

  lemma OrdinaryFinal(s: P.System, t: P.Tid, work: P.Work, ev: P.Event)
    requires T.Tenancy(s) && P.At(s, t) == P.Inside(true, work)
    ensures Ordinary(s, P.StepFinalize(s, t, work, ev), t)
  {
    assert T.TenancyOf(s, t, P.At(s, t));
  }

  lemma OrdinaryInside(c: Sizing.Config, s: P.System, t: P.Tid, fin: bool, work: P.Work, ev: P.Event)
    requires c.growthInterval > 0 && T.Tenancy(s) && P.At(s, t) == P.Inside(fin, work)
    ensures Ordinary(s, P.StepInside(c, s, t, fin, work, ev), t)
  {
    assert T.TenancyOf(s, t, P.At(s, t));
    match work
    case Preparing(data, location) =>
    case Reserving(buffer) =>
    case Deciding(_) => OrdinaryFinal(s, t, work, ev);
    case PuttingSingle(_, _) => OrdinaryFinal(s, t, work, ev);
    case Snapshotting => OrdinaryFinal(s, t, work, ev);
    case Completing(_, _) => OrdinaryFinal(s, t, work, ev);
    case Finishing => OrdinaryFinal(s, t, work, ev);
    case _ => OrdinaryUpload(s, t, fin, work, ev);
  }

  lemma OrdinaryLeaving(c: Sizing.Config, s: P.System, t: P.Tid, ev: P.Event)
    requires c.growthInterval > 0 && T.Tenancy(s)
    requires P.At(s, t).Failing? || P.At(s, t).Releasing? || P.At(s, t).AwaitingCleanup? || P.At(s, t).Cleaning?
    ensures Ordinary(s, P.Step(c, s, t, ev), t)
  {
    assert T.TenancyOf(s, t, P.At(s, t));
  }

  lemma OrdinaryBegin(s: P.System, t: P.Tid, data: Bytes, location: nat)
    requires !InAbortCall(P.At(s, t))
    ensures Ordinary(s, P.StepBeginWrite(s, t, data, location), t)
    ensures Ordinary(s, P.StepBeginFinalize(s, t), t)
  {
  }

  lemma OrdinaryEntering(s: P.System, t: P.Tid, ev: P.Event)
    requires !InAbortCall(P.At(s, t)) && !(P.At(s, t).Idle? && ev.StartAbort?)
    ensures Ordinary(s, P.StepEntering(s, t, ev), t)
  {
    match (P.At(s, t), ev)
    case (EnteringWrite(data, location), Run) => OrdinaryBegin(s, t, data, location);
    case (EnteringFinalize, Run) => OrdinaryBegin(s, t, [], 0);
    case _ =>
  }

  lemma OrdinaryStep(c: Sizing.Config, s: P.System, t: P.Tid, ev: P.Event)
    requires c.growthInterval > 0 && T.Tenancy(s) && !InAbortCall(P.At(s, t))
    requires !(P.At(s, t).Idle? && ev.StartAbort?)
    ensures Ordinary(s, P.Step(c, s, t, ev), t)
  {
    match P.At(s, t)
    case Inside(fin, work) => OrdinaryInside(c, s, t, fin, work, ev);
    case Failing(_, _) => OrdinaryLeaving(c, s, t, ev);
    case Releasing(_, _) => OrdinaryLeaving(c, s, t, ev);
    case AwaitingCleanup(_) => OrdinaryLeaving(c, s, t, ev);
    case Cleaning(_, _, _) => OrdinaryLeaving(c, s, t, ev);
    case Idle => OrdinaryEntering(s, t, ev);
    case EnteringWrite(_, _) => OrdinaryEntering(s, t, ev);
    case EnteringFinalize => OrdinaryEntering(s, t, ev);
    case _ =>
  }

  // A call to Abort answers false exactly for a finalized session; however else
  // it ends, the session is aborted.
  lemma InsideAbort(c: Sizing.Config, s: P.System, t: P.Tid, ev: P.Event)
    requires c.growthInterval > 0 && T.Tenancy(s) && C.Cleanups(s) && InAbortCall(P.At(s, t))
    ensures var s' := P.Step(c, s, t, ev);
      if P.At(s', t).Idle? then
        && |s'.outcomes| > 0
        && (if s'.outcomes[|s'.outcomes| - 1] == P.AbortReturned(false) then s'.sh.lifecycle == S.Finalized
            else s'.sh.lifecycle == S.Aborted)
      else InAbortCall(P.At(s', t))
    ensures OnlyMoves(s, P.Step(c, s, t, ev), t)
  {
    assert C.CleanupOf(s, t, P.At(s, t));
  }

  // ------------------------------------------------------------------- invariant

  predicate Owns(l: Caller) { l.AbortOwner? || l.AbortCalling? || l.AbortEnded? }

  predicate Claims(l: Caller) { l.Holding? || l.Calling? }

  ghost predicate LinkOf(s: System, t: P.Tid, l: Caller, inner: P.Thread) {
    && (Claims(l) <==> t in s.claims)
    && (Owns(l) <==> s.owner == Some(t))
    && (!l.Calling? && !l.AbortCalling? ==> inner.Idle?)
    && (l.Calling? ==> !InAbortCall(inner))
    && (l.AbortCalling? ==> InAbortCall(inner))
    && (l.Claiming? || l.Holding? ==> l.call.StartWrite? || l.call.StartFinalize?)
    && (l.AbortOwner? ==> s.session.sh.lifecycle != S.Aborting && s.session.sh.lifecycle != S.Aborted)
    && (l.AbortEnded? ==> s.session.sh.lifecycle == if l.terminal then S.Aborted else S.Finalized)
  }

  ghost predicate LinkGlobal(s: System) {
    && s.handle.calls == |s.claims|
    && (s.owner.Some? <==> s.handle.state == Aborting)
    && (s.handle.attached <==> s.handle.state != Aborted)
    && (s.handle.state == Aborted ==> s.claims == {} && s.session.sh.lifecycle == S.Aborted)
    && (s.handle.state == Active ==> s.session.sh.lifecycle != S.Aborting && s.session.sh.lifecycle != S.Aborted)
  }

  ghost predicate Link(s: System) {
    && LinkGlobal(s)
    && forall t: P.Tid :: LinkOf(s, t, At(s, t), P.At(s.session, t))
  }

  // The handle moves, the session rests.
  lemma HandleMoves(s: System, s': System, t: P.Tid)
    requires Link(s) && LinkGlobal(s') && s'.session == s.session
    requires s'.callers == s.callers[t := At(s', t)]
    requires s'.claims == s.claims || s'.claims == s.claims + {t} || s'.claims == s.claims - {t}
    requires s'.owner == s.owner || (s.owner.None? && s'.owner == Some(t)) || (s'.owner.None? && s.owner == Some(t))
    requires LinkOf(s', t, At(s', t), P.At(s.session, t))
    ensures Link(s')
  {
    forall u: P.Tid ensures LinkOf(s', u, At(s', u), P.At(s.session, u)) {
      assert LinkOf(s, u, At(s, u), P.At(s.session, u));
    }
  }

  lemma ClaimLink(s: System, t: P.Tid, call: P.Event)
    requires Link(s) && At(s, t) == Claiming(call)
    ensures Link(StepClaim(s, t, call))
  {
    assert LinkOf(s, t, At(s, t), P.At(s.session, t));
    HandleMoves(s, StepClaim(s, t, call), t);
  }

  lemma ReleaseLink(s: System, t: P.Tid)
    requires Link(s) && At(s, t).Calling? && P.At(s.session, t).Idle? && s.handle.calls > 0
    ensures Link(Move(s, t, Away).(handle := ReleaseUpload(s.handle), claims := s.claims - {t}))
  {
    assert LinkOf(s, t, At(s, t), P.At(s.session, t));
    HandleMoves(s, Move(s, t, Away).(handle := ReleaseUpload(s.handle), claims := s.claims - {t}), t);
  }

  lemma AbortLink(s: System, t: P.Tid)
    requires Link(s)
    ensures At(s, t).AbortEntering? ==> Link(StepAbortEntering(s, t))
    ensures At(s, t).AbortEnded? ==> Link(StepAbortEnded(s, t, At(s, t).terminal))
  {
    assert LinkOf(s, t, At(s, t), P.At(s.session, t));
    if At(s, t).AbortEntering? {
      if BeginAbort(s.handle) != AbortWaits { HandleMoves(s, StepAbortEntering(s, t), t); }
    } else if At(s, t).AbortEnded? {
      if EndAbort(s.handle, At(s, t).terminal) != AbortDrains {
        HandleMoves(s, StepAbortEnded(s, t, At(s, t).terminal), t);
      }
    }
  }

  // The session moves under a claim; it was not aborted, and stays so.
  lemma SessionMoves(s: System, s': System, t: P.Tid)
    requires Link(s) && s.handle.attached
    requires s'.handle == s.handle && s'.claims == s.claims && s'.owner == s.owner
    requires s'.callers == s.callers || s'.callers == s.callers[t := At(s', t)]
    requires OnlyMoves(s.session, s'.session, t)
    requires SameAborting(s.session, s'.session) || s.owner == Some(t)
    requires s.session.sh.lifecycle == S.Finalized ==> s'.session.sh.lifecycle == S.Finalized
    requires LinkOf(s', t, At(s', t), P.At(s'.session, t))
    ensures Link(s')
  {
    forall u: P.Tid ensures LinkOf(s', u, At(s', u), P.At(s'.session, u)) {
      assert LinkOf(s, u, At(s, u), P.At(s.session, u));
    }
  }

  ghost predicate Good(c: Sizing.Config, s: System)
    requires c.growthInterval > 0
  {
    R.Safe(c, s.session) && Link(s)
  }

  lemma SessionStep(c: Sizing.Config, s: System, t: P.Tid, ev: P.Event)
    requires c.growthInterval > 0 && Good(c, s) && Claims(At(s, t))
    requires At(s, t).Holding? ==> ev == At(s, t).call
    requires At(s, t).Calling? ==> !P.At(s.session, t).Idle?
    ensures Good(c, Move(s, t, Calling).(session := P.Step(c, s.session, t, ev)))
  {
    var s' := Move(s, t, Calling).(session := P.Step(c, s.session, t, ev));
    assert LinkOf(s, t, At(s, t), P.At(s.session, t));
    R.StepSafe(c, s.session, t, ev);
    R.StepForward(c, s.session, t, ev);
    OrdinaryStep(c, s.session, t, ev);
    assert s.handle.attached by { assert t in s.claims; }
    SessionMoves(s, s', t);
  }

  lemma AbortStep(c: Sizing.Config, s: System, t: P.Tid, ev: Event)
    requires c.growthInterval > 0 && Good(c, s) && At(s, t).AbortCalling?
    ensures Good(c, StepAbortCalling(c, s, t, ev))
  {
    assert LinkOf(s, t, At(s, t), P.At(s.session, t));
    if ev.Session? {
      R.StepSafe(c, s.session, t, ev.ev);
      R.StepForward(c, s.session, t, ev.ev);
      InsideAbort(c, s.session, t, ev.ev);
      SessionMoves(s, StepAbortCalling(c, s, t, ev), t);
    }
  }

  lemma AbortStarts(c: Sizing.Config, s: System, t: P.Tid)
    requires c.growthInterval > 0 && Good(c, s) && At(s, t).AbortOwner?
    ensures Good(c, Move(s, t, AbortCalling).(session := P.Step(c, s.session, t, P.StartAbort)))
  {
    assert LinkOf(s, t, At(s, t), P.At(s.session, t));
    R.StepSafe(c, s.session, t, P.StartAbort);
    SessionMoves(s, Move(s, t, AbortCalling).(session := P.Step(c, s.session, t, P.StartAbort)), t);
  }

  lemma CallGood(c: Sizing.Config, s: System, t: P.Tid, call: Caller)
    requires c.growthInterval > 0 && Good(c, s) && At(s, t).Away?
    requires call.AbortEntering? || (call.Claiming? && (call.call.StartWrite? || call.call.StartFinalize?))
    ensures Good(c, Move(s, t, call))
  {
    assert LinkOf(s, t, At(s, t), P.At(s.session, t));
    HandleMoves(s, Move(s, t, call), t);
  }

  lemma CallingGood(c: Sizing.Config, s: System, t: P.Tid, ev: Event)
    requires c.growthInterval > 0 && Good(c, s) && At(s, t).Calling?
    ensures Good(c, StepCalling(c, s, t, ev))
  {
    if P.At(s.session, t).Idle? {
      if ev.Go? && s.handle.calls > 0 { ReleaseLink(s, t); }
    } else if ev.Session? {
      SessionStep(c, s, t, ev.ev);
      assert s.callers[t := Calling] == s.callers;
    }
  }

  lemma StepGood(c: Sizing.Config, s: System, t: P.Tid, ev: Event)
    requires c.growthInterval > 0 && Good(c, s)
    ensures Good(c, Step(c, s, t, ev))
  {
    match At(s, t)
    case Away =>
      match ev {
        case CallWrite(data, location) => CallGood(c, s, t, Claiming(P.StartWrite(data, location)));
        case CallFinalize => CallGood(c, s, t, Claiming(P.StartFinalize));
        case CallAbort => CallGood(c, s, t, AbortEntering);
        case _ =>
      }
    case Claiming(call) => if ev.Go? { ClaimLink(s, t, call); }
    case Holding(call) => if ev.Go? { SessionStep(c, s, t, call); }
    case Calling => CallingGood(c, s, t, ev);
    case AbortEntering => if ev.Go? { AbortLink(s, t); }
    case AbortOwner => if ev.Go? { AbortStarts(c, s, t); }
    case AbortCalling => AbortStep(c, s, t, ev);
    case AbortEnded(terminal) => if ev.Go? { AbortLink(s, t); }
  }

  // ------------------------------------------------------------------------ runs

  type Schedule = seq<(P.Tid, Event)>

  function SessionEvent(l: Caller, ev: Event): P.Event {
    match (l, ev)
    case (Holding(call), _) => call
    case (AbortOwner, _) => P.StartAbort
    case (_, Session(inner)) => inner
    case _ => P.Run
  }

  lemma StepSession(c: Sizing.Config, s: System, t: P.Tid, ev: Event)
    requires c.growthInterval > 0 && S.BufferFits(s.session.sh)
    ensures var s' := Step(c, s, t, ev);
      || s'.session == s.session
      || s'.session == P.Step(c, s.session, t, SessionEvent(At(s, t), ev))
  {
  }

  lemma StepFits(c: Sizing.Config, s: System, t: P.Tid, ev: Event)
    requires c.growthInterval > 0 && S.BufferFits(s.session.sh)
    ensures S.BufferFits(Step(c, s, t, ev).session.sh)
  {
    StepSession(c, s, t, ev);
    R.StepFits(c, s.session, t, SessionEvent(At(s, t), ev));
  }

  function Run(c: Sizing.Config, sched: Schedule): (s: System)
    requires c.growthInterval > 0
    ensures S.BufferFits(s.session.sh)
  {
    if |sched| == 0 then Start
    else
      var s := Run(c, sched[..|sched| - 1]);
      var (t, ev) := sched[|sched| - 1];
      StepFits(c, s, t, ev);
      Step(c, s, t, ev)
  }

  lemma {:induction false} RunGood(c: Sizing.Config, sched: Schedule)
    requires c.growthInterval > 0
    ensures Good(c, Run(c, sched))
  {
    if |sched| == 0 {
      R.StartSafe(c);
    } else {
      RunGood(c, sched[..|sched| - 1]);
      StepGood(c, Run(c, sched[..|sched| - 1]), sched[|sched| - 1].0, sched[|sched| - 1].1);
    }
  }

  lemma SessionRunStep(c: Sizing.Config, inner: R.Schedule, t: P.Tid, ev: P.Event)
    requires c.growthInterval > 0
    ensures R.Run(c, inner + [(t, ev)]) == P.Step(c, R.Run(c, inner), t, ev)
  {
    var longer := inner + [(t, ev)];
    assert longer[..|longer| - 1] == inner && longer[|longer| - 1] == (t, ev);
  }

  // What the session sees of a run through the handle is a run of the session
  // alone, so everything proved about those holds here.
  lemma {:induction false} SessionRuns(c: Sizing.Config, sched: Schedule) returns (inner: R.Schedule)
    requires c.growthInterval > 0
    ensures Run(c, sched).session == R.Run(c, inner)
  {
    if |sched| == 0 {
      return [];
    }
    inner := SessionRuns(c, sched[..|sched| - 1]);
    var s := Run(c, sched[..|sched| - 1]);
    var (t, ev) := sched[|sched| - 1];
    StepSession(c, s, t, ev);
    if Run(c, sched).session != s.session {
      SessionRunStep(c, inner, t, SessionEvent(At(s, t), ev));
      inner := inner + [(t, SessionEvent(At(s, t), ev))];
    }
  }

  // A claim never outlives its session: while any thread holds one, or is inside
  // the session, the session is attached; detached, nobody is inside, the upload
  // is aborted, and no claim is granted any more.
  lemma ClaimsKeepSession(c: Sizing.Config, sched: Schedule, t: P.Tid, write: bool)
    requires c.growthInterval > 0
    ensures var s := Run(c, sched);
      && (Claims(At(s, t)) || !P.At(s.session, t).Idle? ==> s.handle.attached)
      && s.handle.calls == |s.claims|
      && (!s.handle.attached ==>
            s.handle.calls == 0 && s.session.sh.lifecycle == S.Aborted && s.session.holders == {}
            && ClaimUpload(s.handle, write).ClaimRefused?)
      && (s.handle.state != Active ==> ClaimUpload(s.handle, write).ClaimRefused?)
  {
    RunGood(c, sched);
    var s := Run(c, sched);
    assert LinkOf(s, t, At(s, t), P.At(s.session, t));
  }

  // The session is ended by at most one thread at a time, the one that moved the
  // handle to Aborting.
  lemma OneAborter(c: Sizing.Config, sched: Schedule, t: P.Tid, u: P.Tid)
    requires c.growthInterval > 0
    requires InAbortCall(P.At(Run(c, sched).session, t)) && InAbortCall(P.At(Run(c, sched).session, u))
    ensures t == u && Run(c, sched).handle.state == Aborting
  {
    RunGood(c, sched);
    var s := Run(c, sched);
    assert LinkOf(s, t, At(s, t), P.At(s.session, t)) && LinkOf(s, u, At(s, u), P.At(s.session, u));
  }

  lemma AbortEndStep(c: Sizing.Config, s: System, t: P.Tid)
    requires c.growthInterval > 0 && S.BufferFits(s.session.sh) && Link(s)
    requires At(s, t).AbortEnded? && (s.handle.calls == 0 || !At(s, t).terminal)
    ensures var s' := Step(c, s, t, Go);
      && s'.session == s.session
      && (if s.session.sh.lifecycle == S.Finalized then s'.handle == s.handle.(state := Active) && s'.handle.attached
          else s'.handle.state == Aborted && !s'.handle.attached && s.session.sh.lifecycle == S.Aborted)
  {
    assert LinkOf(s, t, At(s, t), P.At(s.session, t));
    assert Step(c, s, t, Go) == StepAbortEnded(s, t, At(s, t).terminal);
  }

  // An abort that found the upload finalized gives the handle back with its
  // session attached and still finalized; any other abort ends in Aborted.
  lemma AbortEnds(c: Sizing.Config, sched: Schedule, t: P.Tid)
    requires c.growthInterval > 0 && At(Run(c, sched), t).AbortEnded?
    requires Run(c, sched).handle.calls == 0 || !At(Run(c, sched), t).terminal
    ensures var s := Run(c, sched);
      var s' := Step(c, s, t, Go);
      && s'.session == s.session
      && (if s.session.sh.lifecycle == S.Finalized then s'.handle == s.handle.(state := Active) && s'.handle.attached
          else s'.handle.state == Aborted && !s'.handle.attached && s.session.sh.lifecycle == S.Aborted)
  {
    RunGood(c, sched);
    var s := Run(c, sched);
    AbortEndStep(c, s, t);
  }

  // Through a handle that is opened for writing every claim meets a session unless the
  // upload is being aborted or is gone: neither the internal error nor the empty claim
  // occurs.
  lemma ClaimsMeetSession(c: Sizing.Config, sched: Schedule, write: bool)
    requires c.growthInterval > 0
    ensures var h := Run(c, sched).handle;
      && (h.state == Active ==> ClaimUpload(h, write) == ClaimGranted(h.(calls := h.calls + 1)))
      && (h.state != Active ==> ClaimUpload(h, write) == ClaimRefused)
      && (BeginAbort(h).NothingToAbort? <==> !h.attached)
      && (BeginAbort(h).AbortWaits? <==> Run(c, sched).owner.Some?)
  {
    RunGood(c, sched);
  }

  // Claiming and giving back leaves the handle as it was.
  lemma ClaimUndone(h: Handle, write: bool)
    requires ClaimUpload(h, write).ClaimGranted?
    ensures ReleaseUpload(ClaimUpload(h, write).handle) == h
    ensures BeginAbort(h).AbortOwned? && EndAbort(BeginAbort(h).handle, false) == SessionKept(h)
  {
  }

  // A handle opened for reading has nothing to claim or abort: closing it finds no
  // session, and writing through it is an internal error.
  lemma ReadingHandle(h: Handle)
    requires h.state == Active && !h.attached
    ensures ClaimUpload(h, false) == ClaimWithoutSession && ClaimUpload(h, true) == ClaimInternalError
    ensures BeginAbort(h) == NothingToAbort
  {
  }

  // The owner of an abort lets everybody out before the session goes.
  lemma DetachesWhenDrained(c: Sizing.Config, sched: Schedule, t: P.Tid)
    requires c.growthInterval > 0 && At(Run(c, sched), t) == AbortEnded(true)
    ensures var s := Run(c, sched);
      var s' := Step(c, s, t, Go);
      if s.claims != {} then s' == s
      else s'.handle == Handle(Aborted, 0, false) && s'.owner.None? && At(s', t) == Away
  {
    RunGood(c, sched);
    var s := Run(c, sched);
    assert LinkOf(s, t, At(s, t), P.At(s.session, t));
  }
}
