// Calls on a handle end whenever those on its session do: AbortUpload returns, and
// every claim is given back.
module HandleProgress {
  import opened Common
  import opened HandleState
  import opened HandleProtocol
  import P = UploadProtocol
  import S = UploadState
  import T = UploadTenancy
  import C = UploadCleanup
  import R = UploadRuns
  import U = UploadProgress
  import Sizing = UploadSizing

  predicate NewCall(ev: Event) {
    ev.CallWrite? || ev.CallFinalize? || ev.CallAbort? || (ev.Session? && U.Starts(ev.ev))
  }

  // A step of a call in progress on the handle, or inside its session.
  predicate Moves(c: Sizing.Config, s: System, t: P.Tid, ev: Event)
    requires c.growthInterval > 0 && S.BufferFits(s.session.sh)
  {
    !NewCall(ev) && Step(c, s, t, ev) != s
  }

  ghost predicate Quiet(c: Sizing.Config, s: System)
    requires c.growthInterval > 0 && S.BufferFits(s.session.sh)
  {
    forall t: P.Tid, ev: Event :: !Moves(c, s, t, ev)
  }

  // What the invariants of handle and session say together.
  ghost predicate Sound(c: Sizing.Config, s: System)
    requires c.growthInterval > 0
  {
    Good(c, s) && U.Owned(s.session)
  }

  lemma RunSound(c: Sizing.Config, sched: Schedule)
    requires c.growthInterval > 0
    ensures Sound(c, HandleProtocol.Run(c, sched))
  {
    RunGood(c, sched);
    var inner := SessionRuns(c, sched);
    U.RunOwned(c, inner);
  }

  // --------------------------------------------------------------------- at rest

  // A write inside the session that waits for an earlier one.
  predicate AheadCall(s: System, t: P.Tid) {
    At(s, t).Calling? && U.Ahead(s.session, t)
  }

  // An abort that waits: for calls inside the session, or for another abort.
  predicate AwaitsAbort(s: System, t: P.Tid) {
    || (At(s, t).AbortCalling? && P.At(s.session, t).Draining?)
    || (At(s, t).AbortEntering? && s.handle.state == Aborting)
  }

  lemma SessionMoves(c: Sizing.Config, s: System, t: P.Tid, ev: P.Event)
    requires c.growthInterval > 0 && Sound(c, s) && U.Moves(c, s.session, t, ev)
    ensures Moves(c, s, t, Session(ev))
  {
    assert LinkOf(s, t, At(s, t), P.At(s.session, t));
    U.MovesNearer(c, s.session, t, ev);
    assert Step(c, s, t, Session(ev)).session == P.Step(c, s.session, t, ev);
  }

  // If nothing moves on the handle, nothing moves in the session.
  lemma QuietSession(c: Sizing.Config, s: System)
    requires c.growthInterval > 0 && Sound(c, s) && Quiet(c, s)
    ensures U.Quiet(c, s.session)
  {
    forall t: P.Tid, ev: P.Event ensures !U.Moves(c, s.session, t, ev) {
      if U.Moves(c, s.session, t, ev) {
        SessionMoves(c, s, t, ev);
        assert false;
      }
    }
  }

  lemma GoMoves(c: Sizing.Config, s: System, t: P.Tid)
    requires c.growthInterval > 0 && Sound(c, s)
    requires || At(s, t).Claiming? || At(s, t).Holding? || At(s, t).AbortOwner?
             || (At(s, t).Calling? && P.At(s.session, t).Idle?)
             || (At(s, t).AbortEntering? && s.handle.state != Aborting)
             || (At(s, t).AbortEnded? && (s.handle.calls == 0 || !At(s, t).terminal))
    ensures Moves(c, s, t, Go)
  {
    assert LinkOf(s, t, At(s, t), P.At(s.session, t));
    if At(s, t).Calling? { assert t in s.claims && |s.claims| > 0; }
    assert At(Step(c, s, t, Go), t) != At(s, t);
  }

  // At rest every claim is that of a write ahead of the offset.
  lemma QuietClaim(c: Sizing.Config, s: System, t: P.Tid)
    requires c.growthInterval > 0 && Sound(c, s) && Quiet(c, s) && t in s.claims
    ensures AheadCall(s, t)
  {
    assert LinkOf(s, t, At(s, t), P.At(s.session, t));
    if At(s, t).Holding? || P.At(s.session, t).Idle? {
      GoMoves(c, s, t);
      assert false;
    }
    QuietSession(c, s);
    U.QuietThread(c, s.session, t);
  }

  // No abort is at its end.
  lemma QuietEnded(c: Sizing.Config, s: System, t: P.Tid)
    requires c.growthInterval > 0 && Sound(c, s) && Quiet(c, s)
    ensures !At(s, t).AbortEnded?
  {
    assert LinkOf(s, t, At(s, t), P.At(s.session, t));
    if At(s, t).AbortEnded? {
      if s.claims != {} {
        var u :| u in s.claims;
        QuietClaim(c, s, u);
        assert T.TenancyOf(s.session, u, P.At(s.session, u));
      }
      GoMoves(c, s, t);
      assert false;
    }
  }

  lemma QuietCaller(c: Sizing.Config, s: System, t: P.Tid)
    requires c.growthInterval > 0 && Sound(c, s) && Quiet(c, s)
    ensures At(s, t).Away? || AheadCall(s, t) || AwaitsAbort(s, t)
  {
    assert LinkOf(s, t, At(s, t), P.At(s.session, t));
    QuietEnded(c, s, t);
    if t in s.claims {
      QuietClaim(c, s, t);
    } else if At(s, t).AbortCalling? {
      QuietSession(c, s);
      U.QuietThread(c, s.session, t);
      assert C.CleanupOf(s.session, t, P.At(s.session, t));
      QuietDrains(c, s, t);
    } else if !At(s, t).Away? && !AwaitsAbort(s, t) {
      GoMoves(c, s, t);
      assert false;
    }
  }

  // An abort inside the session is the only one there.
  lemma QuietDrains(c: Sizing.Config, s: System, t: P.Tid)
    requires c.growthInterval > 0 && Sound(c, s) && At(s, t).AbortCalling? && U.BehindAbort(s.session, t)
    ensures P.At(s.session, t).Draining?
  {
    assert LinkOf(s, t, At(s, t), P.At(s.session, t)) && C.CleanupOf(s.session, t, P.At(s.session, t));
    var o := s.session.aborter.value;
    assert LinkOf(s, o, At(s, o), P.At(s.session, o)) && C.CleanupOf(s.session, o, P.At(s.session, o));
  }

  lemma QuietAbort(c: Sizing.Config, s: System, t: P.Tid)
    requires c.growthInterval > 0 && Sound(c, s) && Quiet(c, s) && AwaitsAbort(s, t)
    ensures exists u: P.Tid :: AheadCall(s, u)
  {
    var o := s.owner.value;
    if At(s, t).AbortCalling? { assert LinkOf(s, t, At(s, t), P.At(s.session, t)); }
    assert LinkOf(s, o, At(s, o), P.At(s.session, o));
    QuietEnded(c, s, o);
    QuietCaller(c, s, o);
    QuietSession(c, s);
    U.QuietAbort(c, s.session, o);
    var u: P.Tid :| U.Ahead(s.session, u);
    assert LinkOf(s, u, At(s, u), P.At(s.session, u));
    assert AheadCall(s, u);
  }

  lemma AheadRests(c: Sizing.Config, s: System, t: P.Tid, ev: Event)
    requires c.growthInterval > 0 && Sound(c, s) && AheadCall(s, t) && !NewCall(ev)
    ensures Step(c, s, t, ev) == s
  {
  }

  lemma AbortRests(c: Sizing.Config, s: System, t: P.Tid, ev: Event)
    requires c.growthInterval > 0 && Sound(c, s) && AwaitsAbort(s, t) && !NewCall(ev) && s.session.sh.active > 0
    ensures Step(c, s, t, ev) == s
  {
  }

  // Nothing can move on a handle exactly when every call has ended, but for admitted
  // writes ahead of the offset and, if there are any, aborts that wait for them.
  lemma QuietExactly(c: Sizing.Config, sched: Schedule)
    requires c.growthInterval > 0
    ensures var s := HandleProtocol.Run(c, sched);
      Quiet(c, s) <==>
        && (forall t: P.Tid :: At(s, t).Away? || AheadCall(s, t) || AwaitsAbort(s, t))
        && ((exists t: P.Tid :: AwaitsAbort(s, t)) ==> exists u: P.Tid :: AheadCall(s, u))
  {
    RunSound(c, sched);
    var s := HandleProtocol.Run(c, sched);
    if Quiet(c, s) {
      forall t: P.Tid ensures At(s, t).Away? || AheadCall(s, t) || AwaitsAbort(s, t) { QuietCaller(c, s, t); }
      forall t: P.Tid | AwaitsAbort(s, t) ensures exists u: P.Tid :: AheadCall(s, u) { QuietAbort(c, s, t); }
    } else {
      var t: P.Tid, ev: Event :| Moves(c, s, t, ev);
      if AheadCall(s, t) { AheadRests(c, s, t, ev); }
      if u: P.Tid :| AheadCall(s, u) {
        assert T.TenancyOf(s.session, u, P.At(s.session, u)) && s.session.sh.active > 0;
        if AwaitsAbort(s, t) { AbortRests(c, s, t, ev); }
      }
    }
  }

  // --------------------------------------------------------------- coming to rest

  function CallRank(call: P.Event): nat {
    match call
    case StartWrite(data, _) => 33 + 10 * |data|
    case _ => 32
  }

  // A bound on the steps that a call on the handle has still to take.
  function Rank(l: Caller, inner: P.Thread): nat {
    match l
    case Away => 0
    case Claiming(call) => 3 + CallRank(call)
    case Holding(call) => 2 + CallRank(call)
    case Calling => 1 + U.Rank(inner)
    case AbortEntering => 9
    case AbortOwner => 8
    case AbortCalling => 2 + U.Rank(inner)
    case AbortEnded(_) => 1
  }

  function RankOf(s: System, t: P.Tid): nat {
    Rank(At(s, t), P.At(s.session, t))
  }

  ghost predicate Nearer(s: System, s': System, t: P.Tid) {
    RankOf(s', t) < RankOf(s, t) && forall u: P.Tid :: u != t ==> RankOf(s', u) == RankOf(s, u)
  }

  lemma ClaimingNearer(c: Sizing.Config, s: System, t: P.Tid, ev: Event)
    requires c.growthInterval > 0 && Sound(c, s) && Moves(c, s, t, ev) && At(s, t).Claiming?
    ensures Nearer(s, Step(c, s, t, ev), t)
  {
  }

  lemma OutsideNearer(c: Sizing.Config, s: System, t: P.Tid, ev: Event)
    requires c.growthInterval > 0 && Sound(c, s) && Moves(c, s, t, ev)
    requires At(s, t).AbortEntering? || At(s, t).AbortEnded?
    ensures Nearer(s, Step(c, s, t, ev), t)
  {
  }

  // Entering the session.
  lemma EnterNearer(c: Sizing.Config, s: System, t: P.Tid, ev: Event)
    requires c.growthInterval > 0 && Sound(c, s) && Moves(c, s, t, ev)
    requires At(s, t).Holding? || At(s, t).AbortOwner?
    ensures Nearer(s, Step(c, s, t, ev), t)
  {
    assert LinkOf(s, t, At(s, t), P.At(s.session, t));
  }

  lemma InnerNearer(c: Sizing.Config, s: System, t: P.Tid, ev: P.Event)
    requires c.growthInterval > 0 && Sound(c, s) && !U.Starts(ev) && P.Step(c, s.session, t, ev) != s.session
    ensures var session := P.Step(c, s.session, t, ev);
      && U.Rank(P.At(session, t)) < U.Rank(P.At(s.session, t))
      && forall u: P.Tid :: u != t ==> P.At(session, u) == P.At(s.session, u)
  {
    U.MovesNearer(c, s.session, t, ev);
  }

  lemma CallingNearer(c: Sizing.Config, s: System, t: P.Tid, ev: Event)
    requires c.growthInterval > 0 && Sound(c, s) && Moves(c, s, t, ev) && At(s, t).Calling?
    ensures Nearer(s, Step(c, s, t, ev), t)
  {
    if ev.Session? && P.Step(c, s.session, t, ev.ev) != s.session { InnerNearer(c, s, t, ev.ev); }
  }

  lemma AbortNearer(c: Sizing.Config, s: System, t: P.Tid, ev: Event)
    requires c.growthInterval > 0 && Sound(c, s) && Moves(c, s, t, ev) && At(s, t).AbortCalling?
    ensures Nearer(s, Step(c, s, t, ev), t)
  {
    assert LinkOf(s, t, At(s, t), P.At(s.session, t));
    if ev.Session? && P.Step(c, s.session, t, ev.ev) != s.session { InnerNearer(c, s, t, ev.ev); }
  }

  // Every step of a call brings it nearer to its end and no other call further away.
  lemma MovesNearer(c: Sizing.Config, s: System, t: P.Tid, ev: Event)
    requires c.growthInterval > 0 && Sound(c, s) && Moves(c, s, t, ev)
    ensures Nearer(s, Step(c, s, t, ev), t)
  {
    match At(s, t)
    case Away =>
    case Claiming(_) => ClaimingNearer(c, s, t, ev);
    case AbortEntering => OutsideNearer(c, s, t, ev);
    case AbortEnded(_) => OutsideNearer(c, s, t, ev);
    case Holding(_) => EnterNearer(c, s, t, ev);
    case AbortOwner => EnterNearer(c, s, t, ev);
    case Calling => CallingNearer(c, s, t, ev);
    case AbortCalling => AbortNearer(c, s, t, ev);
  }

  function Total(s: System, n: nat): nat {
    if n == 0 then 0 else Total(s, n - 1) + RankOf(s, n - 1)
  }

  // Threads from `n` on are not in a call.
  ghost predicate Within(s: System, n: nat) {
    forall t: P.Tid :: t >= n ==> RankOf(s, t) == 0
  }

  lemma {:induction false} TotalNearer(s: System, s': System, t: P.Tid, n: nat)
    requires Nearer(s, s', t)
    ensures if t < n then Total(s', n) < Total(s, n) else Total(s', n) == Total(s, n)
  {
    if n > 0 { TotalNearer(s, s', t, n - 1); }
  }

  // A schedule after `sched` in which every step is one of a call in progress.
  ghost predicate Working(c: Sizing.Config, sched: Schedule, more: Schedule)
    requires c.growthInterval > 0
  {
    |more| == 0
    || (&& Working(c, sched, more[..|more| - 1])
        && Moves(c, HandleProtocol.Run(c, sched + more[..|more| - 1]), more[|more| - 1].0, more[|more| - 1].1))
  }

  lemma RunOne(c: Sizing.Config, before: Schedule, step: (P.Tid, Event), all: Schedule)
    requires c.growthInterval > 0 && all == before + [step]
    ensures HandleProtocol.Run(c, all) == Step(c, HandleProtocol.Run(c, before), step.0, step.1)
  {
    assert all[..|all| - 1] == before;
  }

  // Without new calls only so many steps are left.
  lemma {:induction false} CallsEnd(c: Sizing.Config, sched: Schedule, more: Schedule, n: nat)
    requires c.growthInterval > 0 && Working(c, sched, more) && Within(HandleProtocol.Run(c, sched), n)
    ensures Within(HandleProtocol.Run(c, sched + more), n)
    ensures |more| + Total(HandleProtocol.Run(c, sched + more), n) <= Total(HandleProtocol.Run(c, sched), n)
  {
    if |more| == 0 {
      assert sched + more == sched;
    } else {
      var init, step := more[..|more| - 1], more[|more| - 1];
      var s := HandleProtocol.Run(c, sched + init);
      CallsEnd(c, sched, init, n);
      RunSound(c, sched + init);
      U.Joined(sched, more);
      RunOne(c, sched + init, step, sched + more);
      MovesNearer(c, s, step.0, step.1);
      TotalNearer(s, Step(c, s, step.0, step.1), step.0, n);
    }
  }

  lemma {:induction false} ComesToRest(c: Sizing.Config, sched: Schedule, sofar: Schedule, n: nat)
      returns (more: Schedule)
    requires c.growthInterval > 0 && Working(c, sched, sofar) && Within(HandleProtocol.Run(c, sched + sofar), n)
    ensures Working(c, sched, more) && Quiet(c, HandleProtocol.Run(c, sched + more))
    decreases Total(HandleProtocol.Run(c, sched + sofar), n)
  {
    var s := HandleProtocol.Run(c, sched + sofar);
    if Quiet(c, s) {
      return sofar;
    }
    var t: P.Tid, ev: Event :| Moves(c, s, t, ev);
    var next := sofar + [(t, ev)];
    assert next[..|next| - 1] == sofar;
    RunSound(c, sched + sofar);
    U.Joined(sched, next);
    RunOne(c, sched + sofar, (t, ev), sched + next);
    MovesNearer(c, s, t, ev);
    TotalNearer(s, Step(c, s, t, ev), t, n);
    more := ComesToRest(c, sched, next, n);
  }

  // The offset of a write that has not reached the session yet.
  function Offset(l: Caller): nat {
    if (l.Claiming? || l.Holding?) && l.call.StartWrite? then l.call.location else 0
  }

  ghost predicate NoneAhead(s: System) {
    U.NoneAhead(s.session) && forall t: P.Tid :: Offset(At(s, t)) <= s.session.sh.nextOffset
  }

  lemma StepCallers(c: Sizing.Config, s: System, t: P.Tid, ev: Event)
    requires c.growthInterval > 0 && S.BufferFits(s.session.sh) && !NewCall(ev)
    ensures Offset(At(Step(c, s, t, ev), t)) <= Offset(At(s, t))
    ensures forall u: P.Tid :: u != t ==> At(Step(c, s, t, ev), u) == At(s, u)
  {
  }

  // The session does not move, or moves and keeps its side of it.
  lemma CallersNoneAhead(s: System, s': System, t: P.Tid)
    requires NoneAhead(s) && U.NoneAhead(s'.session) && s'.session.sh.nextOffset >= s.session.sh.nextOffset
    requires Offset(At(s', t)) <= Offset(At(s, t)) && forall u: P.Tid :: u != t ==> At(s', u) == At(s, u)
    ensures NoneAhead(s')
  {
    forall u: P.Tid ensures Offset(At(s', u)) <= s'.session.sh.nextOffset {
      assert Offset(At(s, u)) <= s.session.sh.nextOffset;
    }
  }

  lemma EnterNoneAhead(c: Sizing.Config, s: System, t: P.Tid)
    requires c.growthInterval > 0 && Sound(c, s) && NoneAhead(s) && At(s, t).Holding?
    ensures U.NoneAhead(P.Step(c, s.session, t, At(s, t).call))
    ensures P.Step(c, s.session, t, At(s, t).call).sh == s.session.sh
  {
    assert LinkOf(s, t, At(s, t), P.At(s.session, t));
    assert Offset(At(s, t)) <= s.session.sh.nextOffset;
    var session := P.Step(c, s.session, t, At(s, t).call);
    forall u: P.Tid ensures U.Offset(P.At(session, u)) <= session.sh.nextOffset {
      assert U.Offset(P.At(s.session, u)) <= s.session.sh.nextOffset;
    }
  }

  lemma AbortNoneAhead(c: Sizing.Config, s: System, t: P.Tid)
    requires c.growthInterval > 0 && Sound(c, s) && NoneAhead(s) && P.At(s.session, t).Idle?
    ensures U.NoneAhead(P.Step(c, s.session, t, P.StartAbort))
    ensures P.Step(c, s.session, t, P.StartAbort).sh == s.session.sh
  {
    var session := P.Step(c, s.session, t, P.StartAbort);
    forall u: P.Tid ensures U.Offset(P.At(session, u)) <= session.sh.nextOffset {
      assert U.Offset(P.At(s.session, u)) <= s.session.sh.nextOffset;
    }
  }

  lemma InnerNoneAhead(c: Sizing.Config, s: System, t: P.Tid, ev: P.Event)
    requires c.growthInterval > 0 && Sound(c, s) && NoneAhead(s) && !U.Starts(ev)
    ensures U.NoneAhead(P.Step(c, s.session, t, ev))
    ensures P.Step(c, s.session, t, ev).sh.nextOffset >= s.session.sh.nextOffset
  {
    if P.Step(c, s.session, t, ev) != s.session { U.MovesNoneAhead(c, s.session, t, ev); }
    R.StepSafe(c, s.session, t, ev);
    R.StepForward(c, s.session, t, ev);
  }

  lemma MovesNoneAhead(c: Sizing.Config, s: System, t: P.Tid, ev: Event)
    requires c.growthInterval > 0 && Sound(c, s) && NoneAhead(s) && Moves(c, s, t, ev)
    ensures NoneAhead(Step(c, s, t, ev))
  {
    assert LinkOf(s, t, At(s, t), P.At(s.session, t));
    match At(s, t) {
      case Holding(_) => EnterNoneAhead(c, s, t);
      case AbortOwner => AbortNoneAhead(c, s, t);
      case Calling => if ev.Session? { InnerNoneAhead(c, s, t, ev.ev); }
      case AbortCalling => if ev.Session? { InnerNoneAhead(c, s, t, ev.ev); }
      case _ =>
    }
    StepCallers(c, s, t, ev);
    CallersNoneAhead(s, Step(c, s, t, ev), t);
  }

  lemma {:induction false} WorkingNoneAhead(c: Sizing.Config, sched: Schedule, more: Schedule)
    requires c.growthInterval > 0 && Working(c, sched, more) && NoneAhead(HandleProtocol.Run(c, sched))
    ensures NoneAhead(HandleProtocol.Run(c, sched + more))
  {
    if |more| == 0 {
      assert sched + more == sched;
    } else {
      var init, step := more[..|more| - 1], more[|more| - 1];
      WorkingNoneAhead(c, sched, init);
      RunSound(c, sched + init);
      U.Joined(sched, more);
      RunOne(c, sched + init, step, sched + more);
      MovesNoneAhead(c, HandleProtocol.Run(c, sched + init), step.0, step.1);
    }
  }

  lemma NobodyLinked(s: System)
    requires Link(s) && forall t: P.Tid :: At(s, t).Away?
    ensures s.claims == {} && s.handle.calls == 0 && s.handle.state != Aborting
  {
    forall t: P.Tid ensures t !in s.claims && s.owner != Some(t) {
      assert LinkOf(s, t, At(s, t), P.At(s.session, t));
    }
  }

  lemma RestEnds(c: Sizing.Config, s: System, t: P.Tid)
    requires c.growthInterval > 0 && Sound(c, s) && Quiet(c, s) && NoneAhead(s)
    ensures At(s, t).Away? && P.At(s.session, t).Idle? && s.handle.calls == 0 && s.handle.state != Aborting
  {
    forall u: P.Tid ensures !AheadCall(s, u) {
      assert U.Offset(P.At(s.session, u)) <= s.session.sh.nextOffset;
    }
    forall u: P.Tid ensures At(s, u).Away? {
      QuietCaller(c, s, u);
      if AwaitsAbort(s, u) { QuietAbort(c, s, u); }
    }
    NobodyLinked(s);
    assert LinkOf(s, t, At(s, t), P.At(s.session, t));
  }

  // If no write is ahead of the offset when the last call is made, then wherever the
  // calls in progress come to rest everybody is away, every claim is given back and
  // no abort is pending.
  lemma AllCallsEnd(c: Sizing.Config, sched: Schedule, more: Schedule, t: P.Tid)
    requires c.growthInterval > 0 && NoneAhead(HandleProtocol.Run(c, sched))
    requires Working(c, sched, more) && Quiet(c, HandleProtocol.Run(c, sched + more))
    ensures var s := HandleProtocol.Run(c, sched + more);
      At(s, t).Away? && P.At(s.session, t).Idle? && s.handle.calls == 0 && s.handle.state != Aborting
  {
    WorkingNoneAhead(c, sched, more);
    RunSound(c, sched + more);
    RestEnds(c, HandleProtocol.Run(c, sched + more), t);
  }
}
