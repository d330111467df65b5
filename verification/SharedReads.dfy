// Any number of reads of one file at the same time: they share its range probe, the
// copy that a full download publishes and the right to download. Each step is one
// critical section of those two, one response of the server or one chunk of it.
module SharedReads {
  import opened Common
  import R = RangeRead
  import P = RangeProbe
  import C = CachedFiles

  type Tid = nat

  // What a read asks for; `length` is the size that its handle believes in.
  datatype Ask = Ask(buffer: Bytes, location: nat, length: nat, config: R.ReadConfig)

  // The place in ReadAtWithFallback; `again` after a full download.
  datatype Phase =
    | Looking(again: bool)
    | Probing(again: bool)                                   // constructing the guard
    | Requesting(again: bool, attempts: seq<R.Attempt>)
    | Getting                                                // the loop of FullDownload
    | Starting
    | Fetching(status: Option<nat>)                          // status of the last response
    | Checking(data: Bytes)

  datatype Thread = Idle | Busy(ask: Ask, phase: Phase)

  datatype Outcome = Outcome(ask: Ask, result: R.ReadResult)

  // The guard of the read of thread `t` is guard `t`.
  datatype System = System(probe: P.State, file: C.State, threads: map<Tid, Thread>, outcomes: seq<Outcome>)

  const Begin := System(P.Start, C.Start, map[], [])

  // `Drop` is an invalidation from elsewhere.
  datatype Event =
    | Read(ask: Ask)
    | Run
    | Attempt(response: R.Attempt)
    | End(end: R.Final)
    | FetchResponse(status: nat, etagOk: bool)
    | FetchChunk(piece: Bytes)
    | FetchEnd(end: R.Final)
    | Drop

  function At(s: System, t: Tid): Thread {
    if t in s.threads then s.threads[t] else Idle
  }

  function Move(s: System, t: Tid, ask: Ask, phase: Phase): System {
    s.(threads := s.threads[t := Busy(ask, phase)])
  }

  function Finish(s: System, t: Tid, ask: Ask, result: R.ReadResult): System {
    s.(threads := s.threads[t := Idle], outcomes := s.outcomes + [Outcome(ask, result)])
  }

  function OnProbe(s: System, ev: P.Event): System {
    s.(probe := P.Step(s.probe, ev))
  }

  function OnFile(s: System, ev: C.Event): System {
    s.(file := C.Step(s.file, ev))
  }

  const NOTHING := R.Exchange([], R.Final(0, true, false))

  // ReadAt without a range request.
  predicate Answered(s: System, ask: Ask) {
    |ask.buffer| > R.B.MAX_INDEX - ask.location || s.file.cached.Some? || |ask.buffer| == 0
  }

  function StepLooking(s: System, t: Tid, ask: Ask, again: bool): System {
    if Answered(s, ask) then
      var r := R.ReadAt(ask.buffer, ask.location, R.Environment(s.file.cached, false, NOTHING), ask.config);
      Finish(OnFile(s, C.TryGetHandle), t, ask, r)
    else Move(OnProbe(s, P.Construct(t, ask.config.fallback)), t, ask, Probing(again))
  }

  function Decline(s: System, t: Tid, ask: Ask, again: bool): System {
    if again || !ask.config.fallback then Finish(s, t, ask, R.Raised) else Move(s, t, ask, Getting)
  }

  function StepProbing(s: System, t: Tid, ask: Ask, again: bool): System {
    if t !in s.probe.guards then s
    else
      match s.probe.guards[t]
      case Loading(_) => OnProbe(s, P.Load(t))
      case Waiting => OnProbe(s, P.Admit(t))
      case Live(_, support, _) =>
        if support == P.NotSupported && ask.config.fallback then Decline(OnProbe(s, P.Destroy(t)), t, ask, again)
        else Move(s, t, ask, Requesting(again, []))
      case Moved => s
  }

  function Ran(ask: Ask, attempts: seq<R.Attempt>): Option<R.Transfer> {
    R.RunAttempts(R.Empty(ask.buffer), attempts, ask.config.conditional)
  }

  // What the callbacks of a response have told the probe.
  function Tell(p: P.State, t: Tid, before: seq<R.Mark>, after: seq<R.Mark>): P.State {
    if |after| <= |before| then p
    else if after[|after| - 1].MarkSupported? then P.Step(p, P.MarkSupported(t))
    else P.Step(p, P.MarkNotSupported(t))
  }

  function StepAttempt(s: System, t: Tid, ask: Ask, again: bool, attempts: seq<R.Attempt>, a: R.Attempt): System {
    match (Ran(ask, attempts), Ran(ask, attempts + [a]))
    case (Some(before), Some(after)) =>
      Move(s, t, ask, Requesting(again, attempts + [a])).(probe := Tell(s.probe, t, before.marks, after.marks))
    case _ => Finish(OnProbe(s, P.Destroy(t)), t, ask, R.Raised)
  }

  // What the end of the request tells it.
  function Concluded(s: System, t: Tid, ask: Ask, attempts: seq<R.Attempt>, end: R.Final): System {
    if Ran(ask, attempts).None? then s
    else
      var before := Ran(ask, attempts).value;
      match R.Finalize(before, end)
      case Responded(after) => s.(probe := Tell(s.probe, t, before.marks, after.marks))
      case _ => s
  }

  function StepEnd(s: System, t: Tid, ask: Ask, again: bool, attempts: seq<R.Attempt>, end: R.Final): System {
    var s1 := OnProbe(Concluded(s, t, ask, attempts, end), P.Destroy(t));
    match R.TryRangeRequest(ask.buffer, false, R.Exchange(attempts, end), ask.config)
    case Declined => Decline(s1, t, ask, again)
    case r => Finish(s1, t, ask, r)
  }

  function StepGetting(s: System, t: Tid, ask: Ask): System {
    if s.file.cached.Some? then Move(OnFile(s, C.TryGetHandle), t, ask, Checking(s.file.cached.value))
    else Move(s, t, ask, Starting)
  }

  function StepStarting(s: System, t: Tid, ask: Ask): System {
    if s.file.downloading then s
    else
      var s1 := OnFile(s, C.StartDownload(t));
      Move(s1, t, ask, if t in s1.file.downloads then Fetching(None) else Getting)
  }

  function StepFetchResponse(s: System, t: Tid, ask: Ask, status: nat, etagOk: bool): System {
    if status == 412 && ask.config.conditional then Move(s, t, ask, Fetching(Some(status)))
    else if status >= 400 || (status < 300 && !etagOk) then Finish(OnFile(s, C.Abort(t)), t, ask, R.Raised)
    else Move(OnFile(s, C.Reset(t)), t, ask, Fetching(Some(status)))
  }

  function StepFetchEnd(s: System, t: Tid, ask: Ask, end: R.Final): System {
    if end.requestError || end.status != 200 || t !in s.file.downloads then
      Finish(OnFile(s, C.Abort(t)), t, ask, R.Raised)
    else Move(OnFile(s, C.Finalize(t)), t, ask, Checking(s.file.downloads[t].data))
  }

  function StepChecking(s: System, t: Tid, ask: Ask, data: Bytes): System {
    if |data| != ask.length then Finish(OnFile(s, C.Invalidate), t, ask, R.Raised)
    else Move(s, t, ask, Looking(true))
  }

  function Step(s: System, t: Tid, ev: Event): System {
    match (At(s, t), ev)
    case (_, Drop) => OnFile(s, C.Invalidate)
    case (Idle, Read(ask)) => Move(s, t, ask, Looking(false))
    case (Busy(ask, Looking(again)), Run) => StepLooking(s, t, ask, again)
    case (Busy(ask, Probing(again)), Run) => StepProbing(s, t, ask, again)
    case (Busy(ask, Requesting(again, attempts)), Attempt(a)) => StepAttempt(s, t, ask, again, attempts, a)
    case (Busy(ask, Requesting(again, attempts)), End(end)) => StepEnd(s, t, ask, again, attempts, end)
    case (Busy(ask, Getting), Run) => StepGetting(s, t, ask)
    case (Busy(ask, Starting), Run) => StepStarting(s, t, ask)
    case (Busy(ask, Fetching(_)), FetchResponse(status, etagOk)) => StepFetchResponse(s, t, ask, status, etagOk)
    case (Busy(ask, Fetching(status)), FetchChunk(piece)) => if status.Some? then OnFile(s, C.Append(t, piece)) else s
    case (Busy(ask, Fetching(_)), FetchEnd(end)) => StepFetchEnd(s, t, ask, end)
    case (Busy(ask, Checking(data)), Run) => StepChecking(s, t, ask, data)
    case _ => s
  }

  // ------------------------------------------------------------------- the server

  predicate InObject(ask: Ask, object_: Bytes) {
    ask.location + |ask.buffer| <= |object_|
  }

  // A range request ends as RangeRead has it, and not in one of the ways that
  // the code does not check; a full GET brings the object from its beginning, and
  // its final response is the last one seen.
  ghost predicate Honest(s: System, t: Tid, ev: Event, object_: Bytes) {
    match (At(s, t), ev)
    case (Busy(ask, Requesting(_, attempts)), End(end)) =>
      InObject(ask, object_) ==>
        && !R.UncheckedExchange(R.Exchange(attempts, end), ask.location, |ask.buffer|)
        && R.Honest(R.Exchange(attempts, end), object_, ask.location, |ask.buffer|)
    case (Busy(_, Fetching(status)), FetchChunk(piece)) =>
      status == Some(200) && t in s.file.downloads ==> s.file.downloads[t].data + piece <= object_
    case (Busy(_, Fetching(status)), FetchEnd(end)) => !end.requestError && end.status == 200 ==> status == Some(200)
    case _ => true
  }

  // --------------------------------------------------------------------- invariant

  predicate Guarded(l: Thread) {
    l.Busy? && (l.phase.Probing? || l.phase.Requesting?)
  }

  ghost predicate ThreadOk(s: System, t: Tid, l: Thread, object_: Bytes) {
    && (Guarded(l) <==> t in s.probe.guards)
    && (Guarded(l) && l.phase.Requesting? ==>
          s.probe.guards[t].Live? && s.probe.guards[t].enabled == l.ask.config.fallback)
    && (Guarded(l) && s.probe.guards[t].Loading? ==> s.probe.guards[t].enabled == l.ask.config.fallback)
    && (Guarded(l) && s.probe.guards[t].Live? ==> s.probe.guards[t].enabled == l.ask.config.fallback)
    && (Guarded(l) && s.probe.guards[t].Waiting? ==> l.ask.config.fallback)
    && (l.Busy? && l.phase.Fetching? <==> t in s.file.downloads)
    && (l.Busy? && l.phase == Fetching(Some(200)) ==> s.file.downloads[t].data <= object_)
    && (l.Busy? && l.phase.Checking? ==> l.phase.data <= object_)
  }

  predicate OutcomeOk(o: Outcome, object_: Bytes) {
    && !o.result.Declined?
    && (o.result.Filled? && InObject(o.ask, object_) ==>
          o.result.buffer == object_[o.ask.location..o.ask.location + |o.ask.buffer|])
  }

  ghost predicate Safe(s: System, object_: Bytes) {
    && P.Safe(s.probe) && C.Safe(s.file)
    && (s.file.cached.Some? ==> s.file.cached.value <= object_)
    && (forall t: Tid :: ThreadOk(s, t, At(s, t), object_))
    && (forall o :: o in s.outcomes ==> OutcomeOk(o, object_))
  }

  // A step of `t` that concerns only its own guard and its own download.
  ghost predicate Local(s: System, s': System, t: Tid) {
    && (forall u: Tid :: u != t ==> At(s', u) == At(s, u))
    && s'.probe.guards - {t} == s.probe.guards - {t}
    && s'.file.downloads - {t} == s.file.downloads - {t}
  }

  lemma LocalSafe(s: System, s': System, t: Tid, object_: Bytes)
    requires Safe(s, object_) && Local(s, s', t) && P.Safe(s'.probe) && C.Safe(s'.file)
    requires s'.file.cached.Some? ==> s'.file.cached.value <= object_
    requires ThreadOk(s', t, At(s', t), object_)
    requires forall o :: o in s'.outcomes ==> OutcomeOk(o, object_)
    ensures Safe(s', object_)
  {
    forall u: Tid ensures ThreadOk(s', u, At(s', u), object_) {
      if u != t {
        assert ThreadOk(s, u, At(s, u), object_) && At(s', u) == At(s, u);
        assert u in s'.probe.guards <==> u in s'.probe.guards - {t};
        assert u in s.probe.guards <==> u in s.probe.guards - {t};
        assert u in s'.file.downloads <==> u in s'.file.downloads - {t};
        assert u in s.file.downloads <==> u in s.file.downloads - {t};
        assert u in s.probe.guards ==> s'.probe.guards[u] == (s'.probe.guards - {t})[u] == s.probe.guards[u];
        assert u in s.file.downloads ==> s'.file.downloads[u] == (s'.file.downloads - {t})[u] == s.file.downloads[u];
      }
    }
  }

  lemma Outcomes(s: System, ask: Ask, result: R.ReadResult, object_: Bytes)
    requires forall o :: o in s.outcomes ==> OutcomeOk(o, object_)
    requires OutcomeOk(Outcome(ask, result), object_)
    ensures forall o :: o in s.outcomes + [Outcome(ask, result)] ==> OutcomeOk(o, object_)
  {
  }

  // An event of guard `t` leaves the other guards alone.
  lemma ProbeLocal(p: P.State, t: Tid, ev: P.Event)
    requires P.Safe(p) && !ev.MoveTo? && ev.g == t
    ensures P.Safe(P.Step(p, ev)) && P.Step(p, ev).guards - {t} == p.guards - {t}
  {
    P.StepSafe(p, ev);
  }

  lemma FileLocal(f: C.State, t: Tid, ev: C.Event)
    requires C.Safe(f) && (ev.TryGetHandle? || ev.Invalidate? || ev.t == t)
    ensures C.Safe(C.Step(f, ev)) && C.Step(f, ev).downloads - {t} == f.downloads - {t}
  {
    C.StepSafe(f, ev);
  }

  // ------------------------------------------------------------------ looking, probing

  lemma LookingSafe(s: System, t: Tid, ask: Ask, again: bool, object_: Bytes)
    requires Safe(s, object_) && At(s, t) == Busy(ask, Looking(again))
    ensures Safe(StepLooking(s, t, ask, again), object_)
  {
    var s' := StepLooking(s, t, ask, again);
    assert ThreadOk(s, t, At(s, t), object_);
    if Answered(s, ask) {
      var r := R.ReadAt(ask.buffer, ask.location, R.Environment(s.file.cached, false, NOTHING), ask.config);
      FileLocal(s.file, t, C.TryGetHandle);
      Outcomes(s, ask, r, object_);
    } else {
      ProbeLocal(s.probe, t, P.Construct(t, ask.config.fallback));
    }
    LocalSafe(s, s', t, object_);
  }

  // Leaving a range request: the guard goes.
  lemma GuardGoes(s: System, t: Tid)
    requires P.Safe(s.probe) && t in s.probe.guards && s.probe.guards[t].Live?
    ensures var p := P.Step(s.probe, P.Destroy(t));
      P.Safe(p) && t !in p.guards && p.guards - {t} == s.probe.guards - {t}
  {
    ProbeLocal(s.probe, t, P.Destroy(t));
  }

  lemma LeaveSafe(s: System, t: Tid, ask: Ask, r: R.ReadResult, object_: Bytes)
    requires Safe(s, object_) && Guarded(At(s, t)) && s.probe.guards[t].Live? && OutcomeOk(Outcome(ask, r), object_)
    ensures Safe(Finish(OnProbe(s, P.Destroy(t)), t, ask, r), object_)
  {
    assert ThreadOk(s, t, At(s, t), object_);
    GuardGoes(s, t);
    Outcomes(s, ask, r, object_);
    LocalSafe(s, Finish(OnProbe(s, P.Destroy(t)), t, ask, r), t, object_);
  }

  lemma FallBackSafe(s: System, t: Tid, ask: Ask, object_: Bytes)
    requires Safe(s, object_) && Guarded(At(s, t)) && s.probe.guards[t].Live?
    ensures Safe(Move(OnProbe(s, P.Destroy(t)), t, ask, Getting), object_)
  {
    assert ThreadOk(s, t, At(s, t), object_);
    GuardGoes(s, t);
    LocalSafe(s, Move(OnProbe(s, P.Destroy(t)), t, ask, Getting), t, object_);
  }

  lemma DeclineSafe(s: System, t: Tid, ask: Ask, again: bool, object_: Bytes)
    requires Safe(s, object_) && Guarded(At(s, t)) && s.probe.guards[t].Live?
    ensures Safe(Decline(OnProbe(s, P.Destroy(t)), t, ask, again), object_)
  {
    LeaveSafe(s, t, ask, R.Raised, object_);
    FallBackSafe(s, t, ask, object_);
  }

  lemma ProbingSafe(s: System, t: Tid, ask: Ask, again: bool, object_: Bytes)
    requires Safe(s, object_) && At(s, t) == Busy(ask, Probing(again))
    ensures Safe(StepProbing(s, t, ask, again), object_)
  {
    assert ThreadOk(s, t, At(s, t), object_);
    match s.probe.guards[t]
    case Loading(_) =>
      ProbeLocal(s.probe, t, P.Load(t));
      LocalSafe(s, OnProbe(s, P.Load(t)), t, object_);
    case Waiting =>
      ProbeLocal(s.probe, t, P.Admit(t));
      LocalSafe(s, OnProbe(s, P.Admit(t)), t, object_);
    case Live(_, support, _) =>
      if support == P.NotSupported && ask.config.fallback {
        DeclineSafe(s, t, ask, again, object_);
      } else {
        LocalSafe(s, Move(s, t, ask, Requesting(again, [])), t, object_);
      }
    case Moved =>
  }

  // ------------------------------------------------------------------ range requests

  // Marking keeps a guard alive and enabled as it was.
  lemma TellSafe(s: System, t: Tid, ev: P.Event, object_: Bytes)
    requires Safe(s, object_) && Guarded(At(s, t)) && At(s, t).phase.Requesting?
    requires ev == P.MarkSupported(t) || ev == P.MarkNotSupported(t)
    ensures Safe(OnProbe(s, ev), object_)
  {
    assert ThreadOk(s, t, At(s, t), object_);
    ProbeLocal(s.probe, t, ev);
    LocalSafe(s, OnProbe(s, ev), t, object_);
  }

  lemma AttemptSafe(s: System, t: Tid, ask: Ask, again: bool, attempts: seq<R.Attempt>, a: R.Attempt, object_: Bytes)
    requires Safe(s, object_) && At(s, t) == Busy(ask, Requesting(again, attempts))
    ensures Safe(StepAttempt(s, t, ask, again, attempts, a), object_)
  {
    assert ThreadOk(s, t, At(s, t), object_);
    match (Ran(ask, attempts), Ran(ask, attempts + [a]))
    case (Some(before), Some(after)) =>
      var s1 := s.(probe := Tell(s.probe, t, before.marks, after.marks));
      if |after.marks| > |before.marks| {
        TellSafe(s, t, P.MarkSupported(t), object_);
        TellSafe(s, t, P.MarkNotSupported(t), object_);
      }
      assert Safe(s1, object_) && ThreadOk(s1, t, At(s1, t), object_);
      LocalSafe(s1, Move(s1, t, ask, Requesting(again, attempts + [a])), t, object_);
    case _ => LeaveSafe(s, t, ask, R.Raised, object_);
  }

  lemma EndOutcome(ask: Ask, attempts: seq<R.Attempt>, end: R.Final, object_: Bytes)
    requires InObject(ask, object_) ==>
      && !R.UncheckedExchange(R.Exchange(attempts, end), ask.location, |ask.buffer|)
      && R.Honest(R.Exchange(attempts, end), object_, ask.location, |ask.buffer|)
    ensures var r := R.TryRangeRequest(ask.buffer, false, R.Exchange(attempts, end), ask.config);
      !r.Declined? ==> OutcomeOk(Outcome(ask, r), object_)
  {
    if InObject(ask, object_) {
      R.RangeExact(ask.buffer, false, R.Exchange(attempts, end), ask.config, object_, ask.location);
    }
  }

  lemma ConcludedSafe(s: System, t: Tid, ask: Ask, attempts: seq<R.Attempt>, end: R.Final, object_: Bytes)
    requires Safe(s, object_) && At(s, t).Busy? && At(s, t).phase.Requesting?
    ensures Safe(Concluded(s, t, ask, attempts, end), object_)
    ensures Concluded(s, t, ask, attempts, end).threads == s.threads
  {
    assert ThreadOk(s, t, At(s, t), object_);
    TellSafe(s, t, P.MarkSupported(t), object_);
    TellSafe(s, t, P.MarkNotSupported(t), object_);
    var s1 := Concluded(s, t, ask, attempts, end);
    assert s1 == s || s1 == OnProbe(s, P.MarkSupported(t)) || s1 == OnProbe(s, P.MarkNotSupported(t));
  }

  lemma EndSafe(s: System, t: Tid, ask: Ask, again: bool, attempts: seq<R.Attempt>, end: R.Final, object_: Bytes)
    requires Safe(s, object_) && At(s, t) == Busy(ask, Requesting(again, attempts)) && Honest(s, t, End(end), object_)
    ensures Safe(StepEnd(s, t, ask, again, attempts, end), object_)
  {
    ConcludedSafe(s, t, ask, attempts, end, object_);
    var s1 := Concluded(s, t, ask, attempts, end);
    assert ThreadOk(s1, t, At(s1, t), object_);
    EndOutcome(ask, attempts, end, object_);
    match R.TryRangeRequest(ask.buffer, false, R.Exchange(attempts, end), ask.config)
    case Declined => DeclineSafe(s1, t, ask, again, object_);
    case r => LeaveSafe(s1, t, ask, r, object_);
  }

  // ------------------------------------------------------------------ full downloads

  lemma GettingSafe(s: System, t: Tid, ask: Ask, object_: Bytes)
    requires Safe(s, object_) && At(s, t) == Busy(ask, Getting)
    ensures Safe(StepGetting(s, t, ask), object_)
  {
    assert ThreadOk(s, t, At(s, t), object_);
    FileLocal(s.file, t, C.TryGetHandle);
    LocalSafe(s, StepGetting(s, t, ask), t, object_);
  }

  lemma StartingSafe(s: System, t: Tid, ask: Ask, object_: Bytes)
    requires Safe(s, object_) && At(s, t) == Busy(ask, Starting)
    ensures Safe(StepStarting(s, t, ask), object_)
  {
    assert ThreadOk(s, t, At(s, t), object_);
    if !s.file.downloading {
      FileLocal(s.file, t, C.StartDownload(t));
      LocalSafe(s, StepStarting(s, t, ask), t, object_);
    }
  }

  // Giving a download up.
  lemma FetchRaises(s: System, t: Tid, ask: Ask, object_: Bytes)
    requires Safe(s, object_) && At(s, t).Busy? && At(s, t).phase.Fetching?
    ensures Safe(Finish(OnFile(s, C.Abort(t)), t, ask, R.Raised), object_)
  {
    assert ThreadOk(s, t, At(s, t), object_);
    FileLocal(s.file, t, C.Abort(t));
    Outcomes(s, ask, R.Raised, object_);
    LocalSafe(s, Finish(OnFile(s, C.Abort(t)), t, ask, R.Raised), t, object_);
  }

  lemma FetchResponseSafe(s: System, t: Tid, ask: Ask, status: nat, etagOk: bool, object_: Bytes)
    requires Safe(s, object_) && At(s, t).Busy? && At(s, t).phase.Fetching? && At(s, t).ask == ask
    ensures Safe(StepFetchResponse(s, t, ask, status, etagOk), object_)
  {
    assert ThreadOk(s, t, At(s, t), object_);
    if status == 412 && ask.config.conditional {
      LocalSafe(s, StepFetchResponse(s, t, ask, status, etagOk), t, object_);
    } else if status >= 400 || (status < 300 && !etagOk) {
      FetchRaises(s, t, ask, object_);
    } else {
      FileLocal(s.file, t, C.Reset(t));
      LocalSafe(s, StepFetchResponse(s, t, ask, status, etagOk), t, object_);
    }
  }

  lemma FetchChunkSafe(s: System, t: Tid, piece: Bytes, object_: Bytes)
    requires Safe(s, object_) && At(s, t).Busy? && At(s, t).phase.Fetching?
    requires Honest(s, t, FetchChunk(piece), object_)
    ensures Safe(OnFile(s, C.Append(t, piece)), object_)
  {
    assert ThreadOk(s, t, At(s, t), object_);
    FileLocal(s.file, t, C.Append(t, piece));
    LocalSafe(s, OnFile(s, C.Append(t, piece)), t, object_);
  }

  lemma FetchEndSafe(s: System, t: Tid, ask: Ask, end: R.Final, object_: Bytes)
    requires Safe(s, object_) && At(s, t).Busy? && At(s, t).phase.Fetching? && At(s, t).ask == ask
    requires Honest(s, t, FetchEnd(end), object_)
    ensures Safe(StepFetchEnd(s, t, ask, end), object_)
  {
    assert ThreadOk(s, t, At(s, t), object_);
    if end.requestError || end.status != 200 {
      FetchRaises(s, t, ask, object_);
    } else {
      FileLocal(s.file, t, C.Finalize(t));
      LocalSafe(s, StepFetchEnd(s, t, ask, end), t, object_);
    }
  }

  lemma CheckingSafe(s: System, t: Tid, ask: Ask, data: Bytes, object_: Bytes)
    requires Safe(s, object_) && At(s, t) == Busy(ask, Checking(data))
    ensures Safe(StepChecking(s, t, ask, data), object_)
  {
    assert ThreadOk(s, t, At(s, t), object_);
    FileLocal(s.file, t, C.Invalidate);
    Outcomes(s, ask, R.Raised, object_);
    LocalSafe(s, StepChecking(s, t, ask, data), t, object_);
  }

  lemma StartSafe(s: System, t: Tid, ask: Ask, object_: Bytes)
    requires Safe(s, object_) && At(s, t) == Idle
    ensures Safe(Move(s, t, ask, Looking(false)), object_)
  {
    assert ThreadOk(s, t, At(s, t), object_);
    LocalSafe(s, Move(s, t, ask, Looking(false)), t, object_);
  }

  lemma DropSafe(s: System, object_: Bytes)
    requires Safe(s, object_)
    ensures Safe(OnFile(s, C.Invalidate), object_)
  {
    var t: Tid := 0;
    assert ThreadOk(s, t, At(s, t), object_);
    FileLocal(s.file, t, C.Invalidate);
    LocalSafe(s, OnFile(s, C.Invalidate), t, object_);
  }

  lemma StepSafe(s: System, t: Tid, ev: Event, object_: Bytes)
    requires Safe(s, object_) && Honest(s, t, ev, object_)
    ensures Safe(Step(s, t, ev), object_)
  {
    match (At(s, t), ev)
    case (_, Drop) => DropSafe(s, object_);
    case (Idle, Read(ask)) => StartSafe(s, t, ask, object_);
    case (Busy(ask, Looking(again)), Run) => LookingSafe(s, t, ask, again, object_);
    case (Busy(ask, Probing(again)), Run) => ProbingSafe(s, t, ask, again, object_);
    case (Busy(ask, Requesting(again, attempts)), Attempt(a)) => AttemptSafe(s, t, ask, again, attempts, a, object_);
    case (Busy(ask, Requesting(again, attempts)), End(end)) => EndSafe(s, t, ask, again, attempts, end, object_);
    case (Busy(ask, Getting), Run) => GettingSafe(s, t, ask, object_);
    case (Busy(ask, Starting), Run) => StartingSafe(s, t, ask, object_);
    case (Busy(ask, Fetching(_)), FetchResponse(status, etagOk)) =>
      FetchResponseSafe(s, t, ask, status, etagOk, object_);
    case (Busy(ask, Fetching(status)), FetchChunk(piece)) => if status.Some? { FetchChunkSafe(s, t, piece, object_); }
    case (Busy(ask, Fetching(_)), FetchEnd(end)) => FetchEndSafe(s, t, ask, end, object_);
    case (Busy(ask, Checking(data)), Run) => CheckingSafe(s, t, ask, data, object_);
    case _ =>
  }

  type Schedule = seq<(Tid, Event)>

  function RunAll(sched: Schedule): System {
    if |sched| == 0 then Begin
    else Step(RunAll(sched[..|sched| - 1]), sched[|sched| - 1].0, sched[|sched| - 1].1)
  }

  // Every answer of the server in the schedule is honest.
  ghost predicate AllHonest(sched: Schedule, object_: Bytes) {
    |sched| == 0
    || (&& AllHonest(sched[..|sched| - 1], object_)
        && Honest(RunAll(sched[..|sched| - 1]), sched[|sched| - 1].0, sched[|sched| - 1].1, object_))
  }

  lemma {:induction false} RunSafe(sched: Schedule, object_: Bytes)
    requires AllHonest(sched, object_)
    ensures Safe(RunAll(sched), object_)
  {
    if |sched| > 0 {
      RunSafe(sched[..|sched| - 1], object_);
      StepSafe(RunAll(sched[..|sched| - 1]), sched[|sched| - 1].0, sched[|sched| - 1].1, object_);
    }
  }

  // ---------------------------------------------------------------------- theorems

  // Every read of every thread that returns has filled its buffer with exactly the
  // bytes asked for, whether from its own request, from its own download or from a
  // copy that another thread downloaded; every copy is a beginning of the object.
  lemma SharedReadsExact(sched: Schedule, object_: Bytes, i: nat)
    requires AllHonest(sched, object_) && i < |RunAll(sched).outcomes|
    ensures var o := RunAll(sched).outcomes[i];
      && !o.result.Declined?
      && (o.result.Filled? && InObject(o.ask, object_) ==>
            o.result.buffer == object_[o.ask.location..o.ask.location + |o.ask.buffer|])
  {
    RunSafe(sched, object_);
    assert RunAll(sched).outcomes[i] in RunAll(sched).outcomes;
  }

  lemma CopiesArePrefixes(sched: Schedule, object_: Bytes, t: Tid)
    requires AllHonest(sched, object_)
    ensures var s := RunAll(sched);
      && (s.file.cached.Some? ==> s.file.cached.value <= object_)
      && (At(s, t).Busy? && At(s, t).phase.Checking? ==> At(s, t).phase.data <= object_)
  {
    RunSafe(sched, object_);
    assert ThreadOk(RunAll(sched), t, At(RunAll(sched), t), object_);
  }

  predicate Fetches(s: System, t: Tid) {
    At(s, t).Busy? && At(s, t).phase.Fetching?
  }

  // A coordinated range request on its way.
  predicate Requests(s: System, t: Tid) {
    At(s, t).Busy? && At(s, t).phase.Requesting? && At(s, t).ask.config.fallback
  }

  // About to fall back without having asked.
  predicate Declines(s: System, t: Tid) {
    && At(s, t).Busy? && At(s, t).phase.Probing? && At(s, t).ask.config.fallback
    && t in s.probe.guards && s.probe.guards[t].Live? && s.probe.guards[t].support == P.NotSupported
  }

  // At most one read downloads the file, and while it is not known whether ranges
  // work at most one that could fall back has a range request on its way; a read
  // that is told so without asking is told the truth.
  lemma OneAtATime(sched: Schedule, object_: Bytes, t: Tid, u: Tid)
    requires AllHonest(sched, object_)
    ensures var s := RunAll(sched);
      && (Fetches(s, t) && Fetches(s, u) ==> t == u)
      && (Requests(s, t) && Requests(s, u) && s.probe.support == P.Unknown ==> t == u)
      && (Declines(s, t) ==> s.probe.support == P.NotSupported)
  {
    RunSafe(sched, object_);
    var s := RunAll(sched);
    assert ThreadOk(s, t, At(s, t), object_) && ThreadOk(s, u, At(s, u), object_);
    if Fetches(s, t) && Fetches(s, u) { C.Sole(s.file.downloads, t); }
    if Requests(s, t) && Requests(s, u) && s.probe.support == P.Unknown {
      assert P.Undecided(s.probe, t) <==> P.Owns(s.probe, t);
      assert P.Undecided(s.probe, u) <==> P.Owns(s.probe, u);
    }
  }
}
