// What the shared read path achieves when nobody else is at work: a read gets its
// bytes from a range request if the server does ranges, and from one full download if
// it does not; the probe and the copy then serve everybody else.
module SharedDelivery {
  import opened Common
  import opened SharedReads
  import R = RangeRead
  import P = RangeProbe
  import C = CachedFiles

  // Nothing is known of the server, and nobody asks or downloads.
  predicate Quiet(s: System, t: Tid) {
    && At(s, t) == Idle && t !in s.probe.guards
    && s.probe.support == P.Unknown && !s.probe.probing
    && s.file.cached.None? && !s.file.downloading && s.file.downloads == map[]
  }

  predicate Asks(ask: Ask) {
    ask.config.fallback && |ask.buffer| > 0 && ask.location + |ask.buffer| <= R.B.MAX_INDEX
  }

  // Up to the request: the call, no copy, and the guard's construction.
  function Begun(s: System, t: Tid, ask: Ask): System {
    Step(Step(Step(s, t, Read(ask)), t, Run), t, Run)
  }

  function Sent(s: System, t: Tid): System {
    Step(Step(s, t, Run), t, Run)
  }

  lemma BegunWaits(s: System, t: Tid, ask: Ask)
    requires Quiet(s, t) && Asks(ask)
    ensures var s' := Begun(s, t, ask);
      && At(s', t) == Busy(ask, Probing(false)) && s'.file == s.file && s'.outcomes == s.outcomes
      && t in s'.probe.guards && s'.probe == s.probe.(guards := s'.probe.guards) && s'.probe.guards[t] == P.Waiting
  {
    var s1 := Step(s, t, Read(ask));
    assert At(s1, t) == Busy(ask, Looking(false));
    assert s1.probe == s.probe && s1.file == s.file;
  }

  lemma SentProbes(s: System, t: Tid, ask: Ask)
    requires At(s, t) == Busy(ask, Probing(false)) && t in s.probe.guards && s.probe.guards[t] == P.Waiting
    requires s.probe.support == P.Unknown && !s.probe.probing
    ensures var s' := Sent(s, t);
      && At(s', t) == Busy(ask, Requesting(false, [])) && s'.file == s.file && s'.outcomes == s.outcomes
      && P.Owns(s'.probe, t) && s'.probe.guards[t] == P.Live(true, P.Unknown, true)
  {
    var s1 := Step(s, t, Run);
    assert At(s1, t) == Busy(ask, Probing(false)) && s1.probe.guards[t] == P.Live(true, P.Unknown, true);
  }

  predicate Requested(s: System, t: Tid, ask: Ask) {
    && At(s, t) == Busy(ask, Requesting(false, [])) && t in s.probe.guards
    && s.probe.guards[t] == P.Live(true, P.Unknown, true) && s.probe.support == P.Unknown
  }

  function Replied(s: System, t: Tid, a: R.Attempt, end: R.Final): System {
    Step(Step(s, t, Attempt(a)), t, End(end))
  }

  // The end of a request that is turned down, and of one that returns.
  lemma EndDeclines(s: System, t: Tid, ask: Ask, attempts: seq<R.Attempt>, end: R.Final)
    requires At(s, t) == Busy(ask, Requesting(false, attempts)) && t in s.probe.guards && ask.config.fallback
    requires s.probe.guards[t].Live? && !s.probe.guards[t].owns
    requires Ran(ask, attempts).Some? && Ran(ask, attempts).value.unsupported
    requires R.TryRangeRequest(ask.buffer, false, R.Exchange(attempts, end), ask.config) == R.Declined
    ensures var s' := Step(s, t, End(end));
      && At(s', t) == Busy(ask, Getting) && s'.outcomes == s.outcomes && s'.file == s.file
      && s'.probe.support == s.probe.support && t !in s'.probe.guards
  {
    assert Concluded(s, t, ask, attempts, end) == s;
  }

  lemma EndReturns(s: System, t: Tid, ask: Ask, attempts: seq<R.Attempt>, end: R.Final, b: Bytes)
    requires At(s, t) == Busy(ask, Requesting(false, attempts)) && t in s.probe.guards
    requires s.probe.guards[t].Live? && s.probe.guards[t].enabled
    requires s.probe.support == P.Supported || s.probe.guards[t].support == P.Unknown
    requires Ran(ask, attempts).Some? && R.Accepted(end)
    requires R.TryRangeRequest(ask.buffer, false, R.Exchange(attempts, end), ask.config) == R.Filled(b)
    ensures var s' := Step(s, t, End(end));
      && At(s', t) == Idle && s'.outcomes == s.outcomes + [Outcome(ask, R.Filled(b))]
      && s'.probe.support == P.Supported && t !in s'.probe.guards && s'.file == s.file
  {
    var before := Ran(ask, attempts).value;
    assert R.Finalize(before, end).Responded?;
    assert R.Finalize(before, end).transfer.marks == before.marks + [R.MarkSupported];
    assert Concluded(s, t, ask, attempts, end) == OnProbe(s, P.MarkSupported(t));
  }

  // A server that honours the range.
  predicate Partial(a: R.Attempt, end: R.Final, n: nat) {
    && a.status == 206 && a.etagOk && (a.contentLength.Some? ==> a.contentLength.value == n)
    && |Concat(a.chunks)| == n && end == R.Final(206, false, true)
  }

  // One that ignores it, and says how much it brings.
  predicate Whole(a: R.Attempt, end: R.Final, n: nat) {
    && a.status == 200 && a.etagOk && a.contentLength.Some? && a.contentLength.value != n
    && end == R.Final(200, false, true)
  }

  lemma OneAttempt(ask: Ask, a: R.Attempt)
    ensures Ran(ask, []) == Some(R.Empty(ask.buffer))
    ensures Ran(ask, [a]) == R.RunAttempt(R.Empty(ask.buffer), a, ask.config.conditional)
  {
    assert [a][..0] == [];
  }

  lemma PartialRuns(ask: Ask, a: R.Attempt, end: R.Final)
    requires Partial(a, end, |ask.buffer|)
    ensures Ran(ask, [a]) == Some(R.Transfer(Concat(a.chunks), |ask.buffer|, false, [R.MarkSupported]))
    ensures R.TryRangeRequest(ask.buffer, false, R.Exchange([a], end), ask.config) == R.Filled(Concat(a.chunks))
  {
    OneAttempt(ask, a);
    R.DeliverExactly(R.Transfer(ask.buffer, 0, false, [R.MarkSupported]), a.chunks);
    Replaced(ask.buffer, Concat(a.chunks));
    assert [] + [R.MarkSupported] == [R.MarkSupported];
  }

  lemma Replaced(buffer: Bytes, content: Bytes)
    requires |content| == |buffer|
    ensures buffer[..0] + content + buffer[0 + |content|..] == content
  {
  }

  lemma PartialAttempt(s: System, t: Tid, ask: Ask, a: R.Attempt, end: R.Final)
    requires Requested(s, t, ask) && Partial(a, end, |ask.buffer|)
    ensures var s' := Step(s, t, Attempt(a));
      && At(s', t) == Busy(ask, Requesting(false, [a])) && s'.file == s.file && s'.outcomes == s.outcomes
      && s'.probe.support == P.Supported && t in s'.probe.guards
      && s'.probe.guards[t] == P.Live(true, P.Supported, false)
  {
    OneAttempt(ask, a);
    PartialRuns(ask, a, end);
    assert [] + [a] == [a];
  }

  // Ranges work: the read returns what the response brought, and everybody may know.
  lemma PartialDelivers(s: System, t: Tid, ask: Ask, a: R.Attempt, end: R.Final)
    requires Requested(s, t, ask) && Partial(a, end, |ask.buffer|)
    ensures var s' := Replied(s, t, a, end);
      && At(s', t) == Idle && s'.outcomes == s.outcomes + [Outcome(ask, R.Filled(Concat(a.chunks)))]
      && s'.probe.support == P.Supported && t !in s'.probe.guards && s'.file == s.file
  {
    PartialAttempt(s, t, ask, a, end);
    PartialRuns(ask, a, end);
    EndReturns(Step(s, t, Attempt(a)), t, ask, [a], end, Concat(a.chunks));
  }

  lemma WholeRuns(ask: Ask, a: R.Attempt, end: R.Final)
    requires Whole(a, end, |ask.buffer|) && ask.config.fallback
    ensures Ran(ask, [a]).Some? && Ran(ask, [a]).value.unsupported && Ran(ask, [a]).value.marks == [R.MarkNotSupported]
    ensures R.TryRangeRequest(ask.buffer, false, R.Exchange([a], end), ask.config) == R.Declined
  {
    OneAttempt(ask, a);
  }

  lemma WholeAttempt(s: System, t: Tid, ask: Ask, a: R.Attempt, end: R.Final)
    requires Requested(s, t, ask) && Whole(a, end, |ask.buffer|) && ask.config.fallback
    ensures var s' := Step(s, t, Attempt(a));
      && At(s', t) == Busy(ask, Requesting(false, [a])) && s'.file == s.file && s'.outcomes == s.outcomes
      && s'.probe.support == P.NotSupported && t in s'.probe.guards
      && s'.probe.guards[t] == P.Live(true, P.NotSupported, false)
  {
    OneAttempt(ask, a);
    WholeRuns(ask, a, end);
    assert [] + [a] == [a];
  }

  // An object that is just the range answers the probe only once it has come.
  predicate Just(a: R.Attempt, end: R.Final, n: nat) {
    && a.status == 200 && a.etagOk && (a.contentLength.Some? ==> a.contentLength.value == n)
    && |Concat(a.chunks)| == n && end == R.Final(200, false, true)
  }

  lemma JustRuns(ask: Ask, a: R.Attempt, end: R.Final)
    requires Just(a, end, |ask.buffer|)
    ensures Ran(ask, [a]) == Some(R.Transfer(Concat(a.chunks), |ask.buffer|, false, []))
    ensures R.TryRangeRequest(ask.buffer, false, R.Exchange([a], end), ask.config) == R.Filled(Concat(a.chunks))
  {
    OneAttempt(ask, a);
    R.DeliverExactly(R.Transfer(ask.buffer, 0, false, []), a.chunks);
    Replaced(ask.buffer, Concat(a.chunks));
  }

  lemma JustAttempt(s: System, t: Tid, ask: Ask, a: R.Attempt, end: R.Final)
    requires Requested(s, t, ask) && Just(a, end, |ask.buffer|)
    ensures var s' := Step(s, t, Attempt(a));
      && At(s', t) == Busy(ask, Requesting(false, [a])) && s'.file == s.file && s'.outcomes == s.outcomes
      && s'.probe == s.probe
  {
    OneAttempt(ask, a);
    JustRuns(ask, a, end);
    assert [] + [a] == [a];
  }

  lemma JustDelivers(s: System, t: Tid, ask: Ask, a: R.Attempt, end: R.Final)
    requires Requested(s, t, ask) && Just(a, end, |ask.buffer|)
    ensures Step(s, t, Attempt(a)).probe == s.probe
    ensures var s' := Replied(s, t, a, end);
      && At(s', t) == Idle && s'.outcomes == s.outcomes + [Outcome(ask, R.Filled(Concat(a.chunks)))]
      && s'.probe.support == P.Supported && t !in s'.probe.guards && s'.file == s.file
  {
    JustAttempt(s, t, ask, a, end);
    JustRuns(ask, a, end);
    EndReturns(Step(s, t, Attempt(a)), t, ask, [a], end, Concat(a.chunks));
  }

  // Ranges do not work: everybody may know, and the read goes on to a full download.
  lemma WholeDeclines(s: System, t: Tid, ask: Ask, a: R.Attempt, end: R.Final)
    requires Requested(s, t, ask) && Whole(a, end, |ask.buffer|) && ask.config.fallback
    ensures var s' := Replied(s, t, a, end);
      && At(s', t) == Busy(ask, Getting) && s'.outcomes == s.outcomes && s'.file == s.file
      && s'.probe.support == P.NotSupported && t !in s'.probe.guards
  {
    WholeAttempt(s, t, ask, a, end);
    WholeRuns(ask, a, end);
    EndDeclines(Step(s, t, Attempt(a)), t, ask, [a], end);
  }

  // The download: nobody has a copy, this thread fetches one.
  function Fetched(s: System, t: Tid, data: Bytes): System {
    var fetching := Step(Step(Started(s, t), t, FetchResponse(200, true)), t, FetchChunk(data));
    Step(fetching, t, FetchEnd(R.Final(200, false, true)))
  }

  function Started(s: System, t: Tid): System {
    Step(Step(s, t, Run), t, Run)
  }

  lemma StartedFetches(s: System, t: Tid, ask: Ask)
    requires At(s, t) == Busy(ask, Getting)
    requires s.file.cached.None? && !s.file.downloading && s.file.downloads == map[]
    ensures var s' := Started(s, t);
      && At(s', t) == Busy(ask, Fetching(None)) && s'.probe == s.probe && s'.outcomes == s.outcomes
      && C.Has(s'.file, t, []) && s'.file.downloading && s'.file.cached.None? && s'.file.downloads.Keys == {t}
  {
    var s1 := Step(s, t, Run);
    assert At(s1, t) == Busy(ask, Starting) && s1.file == s.file;
  }

  lemma FetchedPublishes(s: System, t: Tid, ask: Ask, data: Bytes)
    requires At(s, t) == Busy(ask, Getting)
    requires s.file.cached.None? && !s.file.downloading && s.file.downloads == map[]
    ensures var s' := Fetched(s, t, data);
      && At(s', t) == Busy(ask, Checking(data)) && s'.probe == s.probe && s'.outcomes == s.outcomes
      && s'.file.cached == Some(data) && !s'.file.downloading && s'.file.downloads == map[]
  {
    StartedFetches(s, t, ask);
    var s1 := Started(s, t);
    FetchEnds(s1, t, ask, data);
  }

  lemma FetchEnds(s: System, t: Tid, ask: Ask, data: Bytes)
    requires At(s, t) == Busy(ask, Fetching(None)) && t in s.file.downloads && s.file.downloads.Keys == {t}
    ensures var s1 := Step(s, t, FetchResponse(200, true));
      var s2 := Step(s1, t, FetchChunk(data));
      var s3 := Step(s2, t, FetchEnd(R.Final(200, false, true)));
      && At(s3, t) == Busy(ask, Checking(data)) && s3.probe == s.probe && s3.outcomes == s.outcomes
      && s3.file.cached == Some(data) && !s3.file.downloading && s3.file.downloads == map[]
  {
    var s1 := Step(s, t, FetchResponse(200, true));
    assert At(s1, t) == Busy(ask, Fetching(Some(200))) && C.Has(s1.file, t, []) && s1.file.downloads.Keys == {t};
    var s2 := Step(s1, t, FetchChunk(data));
    assert [] + data == data;
    assert At(s2, t) == Busy(ask, Fetching(Some(200))) && C.Has(s2.file, t, data) && s2.file.downloads.Keys == {t};
  }

  // The end of a fallback: a copy of another size than expected is thrown away.
  function Checked(s: System, t: Tid): System {
    Step(Step(s, t, Run), t, Run)
  }

  lemma CheckedReturns(s: System, t: Tid, ask: Ask, data: Bytes)
    requires At(s, t) == Busy(ask, Checking(data)) && s.file.cached == Some(data) && Asks(ask)
    requires |data| == ask.length
    ensures var s' := Checked(s, t);
      && At(s', t) == Idle && s'.file.cached == Some(data) && s'.probe == s.probe
      && s'.outcomes == s.outcomes + [Outcome(ask,
           if ask.location + |ask.buffer| <= |data| then R.Filled(data[ask.location..ask.location + |ask.buffer|])
           else R.Raised)]
  {
    var s1 := Step(s, t, Run);
    assert At(s1, t) == Busy(ask, Looking(true)) && s1.file == s.file;
  }

  lemma OtherSizeIsDropped(s: System, t: Tid, ask: Ask, data: Bytes)
    requires At(s, t) == Busy(ask, Checking(data)) && |data| != ask.length
    ensures var s' := Step(s, t, Run);
      && At(s', t) == Idle && s'.file.cached.None? && s'.outcomes == s.outcomes + [Outcome(ask, R.Raised)]
  {
  }

  // Against a server that honours ranges a read alone gets its range.
  lemma RangeAlone(s: System, t: Tid, ask: Ask, a: R.Attempt, object_: Bytes)
    requires Quiet(s, t) && Asks(ask) && ask.location + |ask.buffer| <= |object_|
    requires Partial(a, R.Final(206, false, true), |ask.buffer|)
    requires Concat(a.chunks) == object_[ask.location..ask.location + |ask.buffer|]
    ensures var s' := Replied(Sent(Begun(s, t, ask), t), t, a, R.Final(206, false, true));
      && At(s', t) == Idle && s'.probe.support == P.Supported
      && s'.outcomes == s.outcomes
           + [Outcome(ask, R.Filled(object_[ask.location..ask.location + |ask.buffer|]))]
  {
    BegunWaits(s, t, ask);
    SentProbes(Begun(s, t, ask), t, ask);
    PartialDelivers(Sent(Begun(s, t, ask), t), t, ask, a, R.Final(206, false, true));
  }

  // Against one that ignores them it gets its range from a download of the object,
  // which it leaves as a copy for all.
  lemma DownloadAlone(s: System, t: Tid, ask: Ask, a: R.Attempt, object_: Bytes)
    requires Quiet(s, t) && Asks(ask) && ask.location + |ask.buffer| <= |object_| == ask.length
    requires Whole(a, R.Final(200, false, true), |ask.buffer|)
    ensures var asked := Replied(Sent(Begun(s, t, ask), t), t, a, R.Final(200, false, true));
      var s' := Checked(Fetched(asked, t, object_), t);
      && At(s', t) == Idle && s'.probe.support == P.NotSupported && s'.file.cached == Some(object_)
      && s'.outcomes == s.outcomes
           + [Outcome(ask, R.Filled(object_[ask.location..ask.location + |ask.buffer|]))]
  {
    BegunWaits(s, t, ask);
    SentProbes(Begun(s, t, ask), t, ask);
    WholeDeclines(Sent(Begun(s, t, ask), t), t, ask, a, R.Final(200, false, true));
    var asked := Replied(Sent(Begun(s, t, ask), t), t, a, R.Final(200, false, true));
    FetchedPublishes(asked, t, ask, object_);
    CheckedReturns(Fetched(asked, t, object_), t, ask, object_);
  }

  // Afterwards a read by anybody, inside the object, is answered by the copy at once.
  lemma CopyServes(s: System, t: Tid, ask: Ask, data: Bytes)
    requires At(s, t) == Idle && s.file.cached == Some(data) && ask.location + |ask.buffer| <= |data| <= R.B.MAX_INDEX
    ensures var s' := Step(Step(s, t, Read(ask)), t, Run);
      && At(s', t) == Idle && s'.probe == s.probe && s'.file.cached == Some(data)
      && s'.outcomes == s.outcomes
           + [Outcome(ask, R.Filled(data[ask.location..ask.location + |ask.buffer|]))]
  {
    var s1 := Step(s, t, Read(ask));
    assert At(s1, t) == Busy(ask, Looking(false)) && s1.file == s.file;
  }
}
