// The HTTP read path: one range request into a caller's buffer, the full download
// it falls back to, and reads built on them, against any server that honours or
// ignores the Range header.
module RangeRead {
  import opened Common
  import B = DownloadBuffer

  datatype Mark = MarkSupported | MarkNotSupported

  // A response as the callbacks see it; a Content-Length that is missing or not a
  // number is None.
  datatype Attempt = Attempt(status: nat, contentLength: Option<nat>, etagOk: bool, chunks: seq<Bytes>)

  // The response that the HTTP library returns in the end; `success` is its flag.
  datatype Final = Final(status: nat, requestError: bool, success: bool)

  // A request with the attempts that redirects and retries make of it.
  datatype Exchange = Exchange(attempts: seq<Attempt>, end: Final)

  // `conditional` for a read with an If-Match condition, `fallback` for one that may
  // fall back to a full download.
  datatype ReadConfig = ReadConfig(conditional: bool, fallback: bool)

  // ------------------------------------------------- HTTPRangeRequestContext

  // The caller's buffer, how far it is filled, and what the probe has been told.
  datatype Transfer = Transfer(buffer: Bytes, offset: nat, unsupported: bool, marks: seq<Mark>)

  datatype Verdict = Proceed(transfer: Transfer) | Stop(transfer: Transfer) | Raise

  function HandleResponse(t: Transfer, a: Attempt, conditional: bool): Verdict {
    if a.status == 412 && conditional then Stop(t)
    else if a.status >= 400 then Raise
    else if a.status >= 300 then Proceed(t)
    else if !a.etagOk then Raise
    else if a.contentLength.Some? && a.contentLength.value != |t.buffer| then
      Stop(t.(offset := 0, unsupported := true, marks := t.marks + [MarkNotSupported]))
    else Proceed(t.(offset := 0, marks := if a.status == 206 then t.marks + [MarkSupported] else t.marks))
  }

  predicate Fits(t: Transfer, chunk: Bytes) {
    t.offset <= |t.buffer| && |chunk| <= |t.buffer| - t.offset
  }

  function HandleContent(t: Transfer, chunk: Bytes): Transfer
    requires Fits(t, chunk)
  {
    t.(buffer := t.buffer[..t.offset] + chunk + t.buffer[t.offset + |chunk|..], offset := t.offset + |chunk|)
  }

  // None when a chunk does not fit.
  function Deliver(t: Transfer, chunks: seq<Bytes>): Option<Transfer>
    decreases |chunks|
  {
    if |chunks| == 0 then Some(t)
    else if !Fits(t, chunks[0]) then None
    else Deliver(HandleContent(t, chunks[0]), chunks[1..])
  }

  function RunAttempt(t: Transfer, a: Attempt, conditional: bool): Option<Transfer> {
    match HandleResponse(t, a, conditional)
    case Raise => None
    case Stop(t1) => Some(t1)
    case Proceed(t1) => Deliver(t1, a.chunks)
  }

  function RunAttempts(t: Transfer, attempts: seq<Attempt>, conditional: bool): Option<Transfer> {
    if |attempts| == 0 then Some(t)
    else
      match RunAttempts(t, attempts[..|attempts| - 1], conditional)
      case None => None
      case Some(t1) => RunAttempt(t1, attempts[|attempts| - 1], conditional)
  }

  predicate Accepted(end: Final) {
    end.success || end.status == 206 || end.status == 202
  }

  // The end of the context: whether it reports missing range support, a short read,
  // or hands the response on.
  datatype Ending = Unsupported | ShortRead | Responded(transfer: Transfer)

  function Finalize(t: Transfer, end: Final): Ending {
    if t.unsupported then Unsupported
    else if !end.requestError && end.success && t.offset != |t.buffer| then ShortRead
    else Responded(t.(marks := if Accepted(end) then t.marks + [MarkSupported] else t.marks))
  }

  // --------------------------------------------------------------- the read calls

  datatype ReadResult = Filled(buffer: Bytes) | Declined | Raised

  function Empty(buffer: Bytes): Transfer {
    Transfer(buffer, 0, false, [])
  }

  // TryRangeRequest; `known` when the file is known not to support ranges.
  function TryRangeRequest(buffer: Bytes, known: bool, x: Exchange, c: ReadConfig): ReadResult {
    if known && c.fallback then Declined
    else
      match RunAttempts(Empty(buffer), x.attempts, c.conditional)
      case None => Raised
      case Some(t) =>
        match Finalize(t, x.end)
        case Unsupported => if c.fallback then Declined else Raised
        case ShortRead => Raised
        case Responded(t1) =>
          if x.end.status == 412 && c.conditional then Raised
          else if x.end.requestError || !Accepted(x.end) then Raised
          else Filled(t1.buffer)
  }

  // What a read finds: a downloaded copy, or else whether ranges are known not to
  // work and how its range request goes.
  datatype Environment = Environment(cached: Option<Bytes>, known: bool, exchange: Exchange)

  function ReadAt(buffer: Bytes, location: nat, e: Environment, c: ReadConfig): ReadResult {
    if |buffer| > B.MAX_INDEX - location then Raised
    else if e.cached.Some? then
      if |e.cached.value| < location + |buffer| then Raised else Filled(e.cached.value[location..location + |buffer|])
    else if |buffer| == 0 then Filled(buffer)
    else TryRangeRequest(buffer, e.known, e.exchange, c)
  }

  // RunGetRequest into a download; None when it throws.
  function DownloadAttempt(appended: Bytes, a: Attempt, conditional: bool): Option<Bytes> {
    if a.status == 412 && conditional then Some(appended)
    else if a.status >= 400 || (a.status < 300 && !a.etagOk) then None
    else Some(Concat(a.chunks))
  }

  function DownloadAttempts(attempts: seq<Attempt>, conditional: bool): Option<Bytes> {
    if |attempts| == 0 then Some([])
    else
      match DownloadAttempts(attempts[..|attempts| - 1], conditional)
      case None => None
      case Some(appended) => DownloadAttempt(appended, attempts[|attempts| - 1], conditional)
  }

  // FullDownload: another thread's copy, or one's own.
  datatype Download = Theirs(data: Bytes) | Own(exchange: Exchange)

  function FullDownload(d: Download, c: ReadConfig): Option<Bytes> {
    match d
    case Theirs(data) => Some(data)
    case Own(x) =>
      if x.end.requestError || x.end.status != 200 then None else DownloadAttempts(x.attempts, c.conditional)
  }

  // ReadAtWithFallback; `length` is what the handle believes the file's size to be.
  function ReadAtWithFallback(buffer: Bytes, location: nat, length: nat, e: Environment, d: Download,
                              after: Environment, c: ReadConfig): ReadResult {
    match ReadAt(buffer, location, e, c)
    case Filled(b) => Filled(b)
    case Raised => Raised
    case Declined =>
      match FullDownload(d, c)
      case None => Raised
      case Some(data) =>
        if |data| != length then Raised
        else if ReadAt(buffer, location, after, c).Declined? then Raised
        else ReadAt(buffer, location, after, c)
  }

  // ------------------------------------------------------------------- the server

  // A 206 body is the range, any other success brings the object; either may end
  // early. The Content-Length of a response that brings the object is its size.
  ghost predicate HonestBody(a: Attempt, object_: Bytes, location: nat, n: nat)
    requires location + n <= |object_|
  {
    a.status < 300 ==>
      if a.status == 206 then Concat(a.chunks) <= object_[location..location + n]
      else Concat(a.chunks) <= object_ && (a.contentLength.Some? ==> a.contentLength.value == |object_|)
  }

  // A response without request error is that of the last attempt.
  ghost predicate Honest(x: Exchange, object_: Bytes, location: nat, n: nat)
    requires location + n <= |object_|
  {
    !x.end.requestError ==>
      && |x.attempts| > 0
      && var last := x.attempts[|x.attempts| - 1];
        last.status == x.end.status && HonestBody(last, object_, location, n)
  }

  // A full GET brings a prefix of the object.
  ghost predicate HonestDownload(d: Download, object_: Bytes) {
    match d
    case Theirs(data) => data <= object_
    case Own(x) =>
      !x.end.requestError ==>
        && |x.attempts| > 0
        && x.attempts[|x.attempts| - 1].status == x.end.status
        && (x.end.status < 300 ==> Concat(x.attempts[|x.attempts| - 1].chunks) <= object_)
  }

  // --------------------------------------------------------------------- transfers

  lemma {:induction false} ConcatHead(chunks: seq<Bytes>)
    requires |chunks| > 0
    ensures Concat(chunks) == chunks[0] + Concat(chunks[1..])
  {
    assert chunks == [chunks[0]] + chunks[1..];
    ConcatAppend([chunks[0]], chunks[1..]);
    ConcatOne(chunks[0]);
  }

  // Chunks in any cutting fill the buffer with their concatenation, and with nothing
  // beyond its end.
  lemma {:induction false} DeliverExactly(t: Transfer, chunks: seq<Bytes>)
    requires t.offset <= |t.buffer|
    ensures var content := Concat(chunks);
      Deliver(t, chunks) ==
        if t.offset + |content| > |t.buffer| then None
        else
          Some(t.(buffer := t.buffer[..t.offset] + content + t.buffer[t.offset + |content|..],
                  offset := t.offset + |content|))
    decreases |chunks|
  {
    if |chunks| == 0 {
      assert t.buffer[..t.offset] + [] + t.buffer[t.offset..] == t.buffer;
    } else {
      ConcatHead(chunks);
      if Fits(t, chunks[0]) {
        DeliverExactly(HandleContent(t, chunks[0]), chunks[1..]);
        DeliverTwice(t, chunks[0], Concat(chunks[1..]));
      }
    }
  }

  lemma DeliverTwice(t: Transfer, a: Bytes, b: Bytes)
    requires Fits(t, a)
    ensures var t1 := HandleContent(t, a);
      && t1.offset <= |t1.buffer| == |t.buffer|
      && (t.offset + |a + b| <= |t.buffer| ==>
            t1.buffer[..t1.offset] + b + t1.buffer[t1.offset + |b|..]
              == t.buffer[..t.offset] + (a + b) + t.buffer[t.offset + |a + b|..])
  {
  }

  lemma {:induction false} RunKeepsLength(t: Transfer, attempts: seq<Attempt>, conditional: bool)
    requires t.offset <= |t.buffer| && RunAttempts(t, attempts, conditional).Some?
    ensures var t1 := RunAttempts(t, attempts, conditional).value; t1.offset <= |t1.buffer| == |t.buffer|
  {
    if |attempts| > 0 {
      RunKeepsLength(t, attempts[..|attempts| - 1], conditional);
      var t1 := RunAttempts(t, attempts[..|attempts| - 1], conditional).value;
      var last := attempts[|attempts| - 1];
      match HandleResponse(t1, last, conditional)
      case Proceed(t2) => DeliverExactly(t2, last.chunks);
      case _ =>
    }
  }

  // Whatever earlier attempts left behind, the last one starts over.
  lemma LastAttemptCounts(t: Transfer, attempts: seq<Attempt>, conditional: bool)
    requires t.offset <= |t.buffer| && |attempts| > 0 && RunAttempts(t, attempts, conditional).Some?
    requires attempts[|attempts| - 1].status < 300
    ensures var t1 := RunAttempts(t, attempts, conditional).value;
      var content := Concat(attempts[|attempts| - 1].chunks);
      && |t1.buffer| == |t.buffer|
      && (!t1.unsupported ==>
            t1.offset == |content| <= |t1.buffer| && t1.buffer[..t1.offset] == content)
  {
    var before := RunAttempts(t, attempts[..|attempts| - 1], conditional).value;
    var last := attempts[|attempts| - 1];
    RunKeepsLength(t, attempts[..|attempts| - 1], conditional);
    match HandleResponse(before, last, conditional)
    case Proceed(t2) => DeliverExactly(t2, last.chunks);
    case _ =>
  }

  // ---------------------------------------------------------------------- theorems

  // How much the last response delivered.
  function Delivered(x: Exchange): nat
    requires |x.attempts| > 0
  {
    |Concat(x.attempts[|x.attempts| - 1].chunks)|
  }

  // A partial response that was complete is exact, with the library's flag or without.
  lemma CompletePartialExact(buffer: Bytes, known: bool, x: Exchange, c: ReadConfig, object_: Bytes, location: nat)
    requires location + |buffer| <= |object_| && Honest(x, object_, location, |buffer|)
    requires x.end.status == 206 && |x.attempts| > 0 && Delivered(x) == |buffer|
    ensures var r := TryRangeRequest(buffer, known, x, c);
      r.Filled? ==> r.buffer == object_[location..location + |buffer|]
  {
    if TryRangeRequest(buffer, known, x, c).Filled? {
      LastAttemptCounts(Empty(buffer), x.attempts, c.conditional);
    }
  }

  // The Content-Length of the last response.
  function Length(x: Exchange): Option<nat> {
    if |x.attempts| == 0 then None else x.attempts[|x.attempts| - 1].contentLength
  }

  // A Content-Length that the code does not turn down.
  predicate Passes(length: Option<nat>, n: nat) {
    length.None? || length.value == n
  }

  // What becomes of a range request whose last response is a success, whatever was
  // before it: each way to fail, and otherwise the bytes it brought.
  lemma RangeDecided(buffer: Bytes, before: seq<Attempt>, a: Attempt, end: Final, c: ReadConfig)
    requires RunAttempts(Empty(buffer), before, c.conditional).Some?
    requires !RunAttempts(Empty(buffer), before, c.conditional).value.unsupported
    requires a.status < 300 && end.status == a.status && !end.requestError
    ensures var r := TryRangeRequest(buffer, false, Exchange(before + [a], end), c);
      var content := Concat(a.chunks);
      if !a.etagOk then r == Raised
      else if a.contentLength.Some? && a.contentLength.value != |buffer| then
        r == if c.fallback then Declined else Raised
      else if |content| > |buffer| then r == Raised
      else if end.success && |content| < |buffer| then r == Raised
      else if !end.success && a.status != 206 && a.status != 202 then r == Raised
      else r.Filled? && |r.buffer| == |buffer| && r.buffer[..|content|] == content
  {
    var all := before + [a];
    var t := RunAttempts(Empty(buffer), before, c.conditional).value;
    assert all[..|all| - 1] == before;
    RunKeepsLength(Empty(buffer), before, c.conditional);
    assert RunAttempts(Empty(buffer), all, c.conditional) == RunAttempt(t, a, c.conditional);
    match HandleResponse(t, a, c.conditional)
    case Proceed(t1) => DeliverExactly(t1, a.chunks);
    case _ =>
  }

  // A refused request fails, a failed condition too.
  lemma RefusalRaises(buffer: Bytes, before: seq<Attempt>, a: Attempt, end: Final, c: ReadConfig)
    requires a.status >= 400 && end.status == a.status
    ensures var r := TryRangeRequest(buffer, false, Exchange(before + [a], end), c);
      r == Raised || (r == Declined && c.fallback && RunAttempts(Empty(buffer), before, c.conditional).Some?
                      && RunAttempts(Empty(buffer), before, c.conditional).value.unsupported)
  {
    var all := before + [a];
    assert all[..|all| - 1] == before;
  }

  // Where ranges are known not to work a read that may fall back asks nothing; one that
  // may not asks all the same.
  lemma KnownDeclines(buffer: Bytes, x: Exchange, y: Exchange, c: ReadConfig)
    ensures TryRangeRequest(buffer, true, x, c) == if c.fallback then Declined else TryRangeRequest(buffer, false, x, c)
    ensures c.fallback ==> TryRangeRequest(buffer, true, x, c) == TryRangeRequest(buffer, true, y, c)
  {
  }

  // A failed condition leaves everything as it was, and fails the read if it is the end.
  lemma FailedCondition(t: Transfer, before: seq<Attempt>, a: Attempt, end: Final, c: ReadConfig)
    requires a.status == 412 && c.conditional && end.status == 412
    ensures RunAttempts(t, before + [a], true) == RunAttempts(t, before, true)
    ensures RunAttempts(Empty(t.buffer), before, true).Some?
            && !RunAttempts(Empty(t.buffer), before, true).value.unsupported ==>
      TryRangeRequest(t.buffer, false, Exchange(before + [a], end), c) == Raised
  {
    assert (before + [a])[..|before|] == before;
  }

  // What the code takes without checking it. With the library's success flag: a
  // redirect, whose body is not the range, and the object without a Content-Length
  // instead of a range that begins further on, as it may end where the buffer does.
  // Without the flag the number of bytes is not compared at all.
  predicate Unchecked(end: Final, length: Option<nat>, location: nat, n: nat) {
    && !end.requestError
    && if end.success then
         300 <= end.status < 400 || (end.status < 300 && end.status != 206 && length.None? && location > 0)
       else
         || (end.status == 206 && Passes(length, n))
         || (end.status == 202 && Passes(length, n) && (length.Some? ==> location == 0))
  }

  // The same of an exchange.
  predicate UncheckedExchange(x: Exchange, location: nat, n: nat) {
    Unchecked(x.end, Length(x), location, n)
  }

  lemma ForeignLength(t: Transfer, attempts: seq<Attempt>, conditional: bool)
    requires t.offset <= |t.buffer| && |attempts| > 0 && RunAttempts(t, attempts, conditional).Some?
    requires attempts[|attempts| - 1].status < 300 && !Passes(attempts[|attempts| - 1].contentLength, |t.buffer|)
    ensures RunAttempts(t, attempts, conditional).value.unsupported
  {
    RunKeepsLength(t, attempts[..|attempts| - 1], conditional);
  }

  // A range request whose response is a checked one has filled the buffer with
  // exactly the bytes asked for if it returns.
  lemma RangeExact(buffer: Bytes, known: bool, x: Exchange, c: ReadConfig, object_: Bytes, location: nat)
    requires location + |buffer| <= |object_| && Honest(x, object_, location, |buffer|)
    requires !UncheckedExchange(x, location, |buffer|)
    ensures var r := TryRangeRequest(buffer, known, x, c);
      r.Filled? ==> r.buffer == object_[location..location + |buffer|]
  {
    if TryRangeRequest(buffer, known, x, c).Filled? {
      if x.end.status >= 300 {
        assert false;
      }
      if !Passes(Length(x), |buffer|) {
        ForeignLength(Empty(buffer), x.attempts, c.conditional);
        assert false;
      }
      LastAttemptCounts(Empty(buffer), x.attempts, c.conditional);
    }
  }

  // Every honest exchange with such a response fills the buffer exactly, or fails.
  ghost predicate FillsExactly(end: Final, length: Option<nat>, location: nat, n: nat) {
    forall object_: Bytes, buffer: Bytes, known: bool, x: Exchange, c: ReadConfig ::
      location + n <= |object_| && |buffer| == n && x.end == end && Length(x) == length
      && Honest(x, object_, location, n) ==>
        var r := TryRangeRequest(buffer, known, x, c);
        r.Filled? ==> r.buffer == object_[location..location + n]
  }

  // Such an exchange that returns something else.
  ghost predicate Misread(end: Final, length: Option<nat>, location: nat, object_: Bytes, buffer: Bytes, x: Exchange) {
    && location + |buffer| <= |object_| && x.end == end && Length(x) == length
    && Honest(x, object_, location, |buffer|)
    && var r := TryRangeRequest(buffer, false, x, ReadConfig(false, true));
      r.Filled? && r.buffer != object_[location..location + |buffer|]
  }

  // A buffer that differs from `range` everywhere.
  function Different(range: Bytes): (buffer: Bytes)
    ensures |buffer| == |range| && (|range| > 0 ==> buffer != range)
  {
    var buffer := seq(|range|, i requires 0 <= i < |range| => if range[i] == 0 then 1 as byte else 0);
    assert |range| > 0 ==> buffer[0] != range[0];
    buffer
  }

  lemma OneAttempt(buffer: Bytes, a: Attempt, end: Final, c: ReadConfig)
    requires a.status < 400 && (a.status < 300 ==> a.etagOk && Passes(a.contentLength, |buffer|))
    requires |Concat(a.chunks)| <= |buffer|
    requires Accepted(end) && !end.requestError && end.status < 400 && (end.success ==> |Concat(a.chunks)| == |buffer|)
    ensures TryRangeRequest(buffer, false, Exchange([a], end), c)
         == Filled(Concat(a.chunks) + buffer[|Concat(a.chunks)|..])
  {
    var t, attempts := Empty(buffer), [a];
    assert attempts[..0] == [];
    assert RunAttempts(t, attempts, c.conditional) == RunAttempt(t, a, c.conditional);
    var t1 := HandleResponse(t, a, c.conditional).transfer;
    DeliverExactly(t1, a.chunks);
    assert buffer[..0] + Concat(a.chunks) == Concat(a.chunks);
  }

  // A response without the flag that ends at once leaves the caller's buffer as it
  // was, whatever object there is.
  lemma ShortFails(end: Final, length: Option<nat>, location: nat, object_: Bytes, buffer: Bytes)
    requires 0 < |buffer| && location + |buffer| <= |object_| && buffer != object_[location..location + |buffer|]
    requires !end.requestError && !end.success && Passes(length, |buffer|)
    requires end.status == 206 || (end.status == 202 && (length.Some? ==> length.value == |object_|))
    ensures Misread(end, length, location, object_, buffer, Exchange([Attempt(end.status, length, true, [])], end))
  {
    var a := Attempt(end.status, length, true, []);
    var x, c := Exchange([a], end), ReadConfig(false, true);
    assert Concat(a.chunks) == [] && Honest(x, object_, location, |buffer|);
    OneAttempt(buffer, a, end, c);
    assert [] + buffer[0..] == buffer;
  }

  // A redirect that is not followed brings its own body of the right size.
  lemma RedirectFails(end: Final, length: Option<nat>, location: nat, object_: Bytes, body: Bytes)
    requires 0 < |body| && location + |body| <= |object_| && body != object_[location..location + |body|]
    requires !end.requestError && end.success && 300 <= end.status < 400
    ensures Misread(end, length, location, object_, body, Exchange([Attempt(end.status, length, true, [body])], end))
  {
    var a := Attempt(end.status, length, true, [body]);
    var x, c := Exchange([a], end), ReadConfig(false, true);
    ConcatOne(body);
    assert Honest(x, object_, location, |body|);
    OneAttempt(body, a, end, c);
    assert body + body[|body|..] == body;
  }

  // The object instead of the range, cut off where the buffer ends.
  lemma CutOffFails(end: Final, location: nat, object_: Bytes, buffer: Bytes)
    requires 0 < |buffer| && location + |buffer| <= |object_|
    requires object_[..|buffer|] != object_[location..location + |buffer|]
    requires !end.requestError && end.success && end.status < 300 && end.status != 206
    ensures Misread(end, None, location, object_, buffer,
                    Exchange([Attempt(end.status, None, true, [object_[..|buffer|]])], end))
  {
    var body := object_[..|buffer|];
    var a := Attempt(end.status, None, true, [body]);
    var x, c := Exchange([a], end), ReadConfig(false, true);
    ConcatOne(body);
    assert Honest(x, object_, location, |buffer|);
    OneAttempt(buffer, a, end, c);
    assert body + buffer[|body|..] == body;
  }

  // An object whose beginning is not what `location` asks for.
  function Uneven(location: nat, n: nat): (object_: Bytes)
    requires 0 < location && 0 < n
    ensures |object_| == location + n && object_[..n] != object_[location..location + n]
  {
    var object_ := seq(location + n, i => if i < location then 1 as byte else 0);
    assert object_[..n][0] == 1 && object_[location..location + n][0] == 0;
    object_
  }

  lemma UncheckedFails(end: Final, length: Option<nat>, location: nat, n: nat)
      returns (object_: Bytes, buffer: Bytes, x: Exchange)
    requires 0 < n && Unchecked(end, length, location, n)
    ensures |buffer| == n && Misread(end, length, location, object_, buffer, x)
  {
    if end.success && end.status < 300 {
      object_ := Uneven(location, n);
      buffer := object_[..n];
      x := Exchange([Attempt(end.status, None, true, [object_[..|buffer|]])], end);
      CutOffFails(end, location, object_, buffer);
    } else {
      object_ := seq(location + n, _ => 0 as byte);
      buffer := Different(object_[location..location + n]);
      if end.success {
        x := Exchange([Attempt(end.status, length, true, [buffer])], end);
        RedirectFails(end, length, location, object_, buffer);
      } else {
        x := Exchange([Attempt(end.status, length, true, [])], end);
        ShortFails(end, length, location, object_, buffer);
      }
    }
  }

  // The response and the range alone decide: reads are exact for every object and
  // every honest exchange, whatever its attempts and the buffer were, if and only if
  // the response is a checked one.
  lemma ExactlyChecked(end: Final, length: Option<nat>, location: nat, n: nat)
    requires 0 < n
    ensures FillsExactly(end, length, location, n) <==> !Unchecked(end, length, location, n)
  {
    if Unchecked(end, length, location, n) {
      var object_, buffer, x := UncheckedFails(end, length, location, n);
      assert !(var r := TryRangeRequest(buffer, false, x, ReadConfig(false, true));
               r.Filled? ==> r.buffer == object_[location..location + n]);
    } else {
      forall object_: Bytes, buffer: Bytes, known: bool, x: Exchange, c: ReadConfig
        | location + n <= |object_| && |buffer| == n && x.end == end && Length(x) == length
          && Honest(x, object_, location, n)
        ensures var r := TryRangeRequest(buffer, known, x, c);
          r.Filled? ==> r.buffer == object_[location..location + n]
      {
        RangeExact(buffer, known, x, c, object_, location);
      }
    }
  }

  // ------------------------------------------------------------- reads with fallback

  ghost predicate GoodEnvironment(e: Environment, object_: Bytes, location: nat, n: nat)
    requires location + n <= |object_|
  {
    && (e.cached.Some? ==> e.cached.value <= object_)
    && Honest(e.exchange, object_, location, n)
    && !UncheckedExchange(e.exchange, location, n)
  }

  lemma ReadAtExact(buffer: Bytes, location: nat, e: Environment, c: ReadConfig, object_: Bytes)
    requires location + |buffer| <= |object_| && GoodEnvironment(e, object_, location, |buffer|)
    ensures var r := ReadAt(buffer, location, e, c);
      r.Filled? ==> r.buffer == object_[location..location + |buffer|]
  {
    if ReadAt(buffer, location, e, c).Filled? && e.cached.None? {
      if |buffer| > 0 { RangeExact(buffer, e.known, e.exchange, c, object_, location); }
    }
  }

  // A read inside the object that returns has filled the buffer with exactly the
  // bytes asked for, by range request, from a copy, or after falling back to a full
  // download; and it never returns undecided.
  lemma ReadExact(buffer: Bytes, location: nat, length: nat, e: Environment, d: Download, after: Environment,
                  c: ReadConfig, object_: Bytes)
    requires location + |buffer| <= |object_|
    requires GoodEnvironment(e, object_, location, |buffer|) && GoodEnvironment(after, object_, location, |buffer|)
    ensures var r := ReadAtWithFallback(buffer, location, length, e, d, after, c);
      && !r.Declined?
      && (r.Filled? ==> r.buffer == object_[location..location + |buffer|])
  {
    ReadAtExact(buffer, location, e, c, object_);
    ReadAtExact(buffer, location, after, c, object_);
  }

  // A full download holds what its last attempt brought.
  lemma DownloadIsPrefix(d: Download, c: ReadConfig, object_: Bytes)
    requires HonestDownload(d, object_) && FullDownload(d, c).Some?
    ensures FullDownload(d, c).value <= object_
    ensures |FullDownload(d, c).value| == |object_| ==> FullDownload(d, c).value == object_
  {
  }

  // And it delivers: a download whose last response is a 200 has exactly its body,
  // whatever earlier responses appended.
  lemma DownloadDelivers(before: seq<Attempt>, a: Attempt, c: ReadConfig)
    requires DownloadAttempts(before, c.conditional).Some? && a.status == 200
    ensures FullDownload(Own(Exchange(before + [a], Final(200, false, true))), c)
         == if a.etagOk then Some(Concat(a.chunks)) else None
  {
    var all := before + [a];
    assert all[..|all| - 1] == before;
  }

  // Anything else than a 200 is no download, not even a part.
  lemma DownloadRefuses(x: Exchange, c: ReadConfig)
    requires x.end.requestError || x.end.status != 200
    ensures FullDownload(Own(x), c) == None
  {
  }

  // A copy answers every read inside it, and fails every other one.
  lemma CopyAnswers(buffer: Bytes, location: nat, data: Bytes, known: bool, x: Exchange, c: ReadConfig)
    requires location + |buffer| <= B.MAX_INDEX
    ensures ReadAt(buffer, location, Environment(Some(data), known, x), c) ==
      if location + |buffer| <= |data| then Filled(data[location..location + |buffer|]) else Raised
  {
  }

  // The fallback works: a server without range support, a whole download and the
  // size that HEAD reported give exactly the bytes asked for; another size is
  // refused.
  lemma FallbackDelivers(buffer: Bytes, location: nat, length: nat, e: Environment, d: Download, after: Environment,
                         c: ReadConfig, object_: Bytes)
    requires 0 < |buffer| && location + |buffer| <= |object_| <= B.MAX_INDEX
    requires e.cached.None? && ReadAt(buffer, location, e, c).Declined?
    requires HonestDownload(d, object_) && FullDownload(d, c).Some? && after.cached == FullDownload(d, c)
    requires |FullDownload(d, c).value| == |object_|
    ensures ReadAtWithFallback(buffer, location, length, e, d, after, c)
         == if length == |object_| then Filled(object_[location..location + |buffer|]) else Raised
  {
    DownloadIsPrefix(d, c, object_);
  }

  // -------------------------------------------------------------- sequential reads

  // What one sequential read finds on its way.
  datatype Call = Call(want: nat, buffer: Bytes, e: Environment, d: Download, after: Environment)

  function Size(cursor: nat, length: nat, want: nat): nat {
    if want == 0 || cursor >= length then 0 else if want < length - cursor then want else length - cursor
  }

  // The bytes it returns; None when it throws.
  function Returned(cursor: nat, length: nat, call: Call, c: ReadConfig): Option<Bytes>
    requires call.want <= |call.buffer|
  {
    var n := Size(cursor, length, call.want);
    if n == 0 then Some([])
    else
      match ReadAtWithFallback(call.buffer[..n], cursor, length, call.e, call.d, call.after, c)
      case Filled(b) => Some(b)
      case _ => None
  }

  lemma RangeKeepsLength(buffer: Bytes, known: bool, x: Exchange, c: ReadConfig)
    ensures var r := TryRangeRequest(buffer, known, x, c); r.Filled? ==> |r.buffer| == |buffer|
  {
    if RunAttempts(Empty(buffer), x.attempts, c.conditional).Some? {
      RunKeepsLength(Empty(buffer), x.attempts, c.conditional);
    }
  }

  lemma ReadKeepsLength(buffer: Bytes, location: nat, length: nat, e: Environment, d: Download, after: Environment,
                        c: ReadConfig)
    ensures var r := ReadAtWithFallback(buffer, location, length, e, d, after, c);
      r.Filled? ==> |r.buffer| == |buffer|
  {
    RangeKeepsLength(buffer, e.known, e.exchange, c);
    RangeKeepsLength(buffer, after.known, after.exchange, c);
  }

  // How many bytes a read that returns has read: as many as it wants, or what is left.
  predicate Counted(cursor: nat, length: nat, want: nat, r: Option<Bytes>) {
    r.Some? ==>
      && (cursor < length && want <= length - cursor ==> |r.value| == want)
      && (cursor < length && want > length - cursor ==> |r.value| == length - cursor)
      && (cursor >= length ==> |r.value| == 0)
  }

  lemma ReturnedCounted(cursor: nat, length: nat, call: Call, c: ReadConfig)
    requires call.want <= |call.buffer|
    ensures Counted(cursor, length, call.want, Returned(cursor, length, call, c))
    ensures Returned(cursor, length, call, c).Some? ==>
      |Returned(cursor, length, call, c).value| == Size(cursor, length, call.want)
  {
    var n := Size(cursor, length, call.want);
    ReadKeepsLength(call.buffer[..n], cursor, length, call.e, call.d, call.after, c);
  }

  class HTTPFileHandle {
    const length: nat
    var fileOffset: nat

    constructor (length: nat)
      ensures this.length == length && fileOffset == 0
    {
      this.length, fileOffset := length, 0;
    }

    // Read without a position.
    method Read(call: Call, c: ReadConfig) returns (r: Option<Bytes>)
      requires call.want <= |call.buffer|
      modifies this`fileOffset
      ensures r == Returned(old(fileOffset), length, call, c)
      ensures Counted(old(fileOffset), length, call.want, r)
      ensures fileOffset == old(fileOffset) + if r.Some? then |r.value| else 0
    {
      ReturnedCounted(fileOffset, length, call, c);
      if call.want == 0 || fileOffset >= length {
        return Some([]);
      }
      var n := if length - fileOffset < call.want then length - fileOffset else call.want;
      var location := fileOffset;
      var result := ReadAtWithFallback(call.buffer[..n], location, length, call.e, call.d, call.after, c);
      if !result.Filled? {
        return None;
      }
      fileOffset := fileOffset + n;
      return Some(result.buffer);
    }
  }

  datatype Progress = Progress(cursor: nat, bytes: Bytes)

  function ReadAll(cursor: nat, length: nat, calls: seq<Call>, c: ReadConfig): Progress
    requires forall i :: 0 <= i < |calls| ==> calls[i].want <= |calls[i].buffer|
  {
    if |calls| == 0 then Progress(cursor, [])
    else
      var before := ReadAll(cursor, length, calls[..|calls| - 1], c);
      var call := calls[|calls| - 1];
      match Returned(before.cursor, length, call, c)
      case None => before
      case Some(b) => Progress(before.cursor + Size(before.cursor, length, call.want), before.bytes + b)
  }

  ghost predicate GoodCall(cursor: nat, length: nat, call: Call, object_: Bytes)
    requires length <= |object_|
  {
    var n := Size(cursor, length, call.want);
    n > 0 ==> GoodEnvironment(call.e, object_, cursor, n) && GoodEnvironment(call.after, object_, cursor, n)
  }

  // The environment of every call is good for the range it asks for.
  ghost predicate GoodCalls(cursor: nat, length: nat, calls: seq<Call>, c: ReadConfig, object_: Bytes)
    requires length <= |object_| && forall i :: 0 <= i < |calls| ==> calls[i].want <= |calls[i].buffer|
  {
    |calls| == 0
    || (var before := calls[..|calls| - 1];
        && GoodCalls(cursor, length, before, c, object_)
        && GoodCall(ReadAll(cursor, length, before, c).cursor, length, calls[|calls| - 1], object_))
  }

  // However many reads there are, of whatever sizes and with whatever failures in
  // between, what they return is the object from the first position to the cursor.
  lemma {:induction false} SequentialReadsAreObject(cursor: nat, length: nat, calls: seq<Call>, c: ReadConfig,
                                                    object_: Bytes)
    requires cursor <= length <= |object_|
    requires forall i :: 0 <= i < |calls| ==> calls[i].want <= |calls[i].buffer|
    requires GoodCalls(cursor, length, calls, c, object_)
    ensures var p := ReadAll(cursor, length, calls, c);
      cursor <= p.cursor <= length && p.bytes == object_[cursor..p.cursor]
  {
    if |calls| > 0 {
      var p := ReadAll(cursor, length, calls[..|calls| - 1], c);
      var call := calls[|calls| - 1];
      SequentialReadsAreObject(cursor, length, calls[..|calls| - 1], c, object_);
      var n := Size(p.cursor, length, call.want);
      if n > 0 {
        ReadExact(call.buffer[..n], p.cursor, length, call.e, call.d, call.after, c, object_);
        assert object_[cursor..p.cursor] + object_[p.cursor..p.cursor + n] == object_[cursor..p.cursor + n];
      }
    }
  }

  // No read of these throws.
  predicate AllReturn(cursor: nat, length: nat, calls: seq<Call>, c: ReadConfig)
    requires forall i :: 0 <= i < |calls| ==> calls[i].want <= |calls[i].buffer|
  {
    |calls| == 0
    || (var before := calls[..|calls| - 1];
        && AllReturn(cursor, length, before, c)
        && Returned(ReadAll(cursor, length, before, c).cursor, length, calls[|calls| - 1], c).Some?)
  }

  function Wanted(calls: seq<Call>): nat {
    if |calls| == 0 then 0 else Wanted(calls[..|calls| - 1]) + calls[|calls| - 1].want
  }

  // Reads that return move the cursor by all they want, up to the end of the file.
  lemma {:induction false} CursorMoves(cursor: nat, length: nat, calls: seq<Call>, c: ReadConfig)
    requires cursor <= length && AllWithin(calls) && AllReturn(cursor, length, calls, c)
    ensures var moved := cursor + Wanted(calls);
      ReadAll(cursor, length, calls, c).cursor == if moved < length then moved else length
  {
    if |calls| > 0 {
      CursorMoves(cursor, length, calls[..|calls| - 1], c);
    }
  }

  predicate AllWithin(calls: seq<Call>) {
    forall i :: 0 <= i < |calls| ==> calls[i].want <= |calls[i].buffer|
  }

  lemma {:induction false} WantedAtLeast(calls: seq<Call>)
    requires forall i :: 0 <= i < |calls| ==> calls[i].want > 0
    ensures Wanted(calls) >= |calls|
  {
    if |calls| > 0 { WantedAtLeast(calls[..|calls| - 1]); }
  }

  // So enough reads that return and want something have read the whole rest of the
  // file, and a read returns nothing only at its end.
  lemma ReadsReachEnd(cursor: nat, length: nat, calls: seq<Call>, c: ReadConfig, object_: Bytes)
    requires cursor <= length <= |object_| && AllWithin(calls)
    requires GoodCalls(cursor, length, calls, c, object_) && AllReturn(cursor, length, calls, c)
    requires |calls| >= length - cursor && forall i :: 0 <= i < |calls| ==> calls[i].want > 0
    ensures ReadAll(cursor, length, calls, c) == Progress(length, object_[cursor..length])
  {
    WantedAtLeast(calls);
    CursorMoves(cursor, length, calls, c);
    SequentialReadsAreObject(cursor, length, calls, c, object_);
  }
}
