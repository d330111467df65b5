// What becomes of each call on an upload session: where its bytes go, when it fails
// and why, and what its caller is told.
module UploadWrites {
  import opened Common
  import opened UploadState
  import opened UploadProtocol
  import opened UploadTenancy
  import opened UploadCleanup
  import opened UploadInit
  import opened UploadFailure
  import opened UploadData
  import opened UploadLimits
  import R = UploadRuns
  import Sizing = UploadSizing

  // ----------------------------------------------------------- writes at offsets

  // A write that was admitted and has yet to be accepted.
  predicate Offers(s: System, t: Tid, data: Bytes, location: nat) {
    At(s, t) == Inside(false, Preparing(data, location))
  }

  // Its bytes have been accepted.
  predicate Accepted(s: System, t: Tid) {
    At(s, t).Inside? && At(s, t).work.Looping?
  }

  predicate FitsFile(c: Sizing.Config, s: System, data: Bytes) {
    s.sh.nextOffset + |data| <= c.maxFileSize as int
  }

  // The offset, the limits and a failure decide what becomes of a write; only an
  // accepted one changes what is to be uploaded.
  lemma WriteDecided(c: Sizing.Config, s: System, t: Tid, data: Bytes, location: nat)
    requires c.growthInterval > 0 && R.Safe(c, s) && Offers(s, t, data, location)
    ensures var s' := Step(c, s, t, Run);
      && (s.sh.primary.Some? ==> At(s', t) == Failing(Rethrown, Definitive))
      && (s.sh.primary.None? && location > s.sh.nextOffset ==> s' == s)
      && (s.sh.primary.None? && location < s.sh.nextOffset ==> At(s', t) == Failing(NotSequential, Definitive))
      && (s.sh.primary.None? && location == s.sh.nextOffset && !FitsFile(c, s, data) ==>
            At(s', t) == Failing(FileTooLarge, Definitive))
      && (s.sh.primary.None? && location == s.sh.nextOffset && FitsFile(c, s, data) ==>
            Accepted(s', t) || At(s', t) == Failing(PartLimit, Definitive))
      && (Accepted(s', t) ==>
            s'.data.stream == s.data.stream + data && s'.sh.nextOffset == location + |data|)
      && (!Accepted(s', t) && At(s', t) != Failing(PartLimit, Definitive) ==> s'.sh == s.sh && s'.data == s.data)
  {
  }

  // With a valid configuration the part limit never decides.
  lemma FittingAccepted(c: Sizing.Config, s: System, t: Tid, data: Bytes, location: nat)
    requires Sizing.ValidConfig(c) && R.Safe(c, s) && Offers(s, t, data, location)
    ensures Accepted(Step(c, s, t, Run), t) <==>
      s.sh.primary.None? && location == s.sh.nextOffset && FitsFile(c, s, data)
  {
    WriteDecided(c, s, t, data, location);
    R.StepSafe(c, s, t, Run);
    assert LimitsOf(c, Step(c, s, t, Run), At(Step(c, s, t, Run), t));
  }

  // In every run an accepted write stands at its own offset, in the stream and so in
  // whatever object the server ever shows.
  lemma AcceptedInPlace(c: Sizing.Config, sched: R.Schedule, t: Tid, data: Bytes, location: nat, more: R.Schedule)
    requires c.growthInterval > 0 && Offers(R.Run(c, sched), t, data, location)
    requires Accepted(R.Run(c, sched + [(t, Run)]), t)
    ensures var s := R.Run(c, sched + [(t, Run)] + more);
      && location + |data| <= |s.data.stream| && s.data.stream[location..location + |data|] == data
      && (s.data.published.Some? ==>
            location + |data| <= |s.data.published.value|
            && s.data.published.value[location..location + |data|] == data)
  {
    var before, after := R.Run(c, sched), R.Run(c, sched + [(t, Run)]);
    RunOne(c, sched, (t, Run));
    R.RunSafe(c, sched);
    WriteDecided(c, before, t, data, location);
    R.RunForward(c, sched + [(t, Run)], more);
    R.FinalizedPublishesStream(c, sched + [(t, Run)] + more);
    InPlace(before.data.stream, data, R.Run(c, sched + [(t, Run)] + more).data.stream);
  }

  lemma InPlace(before: Bytes, data: Bytes, stream: Bytes)
    requires before + data <= stream
    ensures |before| + |data| <= |stream| && stream[|before|..|before| + |data|] == data
  {
    assert (before + data)[|before|..] == data;
  }

  lemma RunOne(c: Sizing.Config, sched: R.Schedule, step: (Tid, Event))
    requires c.growthInterval > 0
    ensures R.Run(c, sched + [step]) == Step(c, R.Run(c, sched), step.0, step.1)
  {
    var all := sched + [step];
    assert all[..|all| - 1] == sched;
  }

  // --------------------------------------------------------------- where it is cut

  // Left in the buffer: too little for the next part, or for more than one object.
  predicate TooSmall(c: Sizing.Config, reserved: nat, n: nat)
    requires c.growthInterval > 0
  {
    if reserved == 0 then n <= Sizing.PartSize(c, 0) else n < Sizing.PartSize(c, reserved)
  }

  // What remains of `data` before piece `k`.
  function Remaining(data: Bytes, parts: seq<Bytes>, k: nat): int
    requires k <= |parts|
  {
    |data| - |Concat(parts[..k])|
  }

  // A piece is as large as S3 allows, or the rest of the write, and more than what is
  // left for the buffer.
  ghost predicate Greedy(c: Sizing.Config, reserved: nat, data: Bytes, parts: seq<Bytes>, k: nat)
    requires c.growthInterval > 0 && k < |parts|
  {
    var rest := Remaining(data, parts, k);
    rest >= 0 && !TooSmall(c, reserved + k, rest) && |parts[k]| == Sizing.Min(rest, Sizing.MAX_PART as int)
  }

  // A buffer holds what is too small, and has room for one scheduled part.
  ghost predicate Rest(c: Sizing.Config, reserved: nat, tail: Option<Buffer>)
    requires c.growthInterval > 0
  {
    tail.Some? ==>
      && 0 < |tail.value.data| && TooSmall(c, reserved, |tail.value.data|)
      && tail.value.capacity == Sizing.PartSize(c, reserved)
  }

  lemma ConcatPrefix(first: Bytes, rest: seq<Bytes>, k: nat)
    requires k <= |rest|
    ensures Concat(([first] + rest)[..k + 1]) == first + Concat(rest[..k])
  {
    assert ([first] + rest)[..k + 1] == [first] + rest[..k];
    ConcatAppend([first], rest[..k]);
    ConcatOne(first);
  }

  // One piece and what is cut from the rest.
  lemma CutFirst(c: Sizing.Config, reserved: nat, data: Bytes)
    requires c.growthInterval > 0 && |Cut(c, reserved, data).parts| > 0
    ensures var direct := Sizing.Min(|data|, Sizing.MAX_PART as int);
      && 0 < direct <= |data| && !TooSmall(c, reserved, |data|) && Sizing.HasPartCapacity(c, reserved)
      && Cut(c, reserved, data) == CutAfter(data[..direct], Cut(c, reserved + 1, data[direct..]))
  {
  }

  lemma {:induction false} CutGreedy(c: Sizing.Config, reserved: nat, data: Bytes, k: nat)
    requires c.growthInterval > 0 && k < |Cut(c, reserved, data).parts|
    ensures Greedy(c, reserved, data, Cut(c, reserved, data).parts, k)
    decreases |data|
  {
    var parts := Cut(c, reserved, data).parts;
    CutFirst(c, reserved, data);
    if k == 0 {
      assert parts[..0] == [];
    } else {
      var rest := data[|parts[0]|..];
      var inner := Cut(c, reserved + 1, rest);
      ConcatPrefix(parts[0], inner.parts, k - 1);
      CutGreedy(c, reserved + 1, rest, k - 1);
    }
  }

  // Where the cutting stops: with nothing left, with too little for a part, or at the
  // part limit.
  lemma {:induction false} CutStops(c: Sizing.Config, reserved: nat, data: Bytes)
    requires c.growthInterval > 0
    ensures var cut := Cut(c, reserved, data);
      var rest := Remaining(data, cut.parts, |cut.parts|);
      && rest >= 0 && Rest(c, reserved + |cut.parts|, cut.tail)
      && |Data(cut.tail)| == (if cut.overflow then 0 else rest)
      && (cut.overflow <==>
            rest > 0 && !TooSmall(c, reserved + |cut.parts|, rest)
            && !Sizing.HasPartCapacity(c, reserved + |cut.parts|))
    decreases |data|
  {
    var cut := Cut(c, reserved, data);
    if |cut.parts| == 0 {
      assert cut.parts[..0] == [];
    } else {
      CutFirst(c, reserved, data);
      var first := cut.parts[0];
      var inner := Cut(c, reserved + 1, data[|first|..]);
      CutStops(c, reserved + 1, data[|first|..]);
      ConcatPrefix(first, inner.parts, |inner.parts|);
    }
  }

  // Where a write is cut, exactly: the shape leaves no choice.
  lemma CutShape(c: Sizing.Config, reserved: nat, data: Bytes)
    requires c.growthInterval > 0
    ensures var cut := Cut(c, reserved, data);
      var rest := Remaining(data, cut.parts, |cut.parts|);
      && (forall k :: 0 <= k < |cut.parts| ==> Greedy(c, reserved, data, cut.parts, k))
      && Rest(c, reserved + |cut.parts|, cut.tail) && |Data(cut.tail)| == (if cut.overflow then 0 else rest)
      && (cut.overflow <==>
            rest > 0 && !TooSmall(c, reserved + |cut.parts|, rest)
            && !Sizing.HasPartCapacity(c, reserved + |cut.parts|))
  {
    CutStops(c, reserved, data);
    forall k | 0 <= k < |Cut(c, reserved, data).parts|
      ensures Greedy(c, reserved, data, Cut(c, reserved, data).parts, k)
    {
      CutGreedy(c, reserved, data, k);
    }
  }

  // The same behind a buffered part: it is filled to its capacity before anything
  // else is cut, and stays in the buffer while the write does not go beyond it.
  lemma BufferedShape(c: Sizing.Config, reserved: nat, buffer: Buffer, data: Bytes)
    requires c.growthInterval > 0 && |buffer.data| <= buffer.capacity
    ensures var cut := CutBuffered(c, reserved, Some(buffer), data);
      var room := buffer.capacity - |buffer.data|;
      if |data| <= room || |data| == 0 then
        cut == Cutting([], Some(Buffer(buffer.data + data, buffer.capacity)), false)
      else if reserved >= c.maxParts as int then cut.overflow && |cut.parts| == 0
      else cut == CutAfter(buffer.data + data[..room], Cut(c, reserved + 1, data[room..]))
  {
    assert data[..|data|] == data;
    if |data| == 0 { assert buffer.data + data == buffer.data; }
  }

  // Once a part is reserved there is more than one part to write.
  ghost predicate SeveralParts(c: Sizing.Config, s: System)
    requires c.growthInterval > 0
  {
    |s.data.reserved| > 0 ==> |s.data.stream| > Sizing.PartSize(c, 0)
  }

  predicate SameParts(s: System, s': System) {
    s'.data.reserved == s.data.reserved && s'.data.stream == s.data.stream
  }

  lemma UploadSameParts(s: System, t: Tid, fin: bool, work: Work, ev: Event)
    ensures SameParts(s, StepUpload(s, t, fin, work, ev))
  {
  }

  lemma FinalizeSameParts(s: System, t: Tid, work: Work, ev: Event)
    ensures SameParts(s, StepFinalize(s, t, work, ev))
  {
  }

  lemma InsideSameParts(c: Sizing.Config, s: System, t: Tid, fin: bool, work: Work, ev: Event)
    requires c.growthInterval > 0 && BufferFits(s.sh) && !work.Preparing? && !work.Reserving?
    ensures SameParts(s, StepInside(c, s, t, fin, work, ev))
  {
    UploadSameParts(s, t, fin, work, ev);
    FinalizeSameParts(s, t, work, ev);
  }

  lemma OutsideSameParts(c: Sizing.Config, s: System, t: Tid, ev: Event)
    requires c.growthInterval > 0 && BufferFits(s.sh) && !At(s, t).Inside?
    ensures SameParts(s, Step(c, s, t, ev))
  {
  }

  lemma PrepareSeveral(c: Sizing.Config, s: System, t: Tid, data: Bytes, location: nat)
    requires Sizing.ValidConfig(c) && R.Safe(c, s) && SeveralParts(c, s) && Offers(s, t, data, location)
    ensures SeveralParts(c, StepPrepare(c, s, t, data, location))
  {
    var s' := StepPrepare(c, s, t, data, location);
    assert TenancyOf(s, t, At(s, t)) && t in s.holders;
    WriteDecided(c, s, t, data, location);
    FittingAccepted(c, s, t, data, location);
    assert s' == Step(c, s, t, Run);
    if Accepted(s', t) && |s.data.reserved| == 0 && |s'.data.reserved| > 0 {
      FirstPart(c, s.sh.buffered, data);
      assert Concat(s.data.reserved) == [];
    }
  }

  lemma FirstPart(c: Sizing.Config, buffered: Option<Buffer>, data: Bytes)
    requires c.growthInterval > 0 && BufferOk(c, 0, buffered)
    requires |CutBuffered(c, 0, buffered, data).parts| > 0
    ensures |Data(buffered)| + |data| > Sizing.PartSize(c, 0)
  {
    if buffered.None? {
      CutShape(c, 0, data);
      assert Greedy(c, 0, data, Cut(c, 0, data).parts, 0);
      assert Cut(c, 0, data).parts[..0] == [];
    } else {
      BufferedShape(c, 0, buffered.value, data);
    }
  }

  lemma StepSeveral(c: Sizing.Config, s: System, t: Tid, ev: Event)
    requires Sizing.ValidConfig(c) && R.Safe(c, s) && SeveralParts(c, s)
    ensures SeveralParts(c, Step(c, s, t, ev))
  {
    match At(s, t)
    case Inside(fin, work) =>
      if work.Preparing? {
        assert TenancyOf(s, t, At(s, t));
        if ev.Run? { PrepareSeveral(c, s, t, work.data, work.location); }
      } else if work.Reserving? {
        assert TenancyOf(s, t, At(s, t)) && DataOf(s, t, At(s, t));
      } else {
        InsideSameParts(c, s, t, fin, work, ev);
      }
    case _ => OutsideSameParts(c, s, t, ev);
  }

  lemma {:induction false} RunSeveral(c: Sizing.Config, sched: R.Schedule)
    requires Sizing.ValidConfig(c)
    ensures SeveralParts(c, R.Run(c, sched))
  {
    if |sched| > 0 {
      var init, step := sched[..|sched| - 1], sched[|sched| - 1];
      RunSeveral(c, init);
      R.RunSafe(c, init);
      StepSeveral(c, R.Run(c, init), step.0, step.1);
    }
  }

  lemma DecidingParts(c: Sizing.Config, s: System, t: Tid)
    requires Sizing.ValidConfig(c) && R.Safe(c, s) && SeveralParts(c, s)
    requires At(s, t).Inside? && At(s, t).work.Deciding?
    ensures |s.sh.etags| == 0 <==> |s.data.stream| <= Sizing.PartSize(c, 0)
    ensures |s.sh.etags| == 0 ==> Data(At(s, t).work.tail) == s.data.stream
  {
    assert TenancyOf(s, t, At(s, t)) && DataOf(s, t, At(s, t)) && LimitsOf(c, s, At(s, t));
    if |s.data.reserved| == 0 { assert Concat(s.data.reserved) == []; }
  }

  // Finalize sends the object by a single PUT exactly when everything written fits
  // into the first part.
  lemma OnePutExactly(c: Sizing.Config, sched: R.Schedule, t: Tid)
    requires Sizing.ValidConfig(c)
    requires At(R.Run(c, sched), t).Inside? && At(R.Run(c, sched), t).work.Deciding?
    ensures var s := R.Run(c, sched);
      var next := At(Step(c, s, t, Run), t);
      && next.Inside?
      && (|s.data.stream| <= Sizing.PartSize(c, 0) <==> next.work == PuttingSingle(s.data.stream, false))
      && (|s.data.stream| > Sizing.PartSize(c, 0) <==> next.work.Reserving? || next.work == Looping([]))
  {
    R.RunSafe(c, sched);
    RunSeveral(c, sched);
    DecidingParts(c, R.Run(c, sched), t);
  }
}
