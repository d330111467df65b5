// Where the bytes of the admitted writes are: reserved as parts, buffered, or in
// the hands of Finalize; and what the server was given.
module UploadData {
  import opened Common
  import opened UploadState
  import opened UploadProtocol
  import opened UploadTenancy
  import Sizing = UploadSizing

  // Parts a thread has yet to upload.
  function Pending(l: Thread): seq<Part> {
    if !l.Inside? then []
    else
      match l.work
      case Looping(parts) => parts
      case Ensuring(parts) => parts
      case Initializing(parts, _) => parts
      case Publishing(parts, _) => parts
      case Checking(parts, _) => parts
      case Putting(parts, _, _) => parts
      case Storing(parts, _) => parts
      case _ => []
  }

  predicate Uploading(w: Work) {
    w.Ensuring? || w.Initializing? || w.Publishing? || w.Checking? || w.Putting? || w.Storing?
  }

  ghost predicate PartOf(s: System, t: Tid, p: Part) {
    && p.index < |s.data.reserved| == |s.data.owner| == |s.sh.etags|
    && p.data == s.data.reserved[p.index]
    && s.data.owner[p.index] == t
    && s.sh.etags[p.index] == "" && p.index !in s.data.blanks
  }

  ghost predicate PartsOf(s: System, t: Tid, parts: seq<Part>) {
    && (forall i :: 0 <= i < |parts| ==> PartOf(s, t, parts[i]))
    && (forall i, j :: 0 <= i < j < |parts| ==> parts[i].index < parts[j].index)
  }

  // What a thread inside Finalize still has to publish.
  ghost predicate FinalOf(s: System, w: Work) {
    match w
    case Deciding(tail) => Concat(s.data.reserved) + Data(tail) == s.data.stream
    case Reserving(buffer) => Concat(s.data.reserved) + buffer.data == s.data.stream && |s.sh.etags| > 0
    case PuttingSingle(body, _) => body == s.data.stream
    case Finishing => s.data.published == Some(s.data.stream)
    case Completing(etags, _) =>
      Concat(s.data.reserved) == s.data.stream && etags == s.sh.etags && "" !in etags && |etags| > 0
    case _ => Concat(s.data.reserved) == s.data.stream && |s.sh.etags| > 0
  }

  ghost predicate DataOf(s: System, t: Tid, l: Thread) {
    && PartsOf(s, t, Pending(l))
    && (l.Inside? && Uploading(l.work) ==> |Pending(l)| > 0)
    && (l.Inside? && l.work.Storing? ==> l.work.parts[0].index in s.data.store)
    && (l.Inside? && l.fin ==> FinalOf(s, l.work))
  }

  ghost predicate HasIndex(parts: seq<Part>, n: nat) {
    exists i :: 0 <= i < |parts| && parts[i].index == n
  }

  ghost predicate Carries(l: Thread, n: nat) {
    l.Failing? || HasIndex(Pending(l), n)
  }

  // `next` carries whatever `l` carries.
  predicate StillCarries(l: Thread, next: Thread) {
    next.Failing? || (!l.Failing? && (Pending(next) == Pending(l) || Pending(l) == []))
  }

  // A reserved part was answered by the server or is still on its way.
  ghost predicate Accounted(s: System, i: nat)
    requires i < |s.sh.etags| == |s.data.owner|
  {
    s.sh.etags[i] != "" || i in s.data.blanks || Carries(At(s, s.data.owner[i]), i)
  }

  ghost predicate StoreHolds(d: DataHistory) {
    forall n :: n in d.store ==> n < |d.reserved| && d.store[n] == d.reserved[n]
  }

  ghost predicate Answers(s: System)
    requires |s.sh.etags| == |s.data.owner|
  {
    && (forall i :: 0 <= i < |s.sh.etags| && (s.sh.etags[i] != "" || i in s.data.blanks) ==> i in s.data.store)
    && (forall n :: n in s.data.blanks ==> n < |s.sh.etags| && s.sh.etags[n] == "")
    && (s.sh.primary.None? ==> forall i :: 0 <= i < |s.sh.etags| ==> Accounted(s, i))
    && (s.data.store != map[] ==> s.sh.uploadId.Some?)
  }

  ghost predicate Conserved(sh: Shared, d: DataHistory) {
    Concat(d.reserved) + Data(sh.buffered) == d.stream
  }

  ghost predicate Undisturbed(s: System) {
    && s.sh.primary.None? && s.data.brokenBy.None? && s.sh.cleanup == NoCleanup
    && (s.sh.lifecycle == Active || s.sh.lifecycle == Aborting)
  }

  ghost predicate DataGlobal(s: System) {
    && |s.sh.etags| == |s.data.reserved| == |s.data.owner|
    && |s.data.stream| == s.sh.nextOffset
    && StoreHolds(s.data)
    && Answers(s)
    && (s.data.brokenBy.Some? ==> s.sh.primary.Some? || At(s, s.data.brokenBy.value).Failing?)
    && (Undisturbed(s) ==> Conserved(s.sh, s.data))
    && (s.sh.lifecycle == Finalized ==> s.data.published.Some?)
    && (s.data.published.Some? ==>
          && s.data.published.value == s.data.stream
          && (s.sh.primary.Some? || s.sh.lifecycle == Finalizing || s.sh.lifecycle == Finalized))
  }

  ghost predicate Datas(s: System) {
    && DataGlobal(s)
    && forall t: Tid :: DataOf(s, t, At(s, t))
  }

  lemma StartDatas()
    ensures Datas(Start)
  {
  }

  // What the threads other than `t` rely on.
  ghost predicate Grows(s: System, s': System, t: Tid) {
    && |s.sh.etags| == |s.data.reserved| == |s.data.owner|
    && |s'.sh.etags| == |s'.data.reserved| == |s'.data.owner|
    && s.data.reserved <= s'.data.reserved && s.data.owner <= s'.data.owner
    && (forall i :: 0 <= i < |s.sh.etags| && s.data.owner[i] != t ==>
          s'.sh.etags[i] == s.sh.etags[i] && (i in s'.data.blanks <==> i in s.data.blanks))
    && (forall n :: n in s.data.store ==> n in s'.data.store)
    && (t in s.holders || (s'.data == s.data && s'.sh.etags == s.sh.etags))
    && s'.threads == s.threads[t := At(s', t)]
  }

  lemma OtherData(s: System, s': System, t: Tid, u: Tid)
    requires Tenancy(s) && Datas(s) && Grows(s, s', t) && u != t
    ensures DataOf(s', u, At(s', u))
  {
    var l := At(s, u);
    assert At(s', u) == l && DataOf(s, u, l) && TenancyOf(s, u, l);
    forall i | 0 <= i < |Pending(l)| ensures PartOf(s', u, Pending(l)[i]) {
      assert PartOf(s, u, Pending(l)[i]);
    }
    if l.Inside? && l.fin && t in s.holders {
      Sole(s.holders, t, u);
    }
  }

  lemma Regroup(s: System, s': System, t: Tid)
    requires Tenancy(s) && Datas(s) && Grows(s, s', t)
    requires DataGlobal(s') && DataOf(s', t, At(s', t))
    ensures Datas(s')
  {
    forall u: Tid ensures DataOf(s', u, At(s', u)) {
      if u != t { OtherData(s, s', t, u); }
    }
  }

  // Accounting survives when the parts that `t` gives up are answered.
  lemma KeepAccounted(s: System, s': System, t: Tid)
    requires Datas(s) && Grows(s, s', t) && s.sh.primary.None?
    requires forall i :: 0 <= i < |s'.sh.etags| && s'.data.owner[i] == t ==> Accounted(s', i)
    requires forall i :: |s.sh.etags| <= i < |s'.sh.etags| ==> s'.data.owner[i] == t
    ensures forall i :: 0 <= i < |s'.sh.etags| ==> Accounted(s', i)
  {
    forall i | 0 <= i < |s'.sh.etags| ensures Accounted(s', i) {
      if s'.data.owner[i] != t {
        assert Accounted(s, i) && s'.data.owner[i] == s.data.owner[i];
      }
    }
  }

  lemma FrameAnswers(s: System, s': System, t: Tid)
    requires Datas(s) && Grows(s, s', t)
    requires s'.data == s.data && s'.sh.etags == s.sh.etags
    requires s.sh.primary.Some? ==> s'.sh.primary.Some?
    requires s.sh.uploadId.Some? ==> s'.sh.uploadId.Some?
    requires s'.sh.primary.Some? || StillCarries(At(s, t), At(s', t))
    ensures Answers(s')
  {
    if s'.sh.primary.None? {
      forall i | 0 <= i < |s'.sh.etags| && s'.data.owner[i] == t ensures Accounted(s', i) {
        assert Accounted(s, i);
      }
      KeepAccounted(s, s', t);
    }
  }

  // What may happen to the lifecycle while the bytes stay where they are.
  ghost predicate LifecycleKeeps(a: Shared, b: Shared) {
    && (a.primary.Some? ==> b.primary.Some?)
    && (a.cleanup != NoCleanup ==> b.cleanup != NoCleanup)
    && (b.lifecycle == Finalized <==> a.lifecycle == Finalized)
    && (b.primary.None? ==>
          || b.lifecycle == a.lifecycle
          || (a.lifecycle == Active && b.lifecycle == Aborting)
          || (a.lifecycle == Aborting && b.lifecycle == Aborted))
  }

  // A step that leaves the bytes alone.
  lemma FrameDatas(s: System, s': System, t: Tid)
    requires Tenancy(s) && Datas(s)
    requires s'.data == s.data && s'.sh.etags == s.sh.etags && s'.sh.nextOffset == s.sh.nextOffset
    requires s'.sh.buffered == s.sh.buffered || s'.sh.primary.Some? || s'.sh.cleanup != NoCleanup
    requires LifecycleKeeps(s.sh, s'.sh)
    requires s.sh.uploadId.Some? ==> s'.sh.uploadId.Some?
    requires s'.threads == s.threads[t := At(s', t)]
    requires DataOf(s, t, At(s', t))
    requires s'.sh.primary.Some? || StillCarries(At(s, t), At(s', t))
    ensures Datas(s')
  {
    FrameAnswers(s, s', t);
    assert PartsOf(s', t, Pending(At(s', t))) by {
      forall i | 0 <= i < |Pending(At(s', t))| ensures PartOf(s', t, Pending(At(s', t))[i]) {
        assert PartOf(s, t, Pending(At(s', t))[i]);
      }
    }
    assert s'.data.brokenBy.Some? ==> s'.sh.primary.Some? || At(s', s'.data.brokenBy.value).Failing?;
    Regroup(s, s', t);
  }

  // --------------------------------------------------------------- cutting bytes

  lemma CutAfterConserves(first: Bytes, rest: Cutting, data: Bytes)
    requires Concat(rest.parts) + Data(rest.tail) == data
    ensures Concat(CutAfter(first, rest).parts) + Data(CutAfter(first, rest).tail) == first + data
  {
    ConcatAppend([first], rest.parts);
    ConcatOne(first);
    assert (first + Concat(rest.parts)) + Data(rest.tail) == first + (Concat(rest.parts) + Data(rest.tail));
  }

  lemma {:induction false} CutConserves(c: Sizing.Config, reserved: nat, data: Bytes)
    requires c.growthInterval > 0
    ensures var cut := Cut(c, reserved, data);
      !cut.overflow ==> Concat(cut.parts) + Data(cut.tail) == data
    decreases |data|
  {
    var direct := Sizing.Min(|data|, Sizing.MAX_PART as int);
    if |data| > 0 {
      CutConserves(c, reserved + 1, data[direct..]);
      var rest := Cut(c, reserved + 1, data[direct..]);
      assert data == data[..direct] + data[direct..];
      if !rest.overflow {
        CutAfterConserves(data[..direct], rest, data[direct..]);
      }
    }
  }

  // No byte is lost, doubled or moved by cutting a write.
  lemma CutBufferedConserves(c: Sizing.Config, reserved: nat, buffered: Option<Buffer>, data: Bytes)
    requires c.growthInterval > 0
    requires buffered.Some? ==> |buffered.value.data| <= buffered.value.capacity
    ensures var cut := CutBuffered(c, reserved, buffered, data);
      !cut.overflow ==> Concat(cut.parts) + Data(cut.tail) == Data(buffered) + data
  {
    if buffered.None? {
      CutConserves(c, reserved, data);
    } else if |data| > 0 {
      var b := buffered.value;
      var copied := Sizing.Min(|data|, b.capacity - |b.data|);
      var rest := Cut(c, reserved + 1, data[copied..]);
      assert (b.data + data[..copied]) + data[copied..] == b.data + data;
      CutConserves(c, reserved + 1, data[copied..]);
      if !rest.overflow {
        CutAfterConserves(b.data + data[..copied], rest, data[copied..]);
      }
    }
  }

  // -------------------------------------------------------- steps that move bytes

  lemma BrokenHolder(s: System)
    requires Tenancy(s) && Datas(s) && s.data.brokenBy.Some? && s.sh.primary.None?
    ensures s.data.brokenBy.value in s.holders
  {
    assert TenancyOf(s, s.data.brokenBy.value, At(s, s.data.brokenBy.value));
  }

  // With nobody inside, every reserved part was answered.
  lemma AllAnswered(s: System, i: nat)
    requires Tenancy(s) && Datas(s) && s.holders == {} && s.sh.primary.None? && i < |s.sh.etags|
    ensures s.sh.etags[i] != "" || i in s.data.blanks
  {
    assert Accounted(s, i);
    assert TenancyOf(s, s.data.owner[i], At(s, s.data.owner[i]));
  }

  lemma BeginFinalizeDatas(s: System, t: Tid)
    requires Tenancy(s) && Datas(s) && At(s, t).EnteringFinalize?
    ensures Datas(StepBeginFinalize(s, t))
  {
    var s' := StepBeginFinalize(s, t);
    assert DataOf(s, t, At(s, t));
    if BeginFinalize(s.sh).Admitted? {
      if s.data.brokenBy.Some? {
        BrokenHolder(s);
        assert false;
      }
      forall i | 0 <= i < |s'.sh.etags| ensures Accounted(s', i) {
        AllAnswered(s, i);
      }
      assert Grows(s, s', t);
      Regroup(s, s', t);
    } else if s' != s {
      FrameDatas(s, s', t);
    }
  }

  // The parts that `t` reserves by appending `pieces`.
  lemma ReservedParts(s: System, s': System, t: Tid, pieces: seq<Bytes>)
    requires |s.sh.etags| == |s.data.reserved| == |s.data.owner|
    requires forall n :: n in s.data.blanks ==> n < |s.sh.etags|
    requires s'.sh.etags == s.sh.etags + Blank(|pieces|)
    requires s'.data.reserved == s.data.reserved + pieces
    requires s'.data.owner == s.data.owner + seq(|pieces|, _ => t)
    requires s'.data.blanks == s.data.blanks
    ensures PartsOf(s', t, Numbered(|s.sh.etags|, pieces))
    ensures forall i :: |s.sh.etags| <= i < |s'.sh.etags| ==> s'.data.owner[i] == t
  {
  }

  lemma PayloadsOfNumbered(from: nat, pieces: seq<Bytes>)
    ensures Payloads(Numbered(from, pieces)) == pieces
  {
  }

  lemma IndexesOf(from: nat, pieces: seq<Bytes>, i: nat)
    requires from <= i < from + |pieces|
    ensures HasIndex(Numbered(from, pieces), i)
  {
    assert Numbered(from, pieces)[i - from].index == i;
  }

  // A step by which `t` reserves `pieces` and goes on with their upload.
  lemma ReservingDatas(s: System, s': System, t: Tid, pieces: seq<Bytes>)
    requires Tenancy(s) && Datas(s) && At(s, t).Inside? && s.sh.primary.None?
    requires Pending(At(s, t)) == []
    requires s'.sh.etags == s.sh.etags + Blank(|pieces|) && s'.sh.primary.None?
    requires s'.sh.uploadId == s.sh.uploadId
    requires s'.data == Reserve(s.data, t, pieces).(stream := s'.data.stream)
    requires s'.threads == s.threads[t := At(s', t)]
    requires Pending(At(s', t)) == Numbered(|s.sh.etags|, pieces)
    ensures Grows(s, s', t) && StoreHolds(s'.data) && Answers(s')
    ensures PartsOf(s', t, Pending(At(s', t)))
  {
    assert TenancyOf(s, t, At(s, t));
    ReservedParts(s, s', t, pieces);
    forall i | 0 <= i < |s'.sh.etags| && s'.data.owner[i] == t ensures Accounted(s', i) {
      if i < |s.sh.etags| {
        assert Accounted(s, i);
      } else {
        IndexesOf(|s.sh.etags|, pieces, i);
      }
    }
    KeepAccounted(s, s', t);
  }

  lemma PreparedDatas(c: Sizing.Config, s: System, t: Tid, data: Bytes, location: nat)
    requires c.growthInterval > 0
    requires Tenancy(s) && Datas(s) && At(s, t) == Inside(false, Preparing(data, location))
    requires PrepareWrite(c, s.sh, data, location).Prepared?
    ensures Datas(StepPrepare(c, s, t, data, location))
  {
    var s' := StepPrepare(c, s, t, data, location);
    var cut := CutBuffered(c, |s.sh.etags|, s.sh.buffered, data);
    assert TenancyOf(s, t, At(s, t)) && DataOf(s, t, At(s, t));
    PayloadsOfNumbered(|s.sh.etags|, cut.parts);
    ReservingDatas(s, s', t, cut.parts);
    if Undisturbed(s) {
      PreparedConserved(c, s.sh, s.data, data, cut);
    }
    Regroup(s, s', t);
  }

  lemma PreparedConserved(c: Sizing.Config, sh: Shared, d: DataHistory, data: Bytes, cut: Cutting)
    requires c.growthInterval > 0 && BufferFits(sh) && Conserved(sh, d)
    requires cut == CutBuffered(c, |sh.etags|, sh.buffered, data) && !cut.overflow
    ensures Concat(d.reserved + cut.parts) + Data(cut.tail) == d.stream + data
  {
    CutBufferedConserves(c, |sh.etags|, sh.buffered, data);
    ConcatAppend(d.reserved, cut.parts);
    var r := Concat(d.reserved);
    assert (r + Concat(cut.parts)) + Data(cut.tail) == r + (Concat(cut.parts) + Data(cut.tail));
    assert r + (Data(sh.buffered) + data) == (r + Data(sh.buffered)) + data;
  }

  lemma OverflowDatas(c: Sizing.Config, s: System, t: Tid, data: Bytes, location: nat)
    requires c.growthInterval > 0
    requires Tenancy(s) && Datas(s) && At(s, t) == Inside(false, Preparing(data, location))
    requires PrepareWrite(c, s.sh, data, location).PrepareError?
    ensures Datas(StepPrepare(c, s, t, data, location))
  {
    var s' := StepPrepare(c, s, t, data, location);
    var cut := CutBuffered(c, |s.sh.etags|, s.sh.buffered, data);
    assert TenancyOf(s, t, At(s, t)) && DataOf(s, t, At(s, t));
    if PrepareWrite(c, s.sh, data, location).error != PartLimit {
      FrameDatas(s, s', t);
    } else {
      ReservedParts(s, s', t, cut.parts);
      assert Grows(s, s', t);
      KeepAccounted(s, s', t);
      Regroup(s, s', t);
    }
  }

  lemma ReservedDatas(s: System, s': System, t: Tid, buffer: Buffer)
    requires Tenancy(s) && Datas(s) && At(s, t) == Inside(true, Reserving(buffer))
    requires s' == Continue(s, t, true, Ensuring([Part(|s.sh.etags|, buffer.data)])).(
      sh := s.sh.(etags := s.sh.etags + [""]), data := Reserve(s.data, t, [buffer.data]))
    ensures Datas(s')
  {
    assert TenancyOf(s, t, At(s, t)) && DataOf(s, t, At(s, t));
    assert Blank(1) == [""];
    assert Numbered(|s.sh.etags|, [buffer.data]) == [Part(|s.sh.etags|, buffer.data)];
    ReservingDatas(s, s', t, [buffer.data]);
    ConcatAppend(s.data.reserved, [buffer.data]);
    ConcatOne(buffer.data);
    Regroup(s, s', t);
  }

  lemma ReserveDatas(c: Sizing.Config, s: System, t: Tid, buffer: Buffer)
    requires Tenancy(s) && Datas(s) && At(s, t) == Inside(true, Reserving(buffer))
    ensures Datas(StepReserve(c, s, t, buffer))
  {
    var s' := StepReserve(c, s, t, buffer);
    if Sizing.HasPartCapacity(c, |s.sh.etags|) {
      ReservedDatas(s, s', t, buffer);
    } else {
      assert TenancyOf(s, t, At(s, t)) && DataOf(s, t, At(s, t));
      KeepAccounted(s, s', t);
      Regroup(s, s', t);
    }
  }

  lemma KeepAnswers(s: System, s': System, t: Tid, part: Part, took: bool)
    requires Tenancy(s) && Datas(s) && At(s, t).Inside? && PartOf(s, t, part) && s.sh.uploadId.Some?
    requires s' == Move(s, t, At(s', t)).(data := Keep(s.data, part, took))
    requires StillCarries(At(s, t), At(s', t))
    ensures Grows(s, s', t) && StoreHolds(s'.data) && Answers(s')
  {
    assert TenancyOf(s, t, At(s, t));
    if s.sh.primary.None? {
      forall i | 0 <= i < |s'.sh.etags| && s'.data.owner[i] == t ensures Accounted(s', i) {
        assert Accounted(s, i);
      }
      KeepAccounted(s, s', t);
    }
  }

  lemma KeepDatas(s: System, s': System, t: Tid, part: Part, took: bool)
    requires Tenancy(s) && Datas(s) && At(s, t).Inside? && PartOf(s, t, part) && s.sh.uploadId.Some?
    requires s' == Move(s, t, At(s', t)).(data := Keep(s.data, part, took))
    requires DataOf(s', t, At(s', t))
    requires StillCarries(At(s, t), At(s', t))
    ensures Datas(s')
  {
    KeepAnswers(s, s', t, part, took);
    Regroup(s, s', t);
  }

  lemma DropIndex(parts: seq<Part>, n: nat)
    requires HasIndex(parts, n) && parts[0].index != n
    ensures HasIndex(parts[1..], n)
  {
    var k :| 0 <= k < |parts| && parts[k].index == n;
    assert parts[1..][k - 1].index == n;
  }

  lemma StoredAnswers(s: System, s': System, t: Tid, fin: bool, parts: seq<Part>, etag: string)
    requires Datas(s) && At(s, t) == Inside(fin, Storing(parts, etag)) && s.sh.primary.None?
    requires s' == StepStore(s, t, fin, parts, etag) && Grows(s, s', t)
    ensures Answers(s')
  {
    assert DataOf(s, t, At(s, t));
    assert PartOf(s, t, parts[0]);
    forall i | 0 <= i < |s'.sh.etags| && s'.data.owner[i] == t ensures Accounted(s', i) {
      assert Accounted(s, i);
      if i != parts[0].index && HasIndex(parts, i) {
        DropIndex(parts, i);
      }
    }
    KeepAccounted(s, s', t);
  }

  lemma StoredParts(s: System, s': System, t: Tid, fin: bool, parts: seq<Part>, etag: string)
    requires Tenancy(s) && Datas(s) && At(s, t) == Inside(fin, Storing(parts, etag)) && s.sh.primary.None?
    requires s' == StepStore(s, t, fin, parts, etag)
    ensures Grows(s, s', t) && PartsOf(s', t, parts[1..])
  {
    assert TenancyOf(s, t, At(s, t)) && DataOf(s, t, At(s, t));
    assert PartOf(s, t, parts[0]);
    forall k | 0 <= k < |parts[1..]| ensures PartOf(s', t, parts[1..][k]) {
      assert PartOf(s, t, parts[k + 1]);
    }
  }

  lemma StoreDatas(s: System, t: Tid, fin: bool, parts: seq<Part>, etag: string)
    requires Tenancy(s) && Datas(s) && At(s, t) == Inside(fin, Storing(parts, etag))
    ensures Datas(StepStore(s, t, fin, parts, etag))
  {
    var s' := StepStore(s, t, fin, parts, etag);
    assert DataOf(s, t, At(s, t));
    assert PartOf(s, t, parts[0]);
    if s.sh.primary.Some? {
      FrameDatas(s, s', t);
    } else {
      StoredParts(s, s', t, fin, parts, etag);
      StoredAnswers(s, s', t, fin, parts, etag);
      Regroup(s, s', t);
    }
  }

  lemma {:induction false} AssembleReserved(d: DataHistory, n: nat)
    requires StoreHolds(d) && n <= |d.reserved|
    requires forall i :: 0 <= i < n ==> i in d.store
    ensures Assemble(d.store, n) == Concat(d.reserved[..n])
  {
    if n > 0 {
      AssembleReserved(d, n - 1);
      assert d.reserved[..n][..n - 1] == d.reserved[..n - 1];
    }
  }

  // Every request that can make the object visible carries the whole stream.
  lemma PublishDatas(s: System, s': System, t: Tid, content: Bytes, took: bool)
    requires Tenancy(s) && Datas(s) && At(s, t).Inside? && At(s, t).fin && Pending(At(s, t)) == []
    requires s' == Move(s, t, At(s', t)).(data := Publish(s.data, content, took))
    requires content == s.data.stream
    requires At(s', t).Failing? || (took && At(s', t) == Inside(true, Finishing))
    ensures Datas(s')
  {
    assert TenancyOf(s, t, At(s, t));
    assert Grows(s, s', t);
    forall i | 0 <= i < |s'.sh.etags| && s'.data.owner[i] == t ensures Accounted(s', i) {
      assert Accounted(s, i);
    }
    KeepAccounted(s, s', t);
    Regroup(s, s', t);
  }

  lemma CompletedContent(s: System, t: Tid, etags: seq<string>, sent: bool)
    requires Datas(s) && At(s, t) == Inside(true, Completing(etags, sent))
    ensures Assemble(s.data.store, |etags|) == s.data.stream
  {
    assert DataOf(s, t, At(s, t));
    forall i | 0 <= i < |etags| ensures i in s.data.store {
      assert etags[i] in etags;
    }
    AssembleReserved(s.data, |etags|);
    assert s.data.reserved[..|etags|] == s.data.reserved;
  }

  lemma FinishDatas(s: System, t: Tid)
    requires Tenancy(s) && Datas(s) && At(s, t) == Inside(true, Finishing)
    ensures Datas(StepFinalize(s, t, Finishing, Run))
  {
    var s' := StepFinalize(s, t, Finishing, Run);
    assert TenancyOf(s, t, At(s, t)) && DataOf(s, t, At(s, t));
    assert Grows(s, s', t);
    forall i | 0 <= i < |s'.sh.etags| && s'.data.owner[i] == t ensures Accounted(s', i) {
      assert Accounted(s, i);
    }
    KeepAccounted(s, s', t);
    Regroup(s, s', t);
  }

  // ------------------------------------------------------------------ every step

  lemma UploadFrame(s: System, s': System, t: Tid, fin: bool, work: Work)
    requires Tenancy(s) && Datas(s) && At(s, t) == Inside(fin, work) && !FinalWork(work)
    requires s'.data == s.data && s'.threads == s.threads[t := At(s', t)]
    requires s'.sh.etags == s.sh.etags && s'.sh.nextOffset == s.sh.nextOffset && s'.sh.buffered == s.sh.buffered
    requires s'.sh.cleanup == s.sh.cleanup && (s.sh.uploadId.Some? ==> s'.sh.uploadId.Some?)
    requires s.sh.primary.Some? ==> s'.sh.primary.Some?
    requires s'.sh.lifecycle == s.sh.lifecycle || (s'.sh.primary.Some? && s'.sh.lifecycle == Active)
    requires
      || At(s', t).Failing?
      || (At(s', t).Releasing? && Pending(At(s, t)) == [])
      || (At(s', t).Inside? && At(s', t).fin == fin && Pending(At(s', t)) == Pending(At(s, t))
          && (Uploading(At(s', t).work) ==> |Pending(At(s, t))| > 0)
          && !At(s', t).work.Storing? && !At(s', t).work.Completing? && !At(s', t).work.Finishing?
          && !At(s', t).work.Deciding? && !At(s', t).work.PuttingSingle? && !At(s', t).work.Reserving?)
    ensures Datas(s')
  {
    assert TenancyOf(s, t, At(s, t)) && DataOf(s, t, At(s, t));
    FrameDatas(s, s', t);
  }

  lemma PutDatas(s: System, t: Tid, fin: bool, parts: seq<Part>, id: nat, sent: bool, ev: Event)
    requires Tenancy(s) && Datas(s) && At(s, t) == Inside(fin, Putting(parts, id, sent)) && s.sh.uploadId.Some?
    ensures Datas(StepUpload(s, t, fin, Putting(parts, id, sent), ev))
  {
    var s' := StepUpload(s, t, fin, Putting(parts, id, sent), ev);
    assert TenancyOf(s, t, At(s, t)) && DataOf(s, t, At(s, t));
    assert PartOf(s, t, parts[0]);
    if s' == s {
    } else if sent && ev.AnswerOk? {
      PartsStay(s, s', t, parts);
      KeepDatas(s, s', t, parts[0], true);
    } else if sent {
      KeepDatas(s, s', t, parts[0], ev.took);
    } else {
      UploadFrame(s, s', t, fin, Putting(parts, id, sent));
    }
  }

  lemma PartsStay(s: System, s': System, t: Tid, parts: seq<Part>)
    requires PartsOf(s, t, parts)
    requires s'.sh.etags == s.sh.etags && s'.data.blanks == s.data.blanks
    requires s'.data.reserved == s.data.reserved && s'.data.owner == s.data.owner
    ensures PartsOf(s', t, parts)
  {
    forall k | 0 <= k < |parts| ensures PartOf(s', t, parts[k]) {
      assert PartOf(s, t, parts[k]);
    }
  }

  lemma LocalDatas(s: System, t: Tid, fin: bool, work: Work, ev: Event)
    requires Tenancy(s) && Datas(s) && At(s, t) == Inside(fin, work) && LocalWork(work) && !work.Putting?
    ensures Datas(StepUpload(s, t, fin, work, ev))
  {
    var s' := StepUpload(s, t, fin, work, ev);
    assert DataOf(s, t, At(s, t));
    if s' != s { UploadFrame(s, s', t, fin, work); }
  }

  lemma EnsureDatas(s: System, t: Tid, fin: bool, parts: seq<Part>)
    requires Tenancy(s) && Datas(s) && At(s, t) == Inside(fin, Ensuring(parts))
    ensures Datas(StepEnsure(s, t, fin, parts))
  {
    assert DataOf(s, t, At(s, t));
    UploadFrame(s, StepEnsure(s, t, fin, parts), t, fin, Ensuring(parts));
  }

  lemma InitAnswerDatas(s: System, t: Tid, fin: bool, parts: seq<Part>, answer: InitAnswer)
    requires Tenancy(s) && Datas(s) && At(s, t) == Inside(fin, Publishing(parts, answer))
    ensures Datas(StepPublish(s, t, fin, parts, answer))
  {
    assert DataOf(s, t, At(s, t));
    UploadFrame(s, StepPublish(s, t, fin, parts, answer), t, fin, Publishing(parts, answer));
  }

  lemma UploadDatas(s: System, t: Tid, fin: bool, work: Work, ev: Event)
    requires Tenancy(s) && Datas(s) && At(s, t) == Inside(fin, work) && !FinalWork(work)
    requires work.Putting? ==> s.sh.uploadId.Some?
    ensures Datas(StepUpload(s, t, fin, work, ev))
  {
    match work
    case Ensuring(parts) => if ev.Run? { EnsureDatas(s, t, fin, parts); }
    case Publishing(parts, answer) => if ev.Run? { InitAnswerDatas(s, t, fin, parts, answer); }
    case Putting(parts, id, sent) => PutDatas(s, t, fin, parts, id, sent, ev);
    case Storing(parts, etag) => if ev.Run? { StoreDatas(s, t, fin, parts, etag); }
    case _ => if LocalWork(work) { LocalDatas(s, t, fin, work, ev); }
  }

  lemma FinalDatas(s: System, t: Tid, work: Work, ev: Event)
    requires Tenancy(s) && Datas(s) && At(s, t) == Inside(true, work) && FinalWork(work) && !work.Reserving?
    ensures Datas(StepFinalize(s, t, work, ev))
  {
    var s' := StepFinalize(s, t, work, ev);
    assert TenancyOf(s, t, At(s, t)) && DataOf(s, t, At(s, t));
    if s' == s {
    } else if work.Finishing? {
      FinishDatas(s, t);
    } else if work.PuttingSingle? && work.sent {
      PublishDatas(s, s', t, work.body, ev.AnswerOk? || ev.took);
    } else if work.Completing? && work.sent {
      CompletedContent(s, t, work.etags, true);
      PublishDatas(s, s', t, s.data.stream, ev.AnswerOk? || ev.took);
    } else {
      DecidedDatas(s, t, work);
    }
  }

  lemma DecidedOf(s: System, t: Tid, work: Work)
    requires Datas(s) && At(s, t) == Inside(true, work)
    requires work.Deciding? || work.Snapshotting? || ((work.PuttingSingle? || work.Completing?) && !work.sent)
    ensures DataOf(s, t, At(StepFinalize(s, t, work, Run), t))
    ensures StillCarries(At(s, t), At(StepFinalize(s, t, work, Run), t))
  {
    assert DataOf(s, t, At(s, t));
  }

  lemma DecidedDatas(s: System, t: Tid, work: Work)
    requires Tenancy(s) && Datas(s) && At(s, t) == Inside(true, work)
    requires work.Deciding? || work.Snapshotting? || ((work.PuttingSingle? || work.Completing?) && !work.sent)
    ensures Datas(StepFinalize(s, t, work, Run))
  {
    var s' := StepFinalize(s, t, work, Run);
    assert TenancyOf(s, t, At(s, t));
    DecidedOf(s, t, work);
    FrameDatas(s, s', t);
  }

  lemma InsideDatas(c: Sizing.Config, s: System, t: Tid, fin: bool, work: Work, ev: Event)
    requires c.growthInterval > 0
    requires Tenancy(s) && Datas(s) && At(s, t) == Inside(fin, work)
    requires work.Putting? ==> s.sh.uploadId.Some?
    ensures Datas(StepInside(c, s, t, fin, work, ev))
  {
    assert TenancyOf(s, t, At(s, t));
    match work
    case Preparing(data, location) => if ev.Run? { PrepareDatas(c, s, t, data, location); }
    case Reserving(buffer) => if ev.Run? { ReserveDatas(c, s, t, buffer); }
    case Deciding(_) => FinalDatas(s, t, work, ev);
    case PuttingSingle(_, _) => FinalDatas(s, t, work, ev);
    case Snapshotting => FinalDatas(s, t, work, ev);
    case Completing(_, _) => FinalDatas(s, t, work, ev);
    case Finishing => FinalDatas(s, t, work, ev);
    case _ => UploadDatas(s, t, fin, work, ev);
  }

  lemma PrepareDatas(c: Sizing.Config, s: System, t: Tid, data: Bytes, location: nat)
    requires c.growthInterval > 0
    requires Tenancy(s) && Datas(s) && At(s, t) == Inside(false, Preparing(data, location))
    ensures Datas(StepPrepare(c, s, t, data, location))
  {
    var s' := StepPrepare(c, s, t, data, location);
    assert DataOf(s, t, At(s, t));
    match PrepareWrite(c, s.sh, data, location)
    case PrepareWait =>
    case PrepareLatched => FrameDatas(s, s', t);
    case PrepareError(_, _) => OverflowDatas(c, s, t, data, location);
    case Prepared(_, _) => PreparedDatas(c, s, t, data, location);
  }

  lemma LatchDatas(s: System, t: Tid, error: Error, disposition: Disposition)
    requires Tenancy(s) && Datas(s) && At(s, t) == Failing(error, disposition)
    ensures Datas(StepLatch(s, t, error, disposition))
  {
    assert TenancyOf(s, t, At(s, t)) && DataOf(s, t, At(s, t));
    FrameDatas(s, StepLatch(s, t, error, disposition), t);
  }

  lemma ReleaseDatas(s: System, t: Tid, failed: bool, quiet: bool)
    requires Tenancy(s) && Datas(s) && At(s, t) == Releasing(failed, quiet)
    ensures Datas(StepRelease(s, t, quiet))
  {
    assert TenancyOf(s, t, At(s, t)) && DataOf(s, t, At(s, t));
    FrameDatas(s, StepRelease(s, t, quiet), t);
  }

  // A thread outside every operation and its cleanup leave the bytes alone.
  lemma OutsideDatas(s: System, s': System, t: Tid)
    requires Tenancy(s) && Datas(s)
    requires s' != s ==>
      && !At(s, t).Failing? && !At(s', t).Inside? && Pending(At(s, t)) == []
      && s'.data == s.data && s'.threads == s.threads[t := At(s', t)]
      && s'.sh.etags == s.sh.etags && s'.sh.nextOffset == s.sh.nextOffset && s'.sh.uploadId == s.sh.uploadId
      && (s'.sh.buffered == s.sh.buffered || s'.sh.primary.Some? || s'.sh.cleanup != NoCleanup)
      && LifecycleKeeps(s.sh, s'.sh)
    ensures Datas(s')
  {
    if s' != s { FrameDatas(s, s', t); }
  }

  lemma CleanDatas(s: System, t: Tid, id: nat, quiet: bool, request: Request, ev: Event)
    requires Tenancy(s) && Datas(s) && At(s, t) == Cleaning(id, quiet, request)
    ensures Datas(StepClean(s, t, id, quiet, request, ev))
  {
    OutsideDatas(s, StepClean(s, t, id, quiet, request, ev), t);
  }

  lemma DrainDatas(s: System, t: Tid)
    requires Tenancy(s) && Datas(s) && At(s, t) == Draining && s.sh.lifecycle == Aborting
    ensures Datas(StepDrain(s, t))
  {
    OutsideDatas(s, StepDrain(s, t), t);
  }

  lemma AbortCleanDatas(s: System, t: Tid, id: nat, request: Request, ev: Event)
    requires Tenancy(s) && Datas(s) && At(s, t) == AbortCleaning(id, request) && s.sh.lifecycle == Aborting
    ensures Datas(StepAbortClean(s, t, id, request, ev))
  {
    OutsideDatas(s, StepAbortClean(s, t, id, request, ev), t);
  }

  lemma AwaitDatas(s: System, t: Tid, quiet: bool, aborting: bool)
    requires Tenancy(s) && Datas(s) && (At(s, t).AwaitingCleanup? || At(s, t).AbortAwaiting?)
    requires aborting ==> s.sh.lifecycle == Aborting
    ensures Datas(StepAwait(s, t, quiet, aborting))
  {
    OutsideDatas(s, StepAwait(s, t, quiet, aborting), t);
  }

  lemma EnteringDatas(s: System, t: Tid, ev: Event)
    requires Tenancy(s) && Datas(s)
    requires At(s, t).Idle? || At(s, t).EnteringWrite? || At(s, t).EnteringFinalize? || At(s, t).EnteringAbort?
    ensures Datas(StepEntering(s, t, ev))
  {
    var s' := StepEntering(s, t, ev);
    assert DataOf(s, t, At(s, t));
    match At(s, t)
    case EnteringWrite(data, location) => if s' != s { FrameDatas(s, s', t); }
    case EnteringFinalize => if ev.Run? { BeginFinalizeDatas(s, t); }
    case EnteringAbort => OutsideDatas(s, s', t);
    case _ => OutsideDatas(s, s', t);
  }

  lemma StepDatas(c: Sizing.Config, s: System, t: Tid, ev: Event)
    requires c.growthInterval > 0
    requires Tenancy(s) && Datas(s)
    requires At(s, t).Inside? && At(s, t).work.Putting? ==> s.sh.uploadId.Some?
    requires At(s, t).Draining? || At(s, t).AbortAwaiting? || At(s, t).AbortCleaning? ==> s.sh.lifecycle == Aborting
    ensures Datas(Step(c, s, t, ev))
  {
    match At(s, t)
    case Inside(fin, work) => InsideDatas(c, s, t, fin, work, ev);
    case Failing(error, disposition) => if ev.Run? { LatchDatas(s, t, error, disposition); }
    case Releasing(failed, quiet) => if ev.Run? { ReleaseDatas(s, t, failed, quiet); }
    case Cleaning(id, quiet, request) => CleanDatas(s, t, id, quiet, request, ev);
    case Draining => if ev.Run? { DrainDatas(s, t); }
    case AbortCleaning(id, request) => AbortCleanDatas(s, t, id, request, ev);
    case AwaitingCleanup(quiet) => if ev.Run? { AwaitDatas(s, t, quiet, false); }
    case AbortAwaiting => if ev.Run? { AwaitDatas(s, t, false, true); }
    case _ => EnteringDatas(s, t, ev);
  }

  // The completion finds a part without ETag exactly when the server answered
  // some part with an empty one; and by then the upload id is known.
  lemma SnapshotExact(s: System, t: Tid)
    requires Tenancy(s) && Datas(s) && At(s, t) == Inside(true, Snapshotting)
    ensures MissingPart(s.sh) <==> s.data.blanks != {}
    ensures s.sh.uploadId.Some?
  {
    assert TenancyOf(s, t, At(s, t)) && DataOf(s, t, At(s, t));
    forall i | 0 <= i < |s.sh.etags| ensures s.sh.etags[i] != "" || i in s.data.blanks {
      assert Accounted(s, i);
      var u := s.data.owner[i];
      assert TenancyOf(s, u, At(s, u));
      if u in s.holders { Sole(s.holders, t, u); }
    }
    assert 0 in s.data.store;
    if n :| n in s.data.blanks {
      assert s.sh.etags[n] == "";
    }
  }
}
