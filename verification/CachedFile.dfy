// CachedFile and CachedFileDownload: a file that one request downloads in full
// while the others wait, and the buffer that grows under it.
module DownloadBuffer {
  import opened Common

  const MAX_INDEX: nat := 0xFFFF_FFFF_FFFF_FFFF

  // The capacity that Append grows to: doubled until it suffices, without leaving 64
  // bits.
  function Grown(capacity: nat, required: nat): nat
    requires 0 < capacity && required <= MAX_INDEX
    decreases required - capacity
  {
    if capacity >= required then capacity
    else if capacity > MAX_INDEX / 2 then required
    else Grown(capacity * 2, required)
  }

  lemma {:induction false} GrownBounds(capacity: nat, required: nat)
    requires 0 < capacity && 0 < required <= MAX_INDEX && capacity <= MAX_INDEX
    ensures required <= Grown(capacity, required) <= MAX_INDEX
    ensures capacity < 2 * required ==> Grown(capacity, required) < 2 * required
    decreases required - capacity
  {
    if capacity < required && capacity <= MAX_INDEX / 2 {
      GrownBounds(capacity * 2, required);
    }
  }

  // The buffer of a download in progress; `Contents` is what has been appended since
  // the last reset.
  class CachedFileDownload {
    var data: array<byte>
    var size: nat
    ghost var appended: Bytes

    ghost predicate Valid()
      reads this, data
    {
      size <= data.Length <= MAX_INDEX && appended == data[..size]
    }

    function Capacity(): nat
      reads this
    {
      data.Length
    }

    constructor ()
      ensures Valid() && fresh(data) && appended == [] && size == 0 && Capacity() == 0
    {
      data := new byte[0];
      size := 0;
      appended := [];
    }

    // Keeps what has been appended.
    method ReserveInternal(capacity: nat)
      requires Valid() && capacity <= MAX_INDEX
      modifies this`data
      ensures Valid() && size == old(size) && appended == old(appended)
      ensures Capacity() == if capacity <= old(Capacity()) then old(Capacity()) else capacity
      ensures data == old(data) || fresh(data)
    {
      if capacity <= data.Length {
        return;
      }
      var newData := new byte[capacity];
      for i := 0 to size
        invariant data == old(data) && data[..] == old(data[..])
        invariant newData[..i] == data[..i]
      {
        newData[i] := data[i];
      }
      data := newData;
    }

    // False when the file would not fit into 64 bits.
    method Append(piece: Bytes) returns (ok: bool)
      requires Valid()
      modifies this, data
      ensures Valid() && (data == old(data) || fresh(data))
      ensures ok <==> old(size) + |piece| <= MAX_INDEX
      ensures ok ==> appended == old(appended) + piece && size == old(size) + |piece|
      ensures !ok ==> appended == old(appended) && Capacity() == old(Capacity())
      ensures Capacity() >= old(Capacity())
      ensures Capacity() > old(Capacity()) ==> Capacity() < 2 * size
    {
      if |piece| == 0 {
        return true;
      }
      if |piece| > MAX_INDEX - size {
        return false;
      }
      var required := size + |piece|;
      if required > data.Length {
        var newCapacity := if data.Length > |piece| then data.Length else |piece|;
        ghost var first := newCapacity;
        while newCapacity < required
          invariant 0 < newCapacity <= MAX_INDEX
          invariant Grown(newCapacity, required) == Grown(first, required)
          decreases required - newCapacity
        {
          if newCapacity > MAX_INDEX / 2 {
            newCapacity := required;
            break;
          }
          newCapacity := newCapacity * 2;
        }
        assert newCapacity == Grown(first, required);
        GrownBounds(first, required);
        ReserveInternal(newCapacity);
      }
      Copy(piece);
      return true;
    }

    method Copy(piece: Bytes)
      requires Valid() && size + |piece| <= data.Length
      modifies this`size, this`appended, data
      ensures Valid() && appended == old(appended) + piece && size == old(size) + |piece|
    {
      for i := 0 to |piece|
        invariant size == old(size) && appended == old(appended)
        invariant forall k :: 0 <= k < size ==> data[k] == appended[k]
        invariant forall k :: size <= k < size + i ==> data[k] == piece[k - size]
      {
        data[size + i] := piece[i];
      }
      assert data[..size] == appended && data[size..size + |piece|] == piece;
      assert data[..size + |piece|] == data[..size] + data[size..size + |piece|];
      size := size + |piece|;
      appended := appended + piece;
    }

    method Reserve(capacity: nat)
      requires Valid() && capacity <= MAX_INDEX
      modifies this`data
      ensures Valid() && size == old(size) && appended == old(appended)
      ensures Capacity() >= capacity && (data == old(data) || fresh(data))
    {
      ReserveInternal(capacity);
    }

    method Reset()
      requires Valid()
      modifies this
      ensures Valid() && appended == [] && size == 0 && Capacity() == 0 && fresh(data)
    {
      data := new byte[0];
      size := 0;
      appended := [];
    }
  }
}

// Who downloads, and what is published.
module CachedFiles {
  import opened Common

  type Tid = nat

  datatype Download = Download(data: Bytes)

  datatype State = State(
    downloading: bool,
    cached: Option<Bytes>,
    downloads: map<Tid, Download>,   // active downloads
    handles: seq<Bytes>)             // data of the handles given out

  const Start := State(false, None, map[], [])

  datatype Event =
    | TryGetHandle
    | StartDownload(t: Tid)
    | Append(t: Tid, piece: Bytes)
    | Reset(t: Tid)
    | Finalize(t: Tid)
    | Abort(t: Tid)
    | Invalidate

  // StartDownload waits while another thread downloads, and yields nothing when the
  // file is there already.
  function StepStart(s: State, t: Tid): State {
    if s.downloading || s.cached.Some? || t in s.downloads then s
    else s.(downloading := true, downloads := s.downloads[t := Download([])])
  }

  // The two conditions that Finalize asserts.
  predicate FinalizeAsserts(s: State) {
    s.downloading && s.cached.None?
  }

  function StepFinalize(s: State, t: Tid): State
    requires t in s.downloads
  {
    var data := s.downloads[t].data;
    s.(cached := Some(data), downloading := false, downloads := s.downloads - {t}, handles := s.handles + [data])
  }

  function Step(s: State, ev: Event): State {
    match ev
    case TryGetHandle => if s.cached.Some? then s.(handles := s.handles + [s.cached.value]) else s
    case StartDownload(t) => StepStart(s, t)
    case Append(t, piece) =>
      if t in s.downloads then s.(downloads := s.downloads[t := Download(s.downloads[t].data + piece)]) else s
    case Reset(t) => if t in s.downloads then s.(downloads := s.downloads[t := Download([])]) else s
    case Finalize(t) => if t in s.downloads then StepFinalize(s, t) else s
    case Abort(t) => if t in s.downloads then s.(downloading := false, downloads := s.downloads - {t}) else s
    case Invalidate => s.(cached := None)
  }

  ghost predicate Safe(s: State) {
    && (s.downloading <==> |s.downloads| == 1)
    && |s.downloads| <= 1
    && !(s.downloading && s.cached.Some?)
  }

  lemma Sole<T>(m: map<Tid, T>, t: Tid)
    requires |m| <= 1 && t in m
    ensures m - {t} == map[] && |m - {t}| == 0
    ensures forall k :: k in m ==> k == t
  {
    var rest := m - {t};
    forall k | k in m && k != t ensures k in rest {}
    assert m.Keys == rest.Keys + {t};
    assert |m.Keys| == |rest.Keys| + 1;
  }

  lemma StepSafe(s: State, ev: Event)
    requires Safe(s)
    ensures Safe(Step(s, ev))
  {
    match ev
    case StartDownload(t) =>
      if Step(s, ev) != s {
        assert s.downloads == map[];
        assert Step(s, ev).downloads.Keys == {t};
      }
    case Append(t, piece) => if t in s.downloads { assert Step(s, ev).downloads.Keys == s.downloads.Keys; }
    case Reset(t) => if t in s.downloads { assert Step(s, ev).downloads.Keys == s.downloads.Keys; }
    case Finalize(t) => if t in s.downloads { Sole(s.downloads, t); }
    case Abort(t) => if t in s.downloads { Sole(s.downloads, t); }
    case _ =>
  }

  function Run(events: seq<Event>): (s: State)
    ensures Safe(s)
  {
    if |events| == 0 then Start
    else
      StepSafe(Run(events[..|events| - 1]), events[|events| - 1]);
      Step(Run(events[..|events| - 1]), events[|events| - 1])
  }

  // At most one download is active; whoever finalizes it finds the file downloading
  // and not cached, as Finalize asserts; and a file is never both.
  lemma SingleFlight(events: seq<Event>, t: Tid, u: Tid)
    ensures var s := Run(events);
      && (t in s.downloads && u in s.downloads ==> t == u)
      && (t in s.downloads ==> FinalizeAsserts(s))
      && !(s.downloading && s.cached.Some?)
  {
    var s := Run(events);
    if t in s.downloads && u in s.downloads {
      Sole(s.downloads, t);
    }
    if t in s.downloads {
      assert t in s.downloads.Keys;
      assert |s.downloads| > 0;
    }
  }

  // What `t` appended since its download began or was last reset, in a suffix of
  // events that do neither begin nor end it.
  function Appended(t: Tid, events: seq<Event>): Bytes {
    if |events| == 0 then []
    else
      var ev := events[|events| - 1];
      if ev == Reset(t) then []
      else
        var before := Appended(t, events[..|events| - 1]);
        if ev.Append? && ev.t == t then before + ev.piece else before
  }

  predicate Leaves(t: Tid, events: seq<Event>) {
    forall i :: 0 <= i < |events| ==> events[i] != Finalize(t) && events[i] != Abort(t)
  }

  lemma HoldsStep(s: State, t: Tid, ev: Event)
    requires Safe(s) && t in s.downloads && ev != Finalize(t) && ev != Abort(t)
    ensures var s' := Step(s, ev);
      && t in s'.downloads
      && s'.downloads[t].data ==
           if ev == Reset(t) then []
           else if ev.Append? && ev.t == t then s.downloads[t].data + ev.piece else s.downloads[t].data
  {
    if (ev.Finalize? || ev.Abort?) && ev.t in s.downloads {
      Sole(s.downloads, t);
    }
  }

  lemma RunNext(events: seq<Event>, ev: Event)
    ensures Run(events + [ev]) == Step(Run(events), ev)
  {
    var all := events + [ev];
    assert all[..|all| - 1] == events;
  }

  // `t` has a download that holds the data.
  predicate Has(s: State, t: Tid, data: Bytes) {
    t in s.downloads && s.downloads[t].data == data
  }

  // A download holds what was appended since its last reset, whatever others do.
  lemma {:induction false} DownloadHolds(events: seq<Event>, t: Tid, more: seq<Event>)
    requires Has(Run(events), t, []) && Leaves(t, more)
    ensures Has(Run(events + more), t, Appended(t, more))
  {
    if |more| == 0 {
      assert events + more == events;
    } else {
      var n := |more| - 1;
      var before := events + more[..n];
      DownloadHolds(events, t, more[..n]);
      HoldsStep(Run(before), t, more[n]);
      RunNext(before, more[n]);
      assert before + [more[n]] == events + more;
    }
  }

  // Finalizing a download that has begun publishes what was appended to it since its
  // last reset.
  lemma FinalizePublishes(events: seq<Event>, t: Tid, more: seq<Event>)
    requires t !in Run(events).downloads && t in Run(events + [StartDownload(t)]).downloads
    requires Leaves(t, more)
    ensures var s := Run(events + [StartDownload(t)] + more + [Finalize(t)]);
      && s.cached == Some(Appended(t, more)) && !s.downloading
      && |s.handles| > 0 && s.handles[|s.handles| - 1] == Appended(t, more)
  {
    RunNext(events, StartDownload(t));
    DownloadHolds(events + [StartDownload(t)], t, more);
    RunNext(events + [StartDownload(t)] + more, Finalize(t));
  }

  lemma NoDownloads(s: State)
    requires Safe(s)
    ensures s.downloads == map[] <==> !s.downloading
    ensures s.cached.Some? ==> s.downloads == map[]
  {
    if |s.downloads| > 0 {
      assert s.downloads != map[];
    } else {
      assert s.downloads == map[];
    }
  }

  // A download starts exactly when there is none and the file is not there yet.
  lemma StartsExactly(events: seq<Event>, t: Tid)
    requires t !in Run(events).downloads
    ensures var s, s' := Run(events), Step(Run(events), StartDownload(t));
      if s.downloads == map[] && s.cached.None? then
        s'.downloads == map[t := Download([])] && s'.downloading && s'.cached.None?
      else s' == s
  {
    NoDownloads(Run(events));
  }

  predicate Keeps(events: seq<Event>) {
    forall i :: 0 <= i < |events| ==> events[i] != Invalidate
  }

  lemma CachedStep(s: State, ev: Event)
    requires Safe(s) && s.cached.Some? && ev != Invalidate
    ensures Step(s, ev).cached == s.cached
  {
    NoDownloads(s);
  }

  // What is published stays until it is invalidated, and every handle that is given
  // out meanwhile has it.
  lemma {:induction false} PublishedStays(events: seq<Event>, more: seq<Event>)
    requires Run(events).cached.Some? && Keeps(more)
    ensures var s := Run(events + more);
      && s.cached == Run(events).cached
      && Step(s, TryGetHandle).handles == s.handles + [Run(events).cached.value]
  {
    if |more| == 0 {
      assert events + more == events;
    } else {
      var n := |more| - 1;
      PublishedStays(events, more[..n]);
      CachedStep(Run(events + more[..n]), more[n]);
      RunNext(events + more[..n], more[n]);
      assert (events + more[..n]) + [more[n]] == events + more;
    }
  }

  lemma HandlesStep(s: State, ev: Event)
    ensures s.handles <= Step(s, ev).handles
  {
  }

  // Handles that are out keep their data, whatever is published or invalidated later.
  lemma {:induction false} HandlesStay(events: seq<Event>, more: seq<Event>)
    ensures Run(events).handles <= Run(events + more).handles
  {
    if |more| == 0 {
      assert events + more == events;
    } else {
      var n := |more| - 1;
      HandlesStay(events, more[..n]);
      HandlesStep(Run(events + more[..n]), more[n]);
      RunNext(events + more[..n], more[n]);
      assert (events + more[..n]) + [more[n]] == events + more;
    }
  }

  // Invalidating makes the next download possible; it gives out no handle before.
  lemma InvalidatedStartsOver(events: seq<Event>, t: Tid)
    requires Run(events).cached.Some?
    ensures var s := Step(Run(events), Invalidate);
      && Step(s, TryGetHandle) == s
      && Step(s, StartDownload(t)).downloads == map[t := Download([])]
  {
    NoDownloads(Run(events));
  }

  // A download that is given up publishes nothing and lets the next one begin.
  lemma AbortedStartsOver(events: seq<Event>, t: Tid, u: Tid)
    requires t in Run(events).downloads
    ensures var s := Step(Run(events), Abort(t));
      && s.cached.None? && s.handles == Run(events).handles
      && Step(s, StartDownload(u)).downloads == map[u := Download([])]
  {
    Sole(Run(events).downloads, t);
    NoDownloads(Run(events));
  }
}
