// HTTPRequestSession and HTTPClientLease: pooled connections, guarded by a
// generation counter that is raised whenever the pool is thrown away.
module ClientLeases {
  import opened Common

  datatype ReuseMode = NoReuse | SessionLocal | Shared

  // What a request snapshot says about clients; snapshots are compared by identity,
  // here a position in the sequence of published ones.
  datatype Snapshot = Snapshot(isS3: bool, util: nat, mode: ReuseMode)

  predicate CanReuseClients(a: Snapshot, b: Snapshot) {
    a == b
  }

  // A connection with its base URL; `id` is its identity.
  datatype Client = Client(id: nat, url: string)

  datatype IdleClient = IdleClient(client: Client, util: nat)

  datatype Lease = Lease(client: Option<Client>, util: nat, mode: ReuseMode, generation: nat, reusable: bool)

  // A lease, or what is to become one: `at` is the generation in which its request
  // was under the lock, and `given` whether AcquireClient has returned it.
  datatype Held = Held(lease: Lease, at: nat, given: bool)

  // A request between choosing not to reuse a client and having made a new one.
  datatype Creation = Creation(snapshot: Snapshot, generation: nat, url: string, at: nat)

  datatype Capture = Capture(snapshot: nat, generation: nat)

  datatype Session = Session(
    snapshots: seq<Snapshot>,
    generation: nat,
    idle: seq<IdleClient>,
    leases: map<nat, Held>,
    creations: map<nat, Creation>,
    captures: set<Capture>,      // what Capture has been able to return so far
    next: nat,                   // clients made so far
    barriers: seq<nat>)          // how many were made before each generation

  datatype Event =
    | Publish(expected: nat, replacement: Snapshot)
    | Invalidate
    | Acquire(lease: nat, captured: Capture, url: string)
    | Create(lease: nat)
    | Give(lease: nat)
    | MarkUnusable(lease: nat)
    | Release(lease: nat)

  function Start(first: Snapshot): Session {
    Session([first], 0, [], map[], map[], {Capture(0, 0)}, 0, [0])
  }

  function Current(s: Session): Capture
    requires |s.snapshots| > 0
  {
    Capture(|s.snapshots| - 1, s.generation)
  }

  function Flush(s: Session): Session {
    s.(generation := s.generation + 1, idle := [], barriers := s.barriers + [s.next])
  }

  function Recapture(s: Session): Session
    requires |s.snapshots| > 0
  {
    s.(captures := s.captures + {Current(s)})
  }

  function TryPublish(s: Session, expected: nat, replacement: Snapshot): Session
    requires |s.snapshots| > 0
  {
    if expected != |s.snapshots| - 1 then s
    else
      var s1 := if CanReuseClients(s.snapshots[expected], replacement) then s else Flush(s);
      Recapture(s1.(snapshots := s1.snapshots + [replacement]))
  }

  // The last idle client that fits, one past its position; 0 for none.
  function Pick(idle: seq<IdleClient>, util: nat, url: string): (i: nat)
    ensures i <= |idle|
    ensures i > 0 ==> idle[i - 1].util == util && idle[i - 1].client.url == url
    ensures i == 0 ==> forall j :: 0 <= j < |idle| ==> idle[j].util != util || idle[j].client.url != url
  {
    if |idle| == 0 then 0
    else if idle[|idle| - 1].util == util && idle[|idle| - 1].client.url == url then |idle|
    else Pick(idle[..|idle| - 1], util, url)
  }

  function WithLease(s: Session, l: nat, held: Held): Session {
    s.(leases := s.leases[l := held])
  }

  // The part of AcquireClient under the lock: a client is taken out of the pool, or
  // one has to be made, or there is none.
  function AcquireClient(s: Session, l: nat, captured: Capture, url: string): Session
    requires captured.snapshot < |s.snapshots|
  {
    var snapshot := s.snapshots[captured.snapshot];
    var i := Choice(s, captured, url);
    if i > 0 then
      var entry := s.idle[i - 1];
      var lease := Lease(Some(entry.client), snapshot.util, snapshot.mode, captured.generation, true);
      WithLease(s, l, Held(lease, s.generation, false)).(idle := s.idle[..i - 1] + s.idle[i..])
    else if snapshot.mode.NoReuse? then
      WithLease(s, l, Held(Lease(None, snapshot.util, snapshot.mode, captured.generation, true), s.generation, false))
    else s.(creations := s.creations[l := Creation(snapshot, captured.generation, url, s.generation)])
  }

  function Choice(s: Session, captured: Capture, url: string): (i: nat)
    requires captured.snapshot < |s.snapshots|
    ensures i <= |s.idle|
  {
    var snapshot := s.snapshots[captured.snapshot];
    if snapshot.mode.SessionLocal? && captured.generation == s.generation then Pick(s.idle, snapshot.util, url) else 0
  }

  // InitializeClient.
  function MakeClient(s: Session, l: nat): Session
    requires l in s.creations
  {
    var c := s.creations[l];
    var lease := Lease(Some(Client(s.next, c.url)), c.snapshot.util, c.snapshot.mode, c.generation, true);
    WithLease(s, l, Held(lease, c.at, false)).(creations := s.creations - {l}, next := s.next + 1)
  }

  // ReturnClient: anything not put back into the pool is gone.
  function ReturnClient(s: Session, l: nat): Session
    requires l in s.leases
  {
    var lease := s.leases[l].lease;
    var s1 := s.(leases := s.leases - {l});
    if lease.client.Some? && lease.reusable && lease.mode.SessionLocal? && lease.generation == s.generation then
      s1.(idle := s.idle + [IdleClient(lease.client.value, lease.util)])
    else s1
  }

  predicate Given(s: Session, l: nat) {
    l in s.leases && s.leases[l].given
  }

  function Unusable(held: Held): Held {
    held.(lease := held.lease.(reusable := false))
  }

  function Step(s: Session, ev: Event): Session
    requires |s.snapshots| > 0
  {
    match ev
    case Publish(expected, replacement) => TryPublish(s, expected, replacement)
    case Invalidate => Recapture(Flush(s))
    case Acquire(l, captured, url) =>
      if l in s.leases || l in s.creations || captured !in s.captures || captured.snapshot >= |s.snapshots| then s
      else AcquireClient(s, l, captured, url)
    case Create(l) => if l in s.creations && l !in s.leases then MakeClient(s, l) else s
    case Give(l) => if l in s.leases then WithLease(s, l, s.leases[l].(given := true)) else s
    case MarkUnusable(l) => if Given(s, l) then WithLease(s, l, Unusable(s.leases[l])) else s
    case Release(l) => if Given(s, l) then ReturnClient(s, l) else s
  }

  // --------------------------------------------------------------------- invariant

  // Snapshots of the current generation agree with the current one on clients.
  ghost predicate CaptureOk(s: Session, c: Capture) {
    && c.snapshot < |s.snapshots| && c.generation <= s.generation
    && (c.generation == s.generation ==> s.snapshots[c.snapshot] == s.snapshots[|s.snapshots| - 1])
  }

  ghost predicate Counted(s: Session) {
    && |s.snapshots| > 0 && |s.barriers| == s.generation + 1
    && (forall g: nat :: g <= s.generation ==> s.barriers[g] <= s.next)
    && (forall g: nat, h: nat :: g <= h <= s.generation ==> s.barriers[g] <= s.barriers[h])
  }

  ghost predicate IdleOk(s: Session, i: nat)
    requires i < |s.idle| && Counted(s)
  {
    && s.barriers[s.generation] <= s.idle[i].client.id < s.next
    && s.idle[i].util == s.snapshots[|s.snapshots| - 1].util
  }

  ghost predicate LeaseOk(s: Session, l: nat)
    requires l in s.leases && Counted(s)
  {
    var held := s.leases[l];
    && held.lease.generation <= held.at <= s.generation
    && (held.lease.generation == s.generation ==> held.lease.util == s.snapshots[|s.snapshots| - 1].util)
    && (held.lease.client.Some? ==> s.barriers[held.at] <= held.lease.client.value.id < s.next)
  }

  ghost predicate CreationOk(s: Session, l: nat)
    requires l in s.creations && Counted(s)
  {
    var c := s.creations[l];
    && l !in s.leases && c.generation <= c.at <= s.generation
    && (c.generation == s.generation ==> c.snapshot == s.snapshots[|s.snapshots| - 1])
  }

  predicate Holds(s: Session, l: nat, id: nat) {
    l in s.leases && s.leases[l].lease.client.Some? && s.leases[l].lease.client.value.id == id
  }

  // A client is in one place only.
  ghost predicate Apart(s: Session) {
    && (forall i, j :: 0 <= i < j < |s.idle| ==> s.idle[i].client.id != s.idle[j].client.id)
    && (forall l, m, id :: Holds(s, l, id) && Holds(s, m, id) ==> l == m)
    && (forall l, i :: 0 <= i < |s.idle| ==> !Holds(s, l, s.idle[i].client.id))
  }

  ghost predicate Safe(s: Session) {
    && Counted(s)
    && (forall c :: c in s.captures ==> CaptureOk(s, c))
    && (forall i: nat :: i < |s.idle| ==> IdleOk(s, i))
    && (forall l :: l in s.leases ==> LeaseOk(s, l))
    && (forall l :: l in s.creations ==> CreationOk(s, l))
    && Apart(s)
  }

  lemma FlushSafe(s: Session)
    requires Safe(s)
    ensures Safe(Recapture(Flush(s)))
  {
    var s' := Recapture(Flush(s));
    forall c | c in s'.captures ensures CaptureOk(s', c) {
      if c != Current(s') { assert CaptureOk(s, c); }
    }
    forall l | l in s'.leases ensures LeaseOk(s', l) { assert LeaseOk(s, l); }
    forall l | l in s'.creations ensures CreationOk(s', l) { assert CreationOk(s, l); }
    forall l: nat, m: nat, id: nat | Holds(s', l, id) && Holds(s', m, id) ensures l == m {
      assert Holds(s, l, id) && Holds(s, m, id);
    }
  }

  lemma PublishSafe(s: Session, expected: nat, replacement: Snapshot)
    requires Safe(s)
    ensures Safe(TryPublish(s, expected, replacement))
  {
    if expected == |s.snapshots| - 1 && !CanReuseClients(s.snapshots[expected], replacement) {
      ReplaceSafe(s, TryPublish(s, expected, replacement), replacement);
    } else if expected == |s.snapshots| - 1 {
      KeepSafe(s, TryPublish(s, expected, replacement));
    }
  }

  // Publishing a snapshot with other clients.
  lemma ReplaceSafe(s: Session, s': Session, replacement: Snapshot)
    requires Safe(s) && s' == Recapture(Flush(s).(snapshots := s.snapshots + [replacement]))
    ensures Safe(s')
  {
    forall c | c in s'.captures ensures CaptureOk(s', c) {
      if c != Current(s') { assert CaptureOk(s, c); }
    }
    forall l | l in s'.leases ensures LeaseOk(s', l) { assert LeaseOk(s, l); }
    forall l | l in s'.creations ensures CreationOk(s', l) { assert CreationOk(s, l); }
    forall l: nat, m: nat, id: nat | Holds(s', l, id) && Holds(s', m, id) ensures l == m {
      assert Holds(s, l, id) && Holds(s, m, id);
    }
  }

  // Publishing one with the same.
  lemma KeepSafe(s: Session, s': Session)
    requires Safe(s) && s' == Recapture(s.(snapshots := s.snapshots + [s.snapshots[|s.snapshots| - 1]]))
    ensures Safe(s')
  {
    forall c | c in s'.captures ensures CaptureOk(s', c) {
      if c != Current(s') { assert CaptureOk(s, c); }
    }
    forall i: nat | i < |s'.idle| ensures IdleOk(s', i) { assert IdleOk(s, i); }
    forall l | l in s'.leases ensures LeaseOk(s', l) { assert LeaseOk(s, l); }
    forall l | l in s'.creations ensures CreationOk(s', l) { assert CreationOk(s, l); }
    SameHolders(s, s');
  }

  lemma ReuseSafe(s: Session, s': Session, l: nat, captured: Capture, i: nat)
    requires Safe(s) && l !in s.leases && l !in s.creations && captured in s.captures
    requires captured.snapshot < |s.snapshots| && captured.generation == s.generation && 0 < i <= |s.idle|
    requires var snapshot := s.snapshots[captured.snapshot];
      var lease := Lease(Some(s.idle[i - 1].client), snapshot.util, snapshot.mode, captured.generation, true);
      s' == WithLease(s, l, Held(lease, s.generation, false)).(idle := s.idle[..i - 1] + s.idle[i..])
    ensures Safe(s')
  {
    assert CaptureOk(s, captured) && IdleOk(s, i - 1);
    forall c | c in s'.captures ensures CaptureOk(s', c) { assert CaptureOk(s, c); }
    forall j: nat | j < |s'.idle| ensures IdleOk(s', j) { assert IdleOk(s, if j < i - 1 then j else j + 1); }
    forall m | m in s'.leases ensures LeaseOk(s', m) { if m != l { assert LeaseOk(s, m); } }
    forall m | m in s'.creations ensures CreationOk(s', m) { assert CreationOk(s, m); }
    ReuseApart(s, s', l, i);
  }

  lemma ReuseApart(s: Session, s': Session, l: nat, i: nat)
    requires Apart(s) && l !in s.leases && 0 < i <= |s.idle|
    requires s'.idle == s.idle[..i - 1] + s.idle[i..]
    requires forall m, id :: Holds(s', m, id) <==> Holds(s, m, id) || (m == l && id == s.idle[i - 1].client.id)
    ensures Apart(s')
  {
    forall m: nat, n: nat, id: nat | Holds(s', m, id) && Holds(s', n, id) ensures m == n {
      assert !Holds(s, m, s.idle[i - 1].client.id) && !Holds(s, n, s.idle[i - 1].client.id);
    }
    forall m: nat, j: nat | j < |s'.idle| ensures !Holds(s', m, s'.idle[j].client.id) {
      var k := if j < i - 1 then j else j + 1;
      assert s'.idle[j] == s.idle[k] && !Holds(s, m, s.idle[k].client.id);
    }
  }

  lemma AcquireSafe(s: Session, l: nat, captured: Capture, url: string)
    requires Safe(s) && l !in s.leases && l !in s.creations
    requires captured in s.captures && captured.snapshot < |s.snapshots|
    ensures Safe(AcquireClient(s, l, captured, url))
  {
    var s' := AcquireClient(s, l, captured, url);
    assert CaptureOk(s, captured);
    if Choice(s, captured, url) > 0 {
      ReuseSafe(s, s', l, captured, Choice(s, captured, url));
    } else {
      forall c | c in s'.captures ensures CaptureOk(s', c) { assert CaptureOk(s, c); }
      forall j: nat | j < |s'.idle| ensures IdleOk(s', j) { assert IdleOk(s, j); }
      forall m | m in s'.leases ensures LeaseOk(s', m) { if m != l { assert LeaseOk(s, m); } }
      forall m | m in s'.creations ensures CreationOk(s', m) { if m != l { assert CreationOk(s, m); } }
      SameHolders(s, s');
    }
  }

  lemma SameHolders(s: Session, s': Session)
    requires Apart(s) && s'.idle == s.idle && forall m, id :: Holds(s', m, id) ==> Holds(s, m, id)
    ensures Apart(s')
  {
    forall m: nat, j: nat | j < |s'.idle| ensures !Holds(s', m, s'.idle[j].client.id) {
      assert !Holds(s, m, s.idle[j].client.id);
    }
    forall l: nat, m: nat, id: nat | Holds(s', l, id) && Holds(s', m, id) ensures l == m {
      assert Holds(s, l, id) && Holds(s, m, id);
    }
  }

  lemma CreateSafe(s: Session, l: nat)
    requires Safe(s) && l in s.creations && l !in s.leases
    ensures Safe(MakeClient(s, l))
  {
    var s' := MakeClient(s, l);
    assert CreationOk(s, l);
    forall c | c in s'.captures ensures CaptureOk(s', c) { assert CaptureOk(s, c); }
    forall j: nat | j < |s'.idle| ensures IdleOk(s', j) { assert IdleOk(s, j); }
    forall m | m in s'.leases ensures LeaseOk(s', m) { if m != l { assert LeaseOk(s, m); } }
    forall m | m in s'.creations ensures CreationOk(s', m) { assert CreationOk(s, m); }
    forall m: nat, id: nat | Holds(s, m, id) ensures id < s.next { assert LeaseOk(s, m); }
    forall m: nat, n: nat, id: nat | Holds(s', m, id) && Holds(s', n, id) ensures m == n {
      if m != l { assert Holds(s, m, id); }
      if n != l { assert Holds(s, n, id); }
    }
    forall m: nat, j: nat | j < |s'.idle| ensures !Holds(s', m, s'.idle[j].client.id) {
      assert IdleOk(s, j) && !Holds(s, m, s.idle[j].client.id);
    }
  }

  lemma ReturnSafe(s: Session, l: nat)
    requires Safe(s) && l in s.leases
    ensures Safe(ReturnClient(s, l))
  {
    var s' := ReturnClient(s, l);
    assert LeaseOk(s, l);
    forall c | c in s'.captures ensures CaptureOk(s', c) { assert CaptureOk(s, c); }
    forall j: nat | j < |s'.idle| ensures IdleOk(s', j) { if j < |s.idle| { assert IdleOk(s, j); } }
    forall m | m in s'.leases ensures LeaseOk(s', m) { assert LeaseOk(s, m); }
    forall m | m in s'.creations ensures CreationOk(s', m) { assert CreationOk(s, m); }
    if s'.idle == s.idle { SameHolders(s, s'); } else { ReturnApart(s, s', l); }
  }

  lemma ReturnApart(s: Session, s': Session, l: nat)
    requires Apart(s) && l in s.leases && s.leases[l].lease.client.Some?
    requires s'.idle == s.idle + [IdleClient(s.leases[l].lease.client.value, s.leases[l].lease.util)]
    requires s'.leases == s.leases - {l}
    ensures Apart(s')
  {
    var id := s.leases[l].lease.client.value.id;
    assert Holds(s, l, id);
    forall m: nat, n: nat, x: nat | Holds(s', m, x) && Holds(s', n, x) ensures m == n {
      assert Holds(s, m, x) && Holds(s, n, x);
    }
    forall i, j | 0 <= i < j < |s'.idle| ensures s'.idle[i].client.id != s'.idle[j].client.id {
      assert !Holds(s, l, s.idle[i].client.id);
    }
    forall m: nat, j: nat | j < |s'.idle| ensures !Holds(s', m, s'.idle[j].client.id) {
      if j < |s.idle| {
        assert !Holds(s, m, s.idle[j].client.id);
      } else {
        assert Holds(s', m, id) ==> Holds(s, m, id);
      }
    }
  }

  // Neither giving a lease to its caller nor marking it changes what it holds.
  lemma MarkSafe(s: Session, l: nat, held: Held)
    requires Safe(s) && l in s.leases
    requires held == s.leases[l].(given := true) || held == Unusable(s.leases[l])
    ensures Safe(WithLease(s, l, held))
  {
    var s' := WithLease(s, l, held);
    forall c | c in s'.captures ensures CaptureOk(s', c) { assert CaptureOk(s, c); }
    forall j: nat | j < |s'.idle| ensures IdleOk(s', j) { assert IdleOk(s, j); }
    forall m | m in s'.leases ensures LeaseOk(s', m) { assert LeaseOk(s, m); }
    forall m | m in s'.creations ensures CreationOk(s', m) { assert CreationOk(s, m); }
    SameHolders(s, s');
  }

  lemma StepSafe(s: Session, ev: Event)
    requires Safe(s)
    ensures Safe(Step(s, ev))
  {
    match ev
    case Publish(expected, replacement) => PublishSafe(s, expected, replacement);
    case Invalidate => FlushSafe(s);
    case Acquire(l, captured, url) => if Step(s, ev) != s { AcquireSafe(s, l, captured, url); }
    case Create(l) => if Step(s, ev) != s { CreateSafe(s, l); }
    case Give(l) => if l in s.leases { MarkSafe(s, l, s.leases[l].(given := true)); }
    case MarkUnusable(l) => if Given(s, l) { MarkSafe(s, l, Unusable(s.leases[l])); }
    case Release(l) => if Given(s, l) { ReturnSafe(s, l); }
  }

  function Run(first: Snapshot, events: seq<Event>): (s: Session)
    ensures Safe(s)
  {
    if |events| == 0 then Start(first)
    else
      var s := Run(first, events[..|events| - 1]);
      StepSafe(s, events[|events| - 1]);
      Step(s, events[|events| - 1])
  }

  // ---------------------------------------------------------------------- theorems

  // A client is idle once, or with one lease, or gone.
  lemma OnePlace(first: Snapshot, events: seq<Event>, i: nat, j: nat, l: nat, m: nat, id: nat)
    ensures var s := Run(first, events);
      && (i < j < |s.idle| ==> s.idle[i].client.id != s.idle[j].client.id)
      && (i < |s.idle| ==> !Holds(s, l, s.idle[i].client.id))
      && (Holds(s, l, id) && Holds(s, m, id) ==> l == m)
  {
    assert Apart(Run(first, events));
  }

  // Idle clients were made since the pool was last thrown away, by the current HTTP
  // util.
  lemma IdleAreCurrent(first: Snapshot, events: seq<Event>, i: nat)
    requires i < |Run(first, events).idle|
    ensures var s := Run(first, events);
      && s.idle[i].util == s.snapshots[|s.snapshots| - 1].util
      && s.barriers[s.generation] <= s.idle[i].client.id < s.next
  {
    assert IdleOk(Run(first, events), i);
  }

  lemma BarrierStep(s: Session, ev: Event)
    requires Safe(s)
    ensures s.barriers <= Step(s, ev).barriers && Step(s, ev).next >= s.next
  {
  }

  lemma RunNext(first: Snapshot, events: seq<Event>, ev: Event)
    ensures Run(first, events + [ev]) == Step(Run(first, events), ev)
  {
    var all := events + [ev];
    assert all[..|all| - 1] == events;
  }

  lemma Joined<T>(a: seq<T>, b: seq<T>)
    requires |b| > 0
    ensures a + b == (a + b[..|b| - 1]) + [b[|b| - 1]]
  {
  }

  lemma Snoc<T>(s: seq<T>)
    requires |s| > 0
    ensures s == s[..|s| - 1] + [s[|s| - 1]]
  {
  }

  lemma HeadJoined<T>(a: seq<T>, b: seq<T>)
    requires |b| > 0
    ensures a + b == (a + [b[0]]) + b[1..]
  {
  }

  lemma {:induction false} BarrierGrows(first: Snapshot, events: seq<Event>, more: seq<Event>)
    ensures Run(first, events).barriers <= Run(first, events + more).barriers
    ensures Run(first, events + more).next >= Run(first, events).next
  {
    if |more| == 0 {
      assert events + more == events;
    } else {
      var before := events + more[..|more| - 1];
      Joined(events, more);
      BarrierGrows(first, events, more[..|more| - 1]);
      RunNext(first, before, more[|more| - 1]);
      BarrierStep(Run(first, before), more[|more| - 1]);
    }
  }

  // The generation in which the request of `l` was under the lock.
  function ChosenAt(s: Session, l: nat): Option<nat> {
    if l in s.leases then Some(s.leases[l].at)
    else if l in s.creations then Some(s.creations[l].at)
    else None
  }

  lemma ChoiceStays(s: Session, ev: Event, l: nat)
    requires Safe(s) && !(ev.Acquire? && ev.lease == l)
    ensures ChosenAt(Step(s, ev), l).Some? ==> ChosenAt(Step(s, ev), l) == ChosenAt(s, l)
  {
    assert l in s.creations ==> CreationOk(s, l);
  }

  lemma {:induction false} ChoiceKept(first: Snapshot, events: seq<Event>, later: seq<Event>, l: nat)
    requires forall i :: 0 <= i < |later| ==> !(later[i].Acquire? && later[i].lease == l)
    ensures var s := Run(first, events + later);
      ChosenAt(s, l).Some? ==> ChosenAt(s, l) == ChosenAt(Run(first, events), l)
  {
    if |later| == 0 {
      assert events + later == events;
    } else {
      var before := events + later[..|later| - 1];
      Joined(events, later);
      ChoiceKept(first, events, later[..|later| - 1], l);
      RunNext(first, before, later[|later| - 1]);
      ChoiceStays(Run(first, before), later[|later| - 1], l);
    }
  }

  // Whatever a lease holds was made since the pool was last thrown away before its
  // request was under the lock.
  lemma HandedOut(s: Session, l: nat, id: nat)
    requires Safe(s) && Holds(s, l, id)
    ensures s.leases[l].at < |s.barriers| && id >= s.barriers[s.leases[l].at]
  {
    assert LeaseOk(s, l);
  }

  // A request `l` after `events`, and what happens after its choice under the lock.
  predicate Later(first: Snapshot, events: seq<Event>, l: nat, later: seq<Event>) {
    && l !in Run(first, events).leases && l !in Run(first, events).creations
    && |later| > 0 && later[0].Acquire? && later[0].lease == l
    && forall i :: 1 <= i < |later| ==> !(later[i].Acquire? && later[i].lease == l)
  }

  lemma ChoiceMade(s: Session, l: nat, captured: Capture, url: string)
    requires |s.snapshots| > 0 && l !in s.leases && l !in s.creations
    ensures var chosen := ChosenAt(Step(s, Acquire(l, captured, url)), l);
      chosen.Some? ==> chosen == Some(s.generation)
  {
  }

  lemma ChosenLater(first: Snapshot, events: seq<Event>, l: nat, later: seq<Event>)
    requires Later(first, events, l, later) && ChosenAt(Run(first, events + later), l).Some?
    ensures ChosenAt(Run(first, events + later), l) == Some(Run(first, events).generation)
  {
    var choice, rest := later[0], later[1..];
    HeadJoined(events, later);
    RunNext(first, events, choice);
    ChoiceMade(Run(first, events), l, choice.captured, choice.url);
    ChoiceKept(first, events + [choice], rest, l);
  }

  lemma FlushedGeneration(first: Snapshot, events: seq<Event>, flush: Event, more: seq<Event>)
    requires Run(first, events + [flush]).generation > Run(first, events).generation
    ensures var s, s' := Run(first, events), Run(first, events + [flush] + more);
      s'.generation > s.generation && s'.barriers[s'.generation] >= s.next
  {
    RunNext(first, events, flush);
    var s1 := Run(first, events + [flush]);
    assert s1.barriers[s1.generation] == Run(first, events).next;
    BarrierGrows(first, events + [flush], more);
  }

  // No client that existed when the pool was thrown away is given to a request that
  // comes under the lock afterwards, whatever snapshot it was started with and
  // whatever was in flight.
  lemma FlushIsFinal(first: Snapshot, events: seq<Event>, flush: Event, more: seq<Event>, l: nat,
                     later: seq<Event>, id: nat)
    requires Run(first, events + [flush]).generation > Run(first, events).generation
    requires Later(first, events + [flush] + more, l, later)
    requires Holds(Run(first, events + [flush] + more + later), l, id)
    ensures id >= Run(first, events).next
  {
    var before := events + [flush] + more;
    var s, s' := Run(first, before), Run(first, before + later);
    FlushedGeneration(first, events, flush, more);
    BarrierGrows(first, before, later);
    HandedOut(s', l, id);
    ChosenLater(first, before, l, later);
    assert s'.barriers[s.generation] == s.barriers[s.generation];
  }

  // ---------------------------------------- clients older than an invalidation

  // Made before the pool was last thrown away.
  predicate Old(s: Session, id: nat) {
    |s.barriers| > s.generation && id < s.barriers[s.generation]
  }

  // `l` holds the client, but AcquireClient has not returned it yet.
  predicate Awaits(s: Session, l: nat, id: nat) {
    Holds(s, l, id) && !Given(s, l)
  }

  predicate Uses(s: Session, l: nat, id: nat) {
    Holds(s, l, id) && Given(s, l)
  }

  // The step hands the client out to the caller of AcquireClient.
  predicate HandsOut(s: Session, ev: Event, l: nat, id: nat)
    requires |s.snapshots| > 0
  {
    !Uses(s, l, id) && Uses(Step(s, ev), l, id)
  }

  lemma OldAcquire(s: Session, m: nat, captured: Capture, url: string, l: nat, id: nat)
    requires Safe(s) && Old(s, id)
    ensures var s' := Step(s, Acquire(m, captured, url));
      Old(s', id) && (Holds(s', l, id) <==> Holds(s, l, id)) && (Holds(s, l, id) ==> s'.leases[l] == s.leases[l])
  {
    if m !in s.leases && captured.snapshot < |s.snapshots| && Choice(s, captured, url) > 0 {
      assert IdleOk(s, Choice(s, captured, url) - 1);
    }
  }

  lemma OldCreate(s: Session, m: nat, l: nat, id: nat)
    requires Safe(s) && Old(s, id)
    ensures var s' := Step(s, Create(m));
      Old(s', id) && (Holds(s', l, id) <==> Holds(s, l, id)) && (Holds(s, l, id) ==> s'.leases[l] == s.leases[l])
  {
  }

  // An old client leaves its lease only when that is given back, and no lease takes
  // one up.
  lemma OldHolds(s: Session, ev: Event, l: nat, id: nat)
    requires Safe(s) && Old(s, id)
    ensures Old(Step(s, ev), id)
    ensures Holds(Step(s, ev), l, id) <==> Holds(s, l, id) && !(ev == Release(l) && Given(s, l))
    ensures Holds(Step(s, ev), l, id) ==> (Given(Step(s, ev), l) <==> Given(s, l) || ev == Give(l))
  {
    match ev
    case Acquire(m, captured, url) => OldAcquire(s, m, captured, url, l, id);
    case Create(m) => OldCreate(s, m, l, id);
    case _ =>
  }

  // The rest follows.
  lemma OldStep(s: Session, ev: Event, l: nat, id: nat)
    requires Safe(s) && Old(s, id)
    ensures Old(Step(s, ev), id)
    ensures Awaits(Step(s, ev), l, id) <==> Awaits(s, l, id) && ev != Give(l)
    ensures Holds(Step(s, ev), l, id) <==> Holds(s, l, id) && !(ev == Release(l) && Given(s, l))
    ensures HandsOut(s, ev, l, id) <==> Awaits(s, l, id) && ev == Give(l)
  {
    OldHolds(s, ev, l, id);
  }

  // `l` has been given back since `before`.
  ghost predicate Returned(first: Snapshot, before: seq<Event>, more: seq<Event>, l: nat) {
    |more| > 0
    && (var n := |more| - 1;
        || Returned(first, before, more[..n], l)
        || (more[n] == Release(l) && Given(Run(first, before + more[..n]), l)))
  }

  lemma ReturnedNext(first: Snapshot, before: seq<Event>, more: seq<Event>, ev: Event, l: nat)
    ensures Returned(first, before, more + [ev], l) <==>
      Returned(first, before, more, l) || (ev == Release(l) && Given(Run(first, before + more), l))
  {
    assert (more + [ev])[..|more|] == more;
  }

  // An old client since `before`.
  ghost predicate OldSince(first: Snapshot, before: seq<Event>, more: seq<Event>, l: nat, id: nat) {
    var s, s' := Run(first, before), Run(first, before + more);
    && Old(s', id)
    && (Awaits(s', l, id) <==> Awaits(s, l, id) && Give(l) !in more)
    && (Holds(s', l, id) <==> Holds(s, l, id) && !Returned(first, before, more, l))
  }

  lemma OldNext(first: Snapshot, before: seq<Event>, more: seq<Event>, ev: Event, l: nat, id: nat)
    requires OldSince(first, before, more, l, id)
    ensures OldSince(first, before, more + [ev], l, id)
  {
    var longer := more + [ev];
    ReturnedNext(first, before, more, ev, l);
    Joined(before, longer);
    assert longer[..|longer| - 1] == more;
    RunNext(first, before + more, ev);
    OldStep(Run(first, before + more), ev, l, id);
    assert Give(l) in longer <==> Give(l) in more || ev == Give(l);
  }

  lemma {:induction false} OldRun(first: Snapshot, before: seq<Event>, more: seq<Event>, l: nat, id: nat)
    requires Old(Run(first, before), id)
    ensures OldSince(first, before, more, l, id)
  {
    if |more| == 0 {
      assert before + more == before;
    } else {
      var init, last := more[..|more| - 1], more[|more| - 1];
      OldRun(first, before, init, l, id);
      OldNext(first, before, init, last, l, id);
      Snoc(more);
    }
  }

  lemma FlushStep(s: Session, flush: Event, id: nat)
    requires Safe(s) && Step(s, flush).generation > s.generation && id < s.next
    ensures Old(Step(s, flush), id) && Step(s, flush).leases == s.leases
  {
  }

  lemma FlushKeeps(first: Snapshot, events: seq<Event>, flush: Event, id: nat)
    requires Run(first, events + [flush]).generation > Run(first, events).generation
    requires id < Run(first, events).next
    ensures Old(Run(first, events + [flush]), id)
    ensures Run(first, events + [flush]).leases == Run(first, events).leases
  {
    RunNext(first, events, flush);
    FlushStep(Run(first, events), flush, id);
  }

  // What happens to the clients that exist when the pool is thrown away: whatever
  // follows, one is handed out exactly if a lease held it by then, chosen from the
  // pool or newly made but not yet returned by AcquireClient, and has not been
  // handed out since.
  lemma FlushExactly(first: Snapshot, events: seq<Event>, flush: Event, more: seq<Event>, ev: Event, l: nat, id: nat)
    requires Run(first, events + [flush]).generation > Run(first, events).generation
    requires id < Run(first, events).next
    ensures HandsOut(Run(first, events + [flush] + more), ev, l, id) <==>
      Awaits(Run(first, events), l, id) && Give(l) !in more && ev == Give(l)
    ensures Holds(Run(first, events + [flush] + more), l, id) <==>
      Holds(Run(first, events), l, id) && !Returned(first, events + [flush], more, l)
  {
    FlushKeeps(first, events, flush, id);
    OldRun(first, events + [flush], more, l, id);
    OldStep(Run(first, events + [flush] + more), ev, l, id);
  }

  // A client that existed when the pool was invalidated is handed out afterwards if
  // and only if a lease already held it then and was still to be returned.
  lemma InvalidationIsFinal(first: Snapshot, events: seq<Event>, more: seq<Event>, ev: Event, l: nat, id: nat)
    requires id < Run(first, events).next
    ensures HandsOut(Run(first, events + [Invalidate] + more), ev, l, id) <==>
      Awaits(Run(first, events), l, id) && Give(l) !in more && ev == Give(l)
    ensures Holds(Run(first, events + [Invalidate] + more), l, id) <==>
      Holds(Run(first, events), l, id) && !Returned(first, events + [Invalidate], more, l)
  {
    RunNext(first, events, Invalidate);
    FlushExactly(first, events, Invalidate, more, ev, l, id);
  }

  // The same when a snapshot with another HTTP util or reuse mode is published.
  lemma ReplacementIsFinal(first: Snapshot, events: seq<Event>, publish: Event, more: seq<Event>, ev: Event, l: nat,
                           id: nat)
    requires publish.Publish? && publish.expected == |Run(first, events).snapshots| - 1
    requires !CanReuseClients(Run(first, events).snapshots[publish.expected], publish.replacement)
    requires id < Run(first, events).next
    ensures HandsOut(Run(first, events + [publish] + more), ev, l, id) <==>
      Awaits(Run(first, events), l, id) && Give(l) !in more && ev == Give(l)
    ensures Holds(Run(first, events + [publish] + more), l, id) <==>
      Holds(Run(first, events), l, id) && !Returned(first, events + [publish], more, l)
  {
    RunNext(first, events, publish);
    FlushExactly(first, events, publish, more, ev, l, id);
  }

  lemma StaleReturn(s: Session, l: nat, id: nat)
    requires Safe(s) && Holds(s, l, id) && Old(s, id)
    ensures Step(s, Release(l)).idle == s.idle
  {
    assert LeaseOk(s, l);
  }

  // Once such a lease is given back, its client does not enter the pool again.
  lemma StaleIsDropped(first: Snapshot, events: seq<Event>, l: nat, id: nat)
    requires Holds(Run(first, events), l, id) && Old(Run(first, events), id)
    ensures Run(first, events + [Release(l)]).idle == Run(first, events).idle
  {
    RunNext(first, events, Release(l));
    StaleReturn(Run(first, events), l, id);
  }

  lemma MadeAwaits(s: Session, l: nat)
    requires Safe(s) && l in s.creations && l !in s.leases
    ensures Awaits(Step(s, Create(l)), l, s.next) && Step(s, Create(l)).next == s.next + 1
  {
  }

  // Both ways of holding an old client happen, at any point of any run. A request
  // that has to make its client makes it, and then the pool is invalidated.
  lemma {:induction false} MadeBeforeInvalidation(first: Snapshot, events: seq<Event>, l: nat)
    requires l in Run(first, events).creations && l !in Run(first, events).leases
    ensures var id := Run(first, events).next;
      HandsOut(Run(first, events + [Create(l)] + [Invalidate]), Give(l), l, id)
  {
    var id := Run(first, events).next;
    var made, none: seq<Event> := events + [Create(l)], [];
    RunNext(first, events, Create(l));
    MadeAwaits(Run(first, events), l);
    InvalidationIsFinal(first, made, none, Give(l), l, id);
    assert made + [Invalidate] + none == made + [Invalidate];
  }

  // A request picks a client from the pool, and then the pool is invalidated.
  lemma {:induction false} PickedBeforeInvalidation(first: Snapshot, events: seq<Event>, l: nat, captured: Capture,
                                                    url: string)
    requires var s := Run(first, events);
      && l !in s.leases && l !in s.creations && captured in s.captures && captured.snapshot < |s.snapshots|
      && Choice(s, captured, url) > 0
    ensures var s := Run(first, events);
      var id := s.idle[Choice(s, captured, url) - 1].client.id;
      HandsOut(Run(first, events + [Acquire(l, captured, url)] + [Invalidate]), Give(l), l, id)
  {
    var s := Run(first, events);
    var id := s.idle[Choice(s, captured, url) - 1].client.id;
    var chosen, none: seq<Event> := events + [Acquire(l, captured, url)], [];
    RunNext(first, events, Acquire(l, captured, url));
    assert IdleOk(s, Choice(s, captured, url) - 1);
    InvalidationIsFinal(first, chosen, none, Give(l), l, id);
    assert chosen + [Invalidate] + none == chosen + [Invalidate];
  }

  // A request makes the first client.
  function FirstRequest(url: string): Event {
    Acquire(0, Capture(0, 0), url)
  }

  lemma {:induction false} FirstSteps(first: Snapshot, url: string)
    requires first.mode.SessionLocal?
    ensures var s := Step(Step(Start(first), FirstRequest(url)), Create(0));
      && s.snapshots == [first] && s.generation == 0 && s.captures == {Capture(0, 0)} && s.idle == []
      && s.creations == map[]
      && s.leases == map[0 := Held(Lease(Some(Client(0, url)), first.util, first.mode, 0, true), 0, false)]
  {
  }

  lemma {:induction false} PooledSteps(s: Session, snapshot: Snapshot, url: string)
    requires snapshot.mode.SessionLocal?
    requires s.snapshots == [snapshot] && s.generation == 0 && s.captures == {Capture(0, 0)} && s.idle == []
    requires s.creations == map[]
    requires s.leases == map[0 := Held(Lease(Some(Client(0, url)), snapshot.util, snapshot.mode, 0, true), 0, false)]
    ensures var s' := Step(Step(s, Give(0)), Release(0));
      && |s'.snapshots| == 1 && Capture(0, 0) in s'.captures && |s'.leases| == |s'.creations| == 0
      && Choice(s', Capture(0, 0), url) == 1
  {
  }

  // A run after which a client waits in the pool to be picked so.
  lemma {:induction false} PooledClient(first: Snapshot, url: string) returns (events: seq<Event>)
    requires first.mode.SessionLocal?
    ensures var s := Run(first, events);
      && |s.snapshots| == 1 && Capture(0, 0) in s.captures && |s.leases| == |s.creations| == 0
      && Choice(s, Capture(0, 0), url) == 1
  {
    events := [];
    FirstSteps(first, url);
    RunNext(first, events, FirstRequest(url));
    events := events + [FirstRequest(url)];
    RunNext(first, events, Create(0));
    events := events + [Create(0)];
    PooledSteps(Run(first, events), first, url);
    RunNext(first, events, Give(0));
    events := events + [Give(0)];
    RunNext(first, events, Release(0));
    events := events + [Release(0)];
  }
}
