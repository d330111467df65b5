// What pooling is for: a connection that is given back in order is the one the next
// request to the same place gets, and every other one is gone.
module ClientReuse {
  import opened Common
  import opened ClientLeases

  predicate Fits(e: IdleClient, util: nat, url: string) {
    e.util == util && e.client.url == url
  }

  // Pick finds the last one that fits, whenever there is one.
  lemma {:induction false} PickExactly(idle: seq<IdleClient>, util: nat, url: string, i: nat)
    requires i < |idle|
    ensures Pick(idle, util, url) == i + 1 <==>
      Fits(idle[i], util, url) && forall j :: i < j < |idle| ==> !Fits(idle[j], util, url)
    decreases |idle|
  {
    var n := |idle| - 1;
    if i < n && !Fits(idle[n], util, url) {
      PickExactly(idle[..n], util, url, i);
      assert forall j :: i < j < n ==> idle[..n][j] == idle[j];
    }
  }

  // A request that may reuse: for a session-local pool of the generation it was
  // captured in.
  predicate MayReuse(s: Session, captured: Capture) {
    && captured in s.captures && captured.snapshot < |s.snapshots|
    && s.snapshots[captured.snapshot].mode.SessionLocal? && captured.generation == s.generation
  }

  predicate Free(s: Session, l: nat) {
    l !in s.leases && l !in s.creations
  }

  // It gets the last idle client that fits, and the others stay in order.
  lemma ReusesExactly(first: Snapshot, events: seq<Event>, l: nat, captured: Capture, url: string, i: nat)
    requires var s := Run(first, events);
      && MayReuse(s, captured) && Free(s, l) && i < |s.idle|
      && Fits(s.idle[i], s.snapshots[captured.snapshot].util, url)
      && forall j :: i < j < |s.idle| ==> !Fits(s.idle[j], s.snapshots[captured.snapshot].util, url)
    ensures var s := Run(first, events);
      var s' := Step(s, Acquire(l, captured, url));
      && l in s'.leases && s'.leases[l].lease.client == Some(s.idle[i].client)
      && s'.leases[l].lease.reusable && s'.leases[l].lease.generation == s.generation
      && s'.idle == s.idle[..i] + s.idle[i + 1..] && s'.next == s.next
  {
    var s := Run(first, events);
    PickExactly(s.idle, s.snapshots[captured.snapshot].util, url, i);
  }

  // Any other request that is to have a client gets a new one for its URL, and a
  // request without reuse gets none.
  lemma OthersCreate(first: Snapshot, events: seq<Event>, l: nat, captured: Capture, url: string)
    requires var s := Run(first, events);
      && captured in s.captures && captured.snapshot < |s.snapshots| && Free(s, l)
      && (MayReuse(s, captured) ==> forall j :: 0 <= j < |s.idle| ==>
            !Fits(s.idle[j], s.snapshots[captured.snapshot].util, url))
    ensures var s := Run(first, events);
      var snapshot, s1 := s.snapshots[captured.snapshot], Step(s, Acquire(l, captured, url));
      && s1.idle == s.idle
      && if snapshot.mode.NoReuse? then
           l in s1.leases && s1.leases[l].lease.client.None? && s1.next == s.next
         else
           var s2 := Step(s1, Create(l));
           && l in s2.leases && s2.leases[l].lease.client == Some(Client(s.next, url))
           && s2.leases[l].lease.generation == captured.generation && s2.leases[l].lease.mode == snapshot.mode
           && s2.idle == s.idle && s2.next == s.next + 1 && l !in s2.creations
  {
  }

  // A lease whose client goes back into the pool.
  predicate Poolable(s: Session, l: nat) {
    && Given(s, l) && s.leases[l].lease.client.Some? && s.leases[l].lease.reusable
    && s.leases[l].lease.mode.SessionLocal? && s.leases[l].lease.generation == s.generation
  }

  lemma ReturnedLast(s: Session, l: nat)
    requires |s.snapshots| > 0 && Poolable(s, l)
    ensures var s', lease := Step(s, Release(l)), s.leases[l].lease;
      && s'.idle == s.idle + [IdleClient(lease.client.value, lease.util)]
      && s'.leases == s.leases - {l} && s'.generation == s.generation && s'.snapshots == s.snapshots
      && s'.captures == s.captures && s'.creations == s.creations
  {
  }

  lemma LastTaken(idle: seq<IdleClient>, e: IdleClient)
    ensures (idle + [e])[..|idle|] + (idle + [e])[|idle| + 1..] == idle
  {
  }

  // Given back and asked for again: the same connection, and the pool is as before.
  lemma GivenBackIsReused(first: Snapshot, events: seq<Event>, l: nat, m: nat, captured: Capture)
    requires var s := Run(first, events);
      && Poolable(s, l) && MayReuse(s, captured) && m != l && Free(s, m)
    ensures var s := Run(first, events);
      var client := s.leases[l].lease.client;
      var s' := Step(Step(s, Release(l)), Acquire(m, captured, client.value.url));
      && m in s'.leases && s'.leases[m].lease.client == client && l !in s'.leases
      && s'.idle == s.idle && s'.next == s.next
  {
    var s := Run(first, events);
    var lease := s.leases[l].lease;
    var e := IdleClient(lease.client.value, lease.util);
    assert LeaseOk(s, l) && CaptureOk(s, captured);
    RunNext(first, events, Release(l));
    ReturnedLast(s, l);
    LastTaken(s.idle, e);
    ReusesExactly(first, events + [Release(l)], m, captured, lease.client.value.url, |s.idle|);
  }

  // One that is marked, shared, of another generation or absent is not kept.
  lemma NotKept(first: Snapshot, events: seq<Event>, l: nat)
    requires Given(Run(first, events), l) && !Poolable(Run(first, events), l)
    ensures var s, s' := Run(first, events), Step(Run(first, events), Release(l));
      s'.idle == s.idle && s'.leases == s.leases - {l}
  {
  }

  lemma MarkedIsNotKept(first: Snapshot, events: seq<Event>, l: nat)
    requires Given(Run(first, events), l)
    ensures var s, s' := Run(first, events), Step(Run(first, events), MarkUnusable(l));
      Given(s', l) && !Poolable(s', l) && Step(s', Release(l)).idle == s.idle
  {
  }

  // Publishing a snapshot with the same clients keeps the pool; one with others, or an
  // invalidation, empties it and starts a generation.
  lemma PoolKeptExactly(s: Session, replacement: Snapshot)
    requires |s.snapshots| > 0
    ensures var s' := Step(s, Publish(|s.snapshots| - 1, replacement));
      && s'.snapshots == s.snapshots + [replacement]
      && (if s.snapshots[|s.snapshots| - 1] == replacement then s'.idle == s.idle && s'.generation == s.generation
          else s'.idle == [] && s'.generation == s.generation + 1)
      && s'.captures == s.captures + {Capture(|s.snapshots|, s'.generation)}
  {
  }

  lemma PoolDropped(s: Session)
    requires |s.snapshots| > 0
    ensures var s' := Step(s, Invalidate);
      && s'.idle == [] && s'.generation == s.generation + 1 && s'.snapshots == s.snapshots
      && s'.captures == s.captures + {Capture(|s.snapshots| - 1, s'.generation)}
  {
  }

  // A publication that expects another snapshot than the current one does nothing.
  lemma LatePublication(first: Snapshot, events: seq<Event>, expected: nat, replacement: Snapshot)
    requires expected != |Run(first, events).snapshots| - 1
    ensures Step(Run(first, events), Publish(expected, replacement)) == Run(first, events)
  {
  }
}
