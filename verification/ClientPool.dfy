// HTTPRequestSession and HTTPClientLease as objects, each method proved to make
// the step that ClientLeases gives to the session's own state.
module ClientPool {
  import opened Common
  import opened ClientLeases

  // A published snapshot, compared by identity.
  class HTTPRequestSnapshot {
    const params: Snapshot

    constructor (params: Snapshot)
      ensures this.params == params
    {
      this.params := params;
    }
  }

  datatype CapturedSnapshot = CapturedSnapshot(snapshot: HTTPRequestSnapshot, generation: nat)

  datatype Choice = Reused(client: Client) | MustCreate | WithoutClient

  class HTTPRequestSession {
    var currentSnapshot: HTTPRequestSnapshot
    var clientGeneration: nat
    var idleClients: seq<IdleClient>

    constructor (snapshot: HTTPRequestSnapshot)
      ensures currentSnapshot == snapshot && clientGeneration == 0 && idleClients == []
    {
      currentSnapshot, clientGeneration, idleClients := snapshot, 0, [];
    }

    method Capture() returns (captured: CapturedSnapshot)
      ensures captured == CapturedSnapshot(currentSnapshot, clientGeneration)
    {
      captured := CapturedSnapshot(currentSnapshot, clientGeneration);
    }

    // Compare and swap on the identity of the snapshot.
    method TryPublish(expected: HTTPRequestSnapshot, replacement: HTTPRequestSnapshot)
        returns (published: bool, current: CapturedSnapshot)
      modifies this
      ensures published == (old(currentSnapshot) == expected)
      ensures current == CapturedSnapshot(currentSnapshot, clientGeneration)
      ensures currentSnapshot == if published then replacement else old(currentSnapshot)
      ensures var kept := !published || CanReuseClients(expected.params, replacement.params);
        && clientGeneration == (if kept then old(clientGeneration) else old(clientGeneration) + 1)
        && idleClients == (if kept then old(idleClients) else [])
    {
      if currentSnapshot != expected {
        return false, CapturedSnapshot(currentSnapshot, clientGeneration);
      }
      if !CanReuseClients(currentSnapshot.params, replacement.params) {
        clientGeneration := clientGeneration + 1;
        idleClients := [];
      }
      currentSnapshot := replacement;
      return true, CapturedSnapshot(currentSnapshot, clientGeneration);
    }

    // The locked part of AcquireClient: the last idle client that fits is taken out
    // of the pool, unless the request was captured in another generation.
    method AcquireClient(captured: CapturedSnapshot, url: string) returns (choice: Choice)
      modifies this`idleClients
      ensures var p := captured.snapshot.params;
        var i := if p.mode.SessionLocal? && captured.generation == clientGeneration
                 then Pick(old(idleClients), p.util, url) else 0;
        if i > 0 then
          && choice == Reused(old(idleClients)[i - 1].client)
          && idleClients == old(idleClients)[..i - 1] + old(idleClients)[i..]
        else
          && choice == (if p.mode.NoReuse? then WithoutClient else MustCreate)
          && idleClients == old(idleClients)
    {
      var p := captured.snapshot.params;
      if p.mode.SessionLocal? && captured.generation == clientGeneration {
        var i := |idleClients|;
        assert idleClients[..i] == idleClients;
        while i > 0
          invariant 0 <= i <= |idleClients| && idleClients == old(idleClients)
          invariant Pick(idleClients[..i], p.util, url) == Pick(idleClients, p.util, url)
        {
          PickStep(idleClients, i, p.util, url);
          var entry := idleClients[i - 1];
          if entry.util == p.util && entry.client.url == url {
            idleClients := idleClients[..i - 1] + idleClients[i..];
            return Reused(entry.client);
          }
          i := i - 1;
        }
      }
      return if p.mode.NoReuse? then WithoutClient else MustCreate;
    }

    method InvalidateClients()
      modifies this`clientGeneration, this`idleClients
      ensures clientGeneration == old(clientGeneration) + 1 && idleClients == []
    {
      clientGeneration := clientGeneration + 1;
      idleClients := [];
    }

    method ReturnClient(client: Option<Client>, util: nat, mode: ReuseMode, generation: nat, reusable: bool)
      modifies this`idleClients
      ensures idleClients ==
        if client.Some? && reusable && mode.SessionLocal? && generation == clientGeneration
        then old(idleClients) + [IdleClient(client.value, util)] else old(idleClients)
    {
      if client.None? {
        return;
      }
      if !reusable {
        return;
      }
      if mode.SessionLocal? {
        if generation == clientGeneration {
          idleClients := idleClients + [IdleClient(client.value, util)];
        }
      }
    }
  }

  lemma PickStep(idle: seq<IdleClient>, i: nat, util: nat, url: string)
    requires 0 < i <= |idle|
    ensures Pick(idle[..i], util, url)
      == if idle[i - 1].util == util && idle[i - 1].client.url == url then i else Pick(idle[..i - 1], util, url)
  {
    assert idle[..i][..i - 1] == idle[..i - 1];
  }

  // A lease gives its client back once, however often it is released, moved from or
  // destroyed.
  class HTTPClientLease {
    var session: HTTPRequestSession?
    var lease: Lease

    constructor (session: HTTPRequestSession, lease: Lease)
      ensures this.session == session && this.lease == lease
    {
      this.session, this.lease := session, lease;
    }

    // Move construction: afterwards releasing the other one does nothing.
    constructor MoveFrom(other: HTTPClientLease)
      modifies other
      ensures session == old(other.session) && lease == old(other.lease)
      ensures other.session == null && other.lease.client.None? && !other.lease.reusable
    {
      session, lease := other.session, other.lease;
      new;
      other.session := null;
      other.lease := other.lease.(client := None, reusable := false);
    }

    method Invalidate()
      modifies this`lease
      ensures lease == old(lease).(reusable := false)
    {
      lease := lease.(reusable := false);
    }

    method Release()
      modifies this, session
      ensures session == null
      ensures lease == old(lease).(client := if old(session) == null then old(lease).client else None)
      ensures old(session) != null ==>
        var s := old(session);
        && s.clientGeneration == old(s.clientGeneration) && s.currentSnapshot == old(s.currentSnapshot)
        && s.idleClients ==
             if old(lease).client.Some? && old(lease).reusable && old(lease).mode.SessionLocal?
                && old(lease).generation == s.clientGeneration
             then old(s.idleClients) + [IdleClient(old(lease).client.value, old(lease).util)] else old(s.idleClients)
    {
      if session == null {
        return;
      }
      var target := session;
      var client := lease.client;
      session := null;
      lease := lease.(client := None);
      target.ReturnClient(client, lease.util, lease.mode, lease.generation, lease.reusable);
    }
  }
}
