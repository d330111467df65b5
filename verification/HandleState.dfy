// S3FileHandle: the claims that keep an upload session alive while a call is
// using it, and AbortUpload, which ends the session and then destroys it.
module HandleState {
  datatype UploadState = Active | Aborting | Aborted

  // The fields that `upload_lock` guards; a handle opened for reading has no
  // session from the start.
  datatype Handle = Handle(state: UploadState, calls: nat, attached: bool)

  datatype Claim = ClaimRefused | ClaimInternalError | ClaimWithoutSession | ClaimGranted(handle: Handle)

  function ClaimUpload(h: Handle, write: bool): Claim {
    if h.state != Active then ClaimRefused
    else if !h.attached then if write then ClaimInternalError else ClaimWithoutSession
    else ClaimGranted(h.(calls := h.calls + 1))
  }

  function ReleaseUpload(h: Handle): Handle
    requires h.calls > 0
  {
    h.(calls := h.calls - 1)
  }

  datatype AbortStart = AbortWaits | NothingToAbort | AbortOwned(handle: Handle)

  function BeginAbort(h: Handle): AbortStart {
    if h.state == Aborting then AbortWaits
    else if h.state == Aborted || !h.attached then NothingToAbort
    else AbortOwned(h.(state := Aborting))
  }

  datatype AbortEnd = AbortDrains | SessionKept(handle: Handle) | SessionDetached(handle: Handle)

  // After the session's own Abort; `terminal` is false when that returned false.
  function EndAbort(h: Handle, terminal: bool): AbortEnd {
    if !terminal then SessionKept(h.(state := Active))
    else if h.calls > 0 then AbortDrains
    else SessionDetached(h.(state := Aborted, attached := false))
  }
}

// The handle itself: each critical section on `upload_lock` is the transition
// that HandleState gives.
module FileHandle {
  import opened HandleState
  import State = HandleState
  import Sizing = UploadSizing
  import UploadSession

  class S3FileHandle {
    var state: UploadState
    var activeCalls: nat
    var session: UploadSession.S3UploadSession?

    ghost function View(): Handle
      reads this
    {
      Handle(state, activeCalls, session != null)
    }

    constructor (writing: bool, c: Sizing.Config)
      requires c.growthInterval > 0
      ensures View() == Handle(Active, 0, writing)
      ensures session != null ==> fresh(session) && session.Valid() && session.config == c
    {
      state, activeCalls, session := Active, 0, null;
      if writing {
        session := new UploadSession.S3UploadSession(c);
      }
    }

    // The claimed session comes with the claim.
    method ClaimUpload(write: bool) returns (r: Claim, claimed: UploadSession.S3UploadSession?)
      modifies this`activeCalls
      ensures r == State.ClaimUpload(old(View()), write)
      ensures View() == if r.ClaimGranted? then r.handle else old(View())
      ensures claimed == if r.ClaimGranted? then session else null
      ensures r.ClaimGranted? ==> claimed != null
    {
      claimed := null;
      if state != Active {
        r := ClaimRefused;
      } else if session == null {
        r := if write then ClaimInternalError else ClaimWithoutSession;
      } else {
        activeCalls := activeCalls + 1;
        claimed := session;
        r := ClaimGranted(Handle(state, activeCalls, true));
      }
    }

    method ReleaseUpload()
      requires activeCalls > 0
      modifies this`activeCalls
      ensures View() == State.ReleaseUpload(old(View()))
    {
      activeCalls := activeCalls - 1;
    }

    method BeginAbort() returns (r: AbortStart, owned: UploadSession.S3UploadSession?)
      modifies this`state
      ensures r == State.BeginAbort(old(View()))
      ensures View() == if r.AbortOwned? then r.handle else old(View())
      ensures r.AbortOwned? ==> owned != null && owned == session
    {
      owned := null;
      if state == Aborting {
        r := AbortWaits;
      } else if state == Aborted || session == null {
        r := NothingToAbort;
      } else {
        state := Aborting;
        owned := session;
        r := AbortOwned(Handle(state, activeCalls, true));
      }
    }

    method EndAbort(terminal: bool) returns (r: AbortEnd, detached: UploadSession.S3UploadSession?)
      modifies this`state, this`session
      ensures r == State.EndAbort(old(View()), terminal)
      ensures View() == if r.AbortDrains? then old(View()) else r.handle
      ensures detached == if r.SessionDetached? then old(session) else null
      ensures !r.SessionDetached? ==> session == old(session)
    {
      detached := null;
      if !terminal {
        state := Active;
        r := SessionKept(Handle(state, activeCalls, session != null));
      } else if activeCalls > 0 {
        r := AbortDrains;
      } else {
        detached := session;
        session := null;
        state := Aborted;
        r := SessionDetached(Handle(state, activeCalls, false));
      }
    }
  }
}
