// RangeRequestState and its Guard as objects. What waits on the condition variable
// is the answer `Waits`; each call is the step of the protocol in RangeProbe.
module RangeState {
  import P = RangeProbe

  class RangeRequestState {
    var support: P.Support
    var probing: bool

    constructor ()
      ensures support == P.Unknown && !probing
    {
      support, probing := P.Unknown, false;
    }

    method ResolveProbe(answer: P.Support)
      modifies this
      ensures support == answer && !probing
    {
      support := answer;
      probing := false;
    }

    method AbortProbe()
      modifies this`probing
      ensures probing == (old(probing) && support != P.Unknown)
    {
      if support == P.Unknown {
        probing := false;
      }
    }

    // The constructor of a guard; None while it has to wait for another's probe.
    method BeginRequest(enabled: bool) returns (guard: Guard?)
      modifies this`probing
      ensures (guard == null <==> enabled && probing && support == P.Unknown && old(probing))
      ensures guard != null ==> fresh(guard) && guard.state == this && guard.enabled == enabled
      ensures guard != null ==> guard.owns == (enabled && support == P.Unknown)
      ensures guard != null ==> guard.support == if enabled then support else P.Supported
      ensures probing == (old(probing) || (enabled && support == P.Unknown))
    {
      if !enabled {
        guard := new Guard(this, false, P.Supported, false);
        return;
      }
      if support != P.Unknown {
        guard := new Guard(this, true, support, false);
        return;
      }
      if probing {
        return null;
      }
      probing := true;
      guard := new Guard(this, true, P.Unknown, true);
    }
  }

  predicate Untouched(support: P.Support, probing: bool, support0: P.Support, probing0: bool) {
    support == support0 && probing == probing0
  }

  class Guard {
    const state: RangeRequestState
    const enabled: bool
    var support: P.Support
    var owns: bool

    constructor (state: RangeRequestState, enabled: bool, support: P.Support, owns: bool)
      ensures this.state == state && this.enabled == enabled && this.support == support && this.owns == owns
    {
      this.state, this.enabled, this.support, this.owns := state, enabled, support, owns;
    }

    method MarkSupported()
      modifies this, state
      ensures var marks := enabled && old(support) == P.Unknown;
        if marks then state.support == support == P.Supported && !state.probing && !owns
        else Untouched(state.support, state.probing, old(state.support), old(state.probing))
      ensures !(enabled && old(support) == P.Unknown) ==> support == old(support) && owns == old(owns)
    {
      if enabled && support == P.Unknown {
        state.ResolveProbe(P.Supported);
        support := P.Supported;
        owns := false;
      }
    }

    method MarkNotSupported()
      modifies this, state
      ensures if enabled then state.support == support == P.NotSupported && !state.probing && !owns
        else Untouched(state.support, state.probing, old(state.support), old(state.probing))
      ensures !enabled ==> support == old(support) && owns == old(owns)
    {
      if !enabled {
        return;
      }
      state.ResolveProbe(P.NotSupported);
      support := P.NotSupported;
      owns := false;
    }

    // The destructor.
    method Destroy()
      modifies this, state
      ensures !owns && support == old(support) && state.support == old(state.support)
      ensures state.probing == (old(state.probing) && !(old(owns) && state.support == P.Unknown))
    {
      if owns {
        state.AbortProbe();
        owns := false;
      }
    }
  }
}
