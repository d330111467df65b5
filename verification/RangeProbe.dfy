// RangeRequestState and its guards: the first range request to a file finds out
// whether the server supports them, while coordinated requests wait for the answer.
module RangeProbe {
  datatype Support = Unknown | Supported | NotSupported

  // What a guard's own `support` says, and whether it owns the probe.
  datatype Guard =
    | Loading(enabled: bool)                                  // constructor, before its first load
    | Waiting                                                 // constructor, before or inside its critical section
    | Live(enabled: bool, support: Support, owns: bool)
    | Moved                                                   // only its destructor is left

  type Gid = nat

  datatype State = State(
    support: Support,
    probing: bool,
    guards: map<Gid, Guard>,
    changes: seq<Support>)        // values that `support` has taken

  const Start := State(Unknown, false, map[], [Unknown])

  datatype Event =
    | Construct(g: Gid, enabled: bool)
    | Load(g: Gid)
    | Admit(g: Gid)
    | MoveTo(g: Gid, target: Gid)
    | MarkSupported(g: Gid)
    | MarkNotSupported(g: Gid)
    | Destroy(g: Gid)

  function Set(s: State, g: Gid, guard: Guard): State {
    s.(guards := s.guards[g := guard])
  }

  function Resolve(s: State, support: Support): State {
    s.(support := support, probing := false, changes := s.changes + [support])
  }

  // AbortProbe.
  function AbortProbe(s: State): State {
    if s.support == Unknown then s.(probing := false) else s
  }

  function StepLoad(s: State, g: Gid, enabled: bool): State {
    if !enabled then Set(s, g, Live(false, Supported, false))
    else if s.support == Unknown then Set(s, g, Waiting)
    else Set(s, g, Live(true, s.support, false))
  }

  // The critical section of the constructor; it waits while another guard probes.
  function StepAdmit(s: State, g: Gid): State {
    if s.probing && s.support == Unknown then s
    else if s.support == Unknown then Set(s, g, Live(true, Unknown, true)).(probing := true)
    else Set(s, g, Live(true, s.support, false))
  }

  function StepMark(s: State, g: Gid, l: Guard, support: Support): State
    requires l.Live?
  {
    if !l.enabled || (support == Supported && l.support != Unknown) then s
    else Set(Resolve(s, support), g, Live(true, support, false))
  }

  function StepDestroy(s: State, g: Gid, l: Guard): State {
    var s1 := s.(guards := s.guards - {g});
    if l.Live? && l.owns then AbortProbe(s1) else s1
  }

  function Step(s: State, ev: Event): State {
    match ev
    case Construct(g, enabled) => if g in s.guards then s else Set(s, g, Loading(enabled))
    case Load(g) => if g in s.guards && s.guards[g].Loading? then StepLoad(s, g, s.guards[g].enabled) else s
    case Admit(g) => if g in s.guards && s.guards[g].Waiting? then StepAdmit(s, g) else s
    case MoveTo(g, target) =>
      if g in s.guards && s.guards[g].Live? && target !in s.guards then Set(Set(s, target, s.guards[g]), g, Moved)
      else s
    case MarkSupported(g) => if g in s.guards && s.guards[g].Live? then StepMark(s, g, s.guards[g], Supported) else s
    case MarkNotSupported(g) =>
      if g in s.guards && s.guards[g].Live? then StepMark(s, g, s.guards[g], NotSupported) else s
    case Destroy(g) =>
      if g in s.guards && (s.guards[g].Live? || s.guards[g].Moved?) then StepDestroy(s, g, s.guards[g]) else s
  }

  // --------------------------------------------------------------------- invariant

  predicate Owns(s: State, g: Gid) {
    g in s.guards && s.guards[g].Live? && s.guards[g].owns
  }

  // Past admission, with the answer still open.
  predicate Undecided(s: State, g: Gid) {
    g in s.guards && s.guards[g].Live? && s.guards[g].enabled && s.guards[g].support == Unknown
  }

  ghost predicate Allowed(a: Support, b: Support) {
    a == b || a == Unknown || (a == Supported && b == NotSupported)
  }

  ghost predicate Safe(s: State) {
    && (s.probing <==> exists g: Gid :: Owns(s, g))
    && (s.probing ==> s.support == Unknown)
    && (forall g: Gid, h: Gid :: Owns(s, g) && Owns(s, h) ==> g == h)
    && (forall g: Gid :: Undecided(s, g) <==> Owns(s, g))
    && (forall g: Gid :: g in s.guards && s.guards[g].Live? && s.guards[g].enabled ==>
          Allowed(s.guards[g].support, s.support))
    && |s.changes| > 0 && s.changes[|s.changes| - 1] == s.support
    && (forall i: nat :: i + 1 < |s.changes| ==> Change(s.changes, i))
  }

  ghost predicate Change(changes: seq<Support>, i: nat)
    requires i + 1 < |changes|
  {
    Allowed(changes[i], changes[i + 1])
  }

  lemma LoadSafe(s: State, g: Gid)
    requires Safe(s) && g in s.guards && s.guards[g].Loading?
    ensures Safe(StepLoad(s, g, s.guards[g].enabled))
  {
    SameOwners(s, StepLoad(s, g, s.guards[g].enabled), g);
  }

  // A guard that does not own the probe changes to one that does not either.
  lemma SameOwners(s: State, s': State, g: Gid)
    requires Safe(s) && s' == s.(guards := s'.guards) && !Owns(s, g) && !Owns(s', g) && !Undecided(s', g)
    requires if g in s'.guards then s'.guards == s.guards[g := s'.guards[g]] else s'.guards == s.guards - {g}
    requires g in s'.guards && s'.guards[g].Live? && s'.guards[g].enabled ==> Allowed(s'.guards[g].support, s.support)
    ensures Safe(s')
  {
    forall h: Gid ensures Owns(s', h) <==> Owns(s, h) {}
    forall h: Gid ensures Undecided(s', h) <==> Owns(s', h) {
      if h != g { assert Undecided(s, h) <==> Owns(s, h); }
    }
  }

  lemma AdmitSafe(s: State, g: Gid)
    requires Safe(s) && g in s.guards && s.guards[g].Waiting?
    ensures Safe(StepAdmit(s, g))
  {
    var s' := StepAdmit(s, g);
    if s.support == Unknown && !s.probing {
      assert Owns(s', g);
      forall h: Gid ensures Owns(s', h) <==> h == g {
        if h != g { assert !Owns(s, h); }
      }
      forall h: Gid ensures Undecided(s', h) <==> Owns(s', h) {
        if h != g { assert Undecided(s, h) <==> Owns(s, h); }
      }
    } else if s' != s {
      SameOwners(s, s', g);
    }
  }

  lemma MarkSafe(s: State, g: Gid, support: Support)
    requires Safe(s) && g in s.guards && s.guards[g].Live? && support != Unknown
    ensures Safe(StepMark(s, g, s.guards[g], support))
    ensures StepMark(s, g, s.guards[g], support) != s ==> Allowed(s.support, support)
  {
    var l := s.guards[g];
    var s' := StepMark(s, g, l, support);
    if s' != s {
      assert Undecided(s, g) <==> Owns(s, g);
      assert Allowed(l.support, s.support);
      assert s.probing ==> Undecided(s, g);
      forall h: Gid | Owns(s, h) ensures h == g {}
      forall h: Gid ensures !Owns(s', h) && !Undecided(s', h) {
        assert Undecided(s, h) <==> Owns(s, h);
      }
      forall i: nat | i + 1 < |s'.changes| ensures Change(s'.changes, i) {
        if i + 1 < |s.changes| { assert Change(s.changes, i); }
      }
    }
  }

  lemma DestroySafe(s: State, g: Gid)
    requires Safe(s) && g in s.guards && (s.guards[g].Live? || s.guards[g].Moved?)
    ensures Safe(StepDestroy(s, g, s.guards[g]))
  {
    var s' := StepDestroy(s, g, s.guards[g]);
    if Owns(s, g) {
      forall h: Gid ensures Owns(s', h) ==> Owns(s, h) && h != g {}
      forall h: Gid ensures Undecided(s', h) ==> Undecided(s, h) && h != g {}
    } else {
      SameOwners(s, s', g);
    }
  }

  lemma MoveSafe(s: State, g: Gid, target: Gid)
    requires Safe(s) && g in s.guards && s.guards[g].Live? && target !in s.guards
    ensures Safe(Set(Set(s, target, s.guards[g]), g, Moved))
  {
    var s' := Set(Set(s, target, s.guards[g]), g, Moved);
    assert Allowed(s.guards[g].support, s.support) || !s.guards[g].enabled;
    forall h: Gid ensures Owns(s', h) <==> if h == target then Owns(s, g) else h != g && Owns(s, h) {}
    forall h: Gid ensures Undecided(s', h) <==> Owns(s', h) {
      assert Undecided(s, h) <==> Owns(s, h);
      assert Undecided(s, g) <==> Owns(s, g);
    }
    if exists h: Gid :: Owns(s, h) {
      var h: Gid :| Owns(s, h);
      assert Owns(s', if h == g then target else h);
    }
  }

  lemma ConstructSafe(s: State, g: Gid, enabled: bool)
    requires Safe(s) && g !in s.guards
    ensures Safe(Set(s, g, Loading(enabled)))
  {
    SameOwners(s, Set(s, g, Loading(enabled)), g);
  }

  lemma StepSafe(s: State, ev: Event)
    requires Safe(s)
    ensures Safe(Step(s, ev)) && Allowed(s.support, Step(s, ev).support)
  {
    match ev
    case Construct(g, enabled) => if g !in s.guards { ConstructSafe(s, g, enabled); }
    case Load(g) => if g in s.guards && s.guards[g].Loading? { LoadSafe(s, g); }
    case Admit(g) => if g in s.guards && s.guards[g].Waiting? { AdmitSafe(s, g); }
    case MoveTo(g, target) => if g in s.guards && s.guards[g].Live? && target !in s.guards { MoveSafe(s, g, target); }
    case MarkSupported(g) => if g in s.guards && s.guards[g].Live? { MarkSafe(s, g, Supported); }
    case MarkNotSupported(g) => if g in s.guards && s.guards[g].Live? { MarkSafe(s, g, NotSupported); }
    case Destroy(g) => if g in s.guards && (s.guards[g].Live? || s.guards[g].Moved?) { DestroySafe(s, g); }
  }

  function Run(events: seq<Event>): (s: State)
    ensures Safe(s)
  {
    if |events| == 0 then Start
    else
      var s := Run(events[..|events| - 1]);
      StepSafe(s, events[|events| - 1]);
      Step(s, events[|events| - 1])
  }

  // ---------------------------------------------------------------------- theorems

  // While the answer is open at most one coordinated request is past admission: the
  // one that owns the probe.
  lemma OneProbe(events: seq<Event>, g: Gid, h: Gid)
    ensures var s := Run(events);
      && (s.probing <==> exists o: Gid :: Owns(s, o))
      && (s.support == Unknown && Past(s, g) && Past(s, h) ==> g == h && Owns(s, g))
  {
    var s := Run(events);
    assert Undecided(s, g) <==> Owns(s, g);
    assert Undecided(s, h) <==> Owns(s, h);
  }

  predicate Past(s: State, g: Gid) {
    g in s.guards && s.guards[g].Live? && s.guards[g].enabled
  }

  lemma {:induction false} AllowedLater(changes: seq<Support>, i: nat, j: nat)
    requires i <= j < |changes| && forall k: nat :: k + 1 < |changes| ==> Change(changes, k)
    ensures Allowed(changes[i], changes[j])
    decreases j
  {
    if i < j {
      AllowedLater(changes, i, j - 1);
      assert Change(changes, j - 1);
    }
  }

  // Support is only ever found out, or withdrawn; withdrawn, it stays withdrawn.
  lemma SupportIsMonotone(events: seq<Event>, i: nat, j: nat)
    requires i <= j < |Run(events).changes|
    ensures var c := Run(events).changes;
      && Allowed(c[i], c[j])
      && (c[i] == NotSupported ==> c[j] == NotSupported)
      && (j + 1 == |c| ==> c[j] == Run(events).support)
  {
    AllowedLater(Run(events).changes, i, j);
  }

  // A probe that ends without an answer lets the next waiting request probe.
  lemma AbortedProbeIsTakenOver(events: seq<Event>, g: Gid, h: Gid)
    requires Owns(Run(events), g) && h in Run(events).guards && Run(events).guards[h].Waiting?
    ensures Step(Run(events), Admit(h)) == Run(events)
    ensures Owns(Step(Step(Run(events), Destroy(g)), Admit(h)), h)
  {
    var s := Run(events);
    assert s.probing;
  }

  // What the owner of the probe finds out ends the probe, and is what every request
  // that waits, or comes later, is admitted with.
  lemma AnswerReachesAll(events: seq<Event>, g: Gid, answer: Support, h: Gid)
    requires Owns(Run(events), g) && answer != Unknown
    requires h in Run(events).guards && Run(events).guards[h].Waiting?
    ensures var mark := if answer == Supported then MarkSupported(g) else MarkNotSupported(g);
      var s := Step(Run(events), mark);
      && s.support == answer && !s.probing && s.guards[g] == Live(true, answer, false)
      && Step(s, Admit(h)).guards[h] == Live(true, answer, false)
  {
    assert Undecided(Run(events), g) <==> Owns(Run(events), g);
  }

  // Once the answer is known nobody waits or probes: a request takes it as it is.
  lemma KnownAnswerIsTaken(events: seq<Event>, g: Gid)
    requires Run(events).support != Unknown && g !in Run(events).guards
    ensures var s := Run(events);
      Step(Step(s, Construct(g, true)), Load(g)) == Set(s, g, Live(true, s.support, false))
  {
    var s := Run(events);
    var guard := Live(true, s.support, false);
    assert s.guards[g := Loading(true)][g := guard] == s.guards[g := guard];
  }

  // A request that is not coordinated never waits, and decides nothing.
  lemma UncoordinatedIsFree(events: seq<Event>, g: Gid)
    requires g !in Run(events).guards
    ensures var s := Run(events);
      var s' := Step(Step(s, Construct(g, false)), Load(g));
      && s' == Set(s, g, Live(false, Supported, false))
      && Step(s', MarkSupported(g)) == s' && Step(s', MarkNotSupported(g)) == s'
      && Step(s', Destroy(g)) == s
  {
    var s := Run(events);
    var guard := Live(false, Supported, false);
    assert s.guards[g := Loading(false)][g := guard] == s.guards[g := guard];
    assert s.guards[g := guard] - {g} == s.guards;
  }

  // Any coordinated request past admission may withdraw support; a positive answer
  // only counts while the request has none.
  lemma Withdraws(events: seq<Event>, g: Gid)
    requires Past(Run(events), g)
    ensures var s := Run(events);
      && Step(s, MarkNotSupported(g)).support == NotSupported && !Step(s, MarkNotSupported(g)).probing
      && (s.guards[g].support != Unknown ==> Step(s, MarkSupported(g)) == s)
  {
  }

  // The first request of all, with nothing known, probes.
  lemma FirstProbes(events: seq<Event>, g: Gid)
    requires var s := Run(events);
      s.support == Unknown && !s.probing && g in s.guards && s.guards[g].Waiting?
    ensures Owns(Step(Run(events), Admit(g)), g) && Step(Run(events), Admit(g)).probing
  {
  }
}
