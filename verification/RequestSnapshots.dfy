// Credential refreshes and region redirects of an S3 request session. Both read
// the published snapshot, derive a replacement and publish it if the snapshot is
// still the same object; here an object is a position in the history of published
// snapshots. Any number of threads run either loop.
module RequestSnapshots {
  import opened Common

  datatype Provider = S3 | GCS | R2

  // Secret material that requests are signed with.
  datatype Credentials = Credentials(accessKeyId: string, secretAccessKey: string, sessionToken: string, bearer: string)

  // `other` stands for the settings that neither path looks at.
  datatype AuthParams = AuthParams(
    provider: Provider,
    schemeIsAlias: bool,
    region: string,
    credentials: Credentials,
    endpoint: string,
    urlStyle: string,
    other: nat)

  // `refreshable` stands for proxy, headers and certificates, which a refresh reloads.
  datatype HttpParams = HttpParams(util: nat, reuseMode: nat, refreshable: nat)

  datatype Snapshot = Snapshot(
    auth: AuthParams,
    http: HttpParams,
    refreshEnabled: bool,
    redirected: bool,
    generation: nat)

  // ------------------------------------------------------------ S3AuthParams::SetRegion

  predicate EndsWith(s: string, suffix: string) {
    |suffix| <= |s| && s[|s| - |suffix|..] == suffix
  }

  predicate EndpointIsAws(endpoint: string) {
    endpoint == "" || ("s3." <= endpoint && EndsWith(endpoint, ".amazonaws.com"))
  }

  predicate Blank(s: string) {
    forall i :: 0 <= i < |s| ==> s[i] == ' ' || '\t' <= s[i] <= '\r'
  }

  function ProviderDefaults(a: AuthParams): AuthParams {
    if a.provider != GCS then a
    else a.(endpoint := if a.endpoint == "" then "storage.googleapis.com" else a.endpoint,
            urlStyle := if a.urlStyle == "" then "path" else a.urlStyle)
  }

  function DerivedDefaults(a: AuthParams): AuthParams {
    if !EndpointIsAws(a.endpoint) then a
    else if a.region == "" && a.credentials.accessKeyId == "" then a.(endpoint := "s3.amazonaws.com")
    else
      var region := if a.region == "" then "us-east-1" else a.region;
      a.(region := region, endpoint := "s3." + region + ".amazonaws.com")
  }

  // None when it throws for want of an endpoint.
  function SetRegion(a: AuthParams, region: string): Option<AuthParams> {
    var d := ProviderDefaults(a.(region := region));
    if (d.schemeIsAlias || d.provider == R2) && Blank(d.endpoint) then None else Some(DerivedDefaults(d))
  }

  // Setting the region leaves the credentials alone, and sets that region, unless it
  // is the empty one and an AWS endpoint with an access key calls for a default.
  lemma SetRegionExactly(a: AuthParams, region: string)
    requires SetRegion(a, region).Some?
    ensures var b := SetRegion(a, region).value;
      && b.credentials == a.credentials && b.provider == a.provider && b.schemeIsAlias == a.schemeIsAlias
      && (b.region == region <==>
            !(region == "" && EndpointIsAws(ProviderDefaults(a).endpoint) && a.credentials.accessKeyId != ""))
  {
  }

  // The endpoint follows the region on AWS, and stays as it is elsewhere; nothing else
  // but a provider's defaults changes.
  lemma SetRegionEndpoint(a: AuthParams, region: string)
    requires SetRegion(a, region).Some?
    ensures var b, d := SetRegion(a, region).value, ProviderDefaults(a);
      && b == d.(region := b.region, endpoint := b.endpoint)
      && b.endpoint ==
           if !EndpointIsAws(d.endpoint) then d.endpoint
           else if b.region == "" then "s3.amazonaws.com"
           else "s3." + b.region + ".amazonaws.com"
  {
  }

  // It throws exactly for want of an endpoint where none can be derived.
  lemma SetRegionThrows(a: AuthParams, region: string)
    ensures SetRegion(a, region).None? <==>
      && (a.schemeIsAlias || a.provider == R2)
      && Blank(a.endpoint) && !(a.provider == GCS && a.endpoint == "")
  {
    var google := "storage.googleapis.com";
    assert google[0] == 's';
    assert !Blank(google);
  }

  predicate Framed(endpoint: string, region: string) {
    endpoint == "s3." + region + ".amazonaws.com"
  }

  // An AWS endpoint is none, the global one, or that of a region.
  lemma EndpointIsAwsExactly(endpoint: string)
    ensures EndpointIsAws(endpoint) <==>
      endpoint == "" || endpoint == "s3.amazonaws.com" || exists region: string :: Framed(endpoint, region)
  {
    var head, tail := "s3.", ".amazonaws.com";
    assert "s3.amazonaws.com" == "s3" + tail;
    if head <= endpoint && EndsWith(endpoint, tail) && endpoint != "s3.amazonaws.com" {
      if |endpoint| < |head| + |tail| {
        ShortAws(endpoint);
      } else {
        var region := endpoint[|head|..|endpoint| - |tail|];
        Between(endpoint, |head|, |endpoint| - |tail|);
        assert Framed(endpoint, region);
      }
    }
    forall region: string | Framed(endpoint, region) ensures EndpointIsAws(endpoint) { FramedIsAws(region); }
  }

  lemma Between(s: string, i: nat, j: nat)
    requires i <= j <= |s|
    ensures s == s[..i] + s[i..j] + s[j..]
  {
  }

  // The two ends only overlap in their dot.
  lemma ShortAws(endpoint: string)
    requires "s3." <= endpoint && EndsWith(endpoint, ".amazonaws.com") && |endpoint| < |"s3."| + |".amazonaws.com"|
    ensures endpoint == "s3.amazonaws.com"
  {
    var tail := ".amazonaws.com";
    var k := |endpoint| - |tail|;
    assert endpoint == endpoint[..k] + tail;
    assert forall i :: k <= i < |endpoint| ==> endpoint[i] == tail[i - k];
    assert endpoint[0] == 's' && endpoint[1] == '3' && endpoint[2] == '.';
    assert tail[0] == '.' && tail[1] == 'a' && tail[2] == 'm';
    assert k == 2;
    assert endpoint[..k] == "s3";
  }

  lemma FramedIsAws(region: string)
    ensures EndpointIsAws("s3." + region + ".amazonaws.com")
  {
    var s := "s3." + region + ".amazonaws.com";
    assert s == "s3." + (region + ".amazonaws.com");
    assert s[|s| - |".amazonaws.com"|..] == ".amazonaws.com";
  }

  // A provider's defaults fill what is empty, and only there.
  lemma DefaultsFillGaps(a: AuthParams)
    ensures var d := ProviderDefaults(a);
      && d == a.(endpoint := d.endpoint, urlStyle := d.urlStyle)
      && (a.provider != GCS || (a.endpoint != "" && a.urlStyle != "") ==> d == a)
      && (a.provider == GCS ==>
            && (a.endpoint == "" ==> d.endpoint == "storage.googleapis.com")
            && (a.urlStyle == "" ==> d.urlStyle == "path"))
      && ProviderDefaults(d) == d
  {
    assert "storage.googleapis.com"[0] == 's' && "path"[0] == 'p';
  }

  // ------------------------------------------------------------------ replacements

  // What ReloadS3AuthMaterial makes of freshly read parameters. With a known region
  // the old one is kept; None when that throws.
  function Reloaded(before: AuthParams, read: AuthParams, preserveRegion: bool): Option<AuthParams> {
    if preserveRegion && before.region != "" && read.region != before.region then SetRegion(read, before.region)
    else Some(read)
  }

  // What is read is taken as it is, but for a region that is to be kept.
  lemma ReloadedExactly(before: AuthParams, read: AuthParams, preserveRegion: bool)
    requires Reloaded(before, read, preserveRegion).Some?
    ensures var auth := Reloaded(before, read, preserveRegion).value;
      && auth.credentials == read.credentials
      && auth.region == (if preserveRegion && before.region != "" then before.region else read.region)
      && (auth.region == read.region ==> auth == read)
  {
    if preserveRegion && before.region != "" && read.region != before.region {
      SetRegionExactly(read, before.region);
    }
  }

  datatype Material = Material(auth: AuthParams, refreshable: nat)

  function Merged(latest: Snapshot, m: Material): Option<Snapshot> {
    var auth := if latest.redirected then SetRegion(m.auth, latest.auth.region) else Some(m.auth);
    if auth.None? then None
    else
      Some(Snapshot(auth.value, latest.http.(refreshable := m.refreshable), latest.refreshEnabled,
                    latest.redirected, latest.generation + 1))
  }

  // A refresh publishes what was read, on top of what others have published.
  lemma MergedExactly(latest: Snapshot, m: Material)
    requires Merged(latest, m).Some?
    ensures var b := Merged(latest, m).value;
      && b.auth.credentials == m.auth.credentials
      && (!latest.redirected ==> b.auth == m.auth)
      && (latest.redirected && latest.auth.region != "" ==> b.auth.region == latest.auth.region)
      && b.http == latest.http.(refreshable := m.refreshable)
      && b == latest.(auth := b.auth, http := b.http, generation := latest.generation + 1)
  {
    if latest.redirected { SetRegionExactly(m.auth, latest.auth.region); }
  }

  function Moved(latest: Snapshot, region: string): Option<Snapshot> {
    var auth := SetRegion(latest.auth, region);
    if auth.None? then None
    else Some(latest.(auth := auth.value, redirected := true))
  }

  // The region that a response redirects to.
  function GetRegionRedirect(header: Option<string>, auth: AuthParams): Option<string> {
    if header.None? || header.value == "" || header.value == auth.region then None else header
  }

  // HTTPRequestSnapshot::CanReuseClientsWith.
  predicate CanReuseClients(a: Snapshot, b: Snapshot) {
    a.http.util == b.http.util && a.http.reuseMode == b.http.reuseMode
  }

  // ----------------------------------------------------------------------- threads

  type Tid = nat

  datatype Thread =
    | Idle
    | RefreshEntering(failed: nat)                                   // TryRefreshSession for a request sent with
    | RefreshReloading(failed: nat, from: nat)                       // snapshot `failed`
    | RefreshRechecking(failed: nat)
    | RefreshMerging(failed: nat, material: Material)
    | RefreshPublishing(failed: nat, material: Material, expected: nat, replacement: Snapshot)
    | MoveEntering(region: string)                                   // SetSessionRegion
    | MovePublishing(region: string, expected: nat, replacement: Snapshot)

  // SetSessionRegion is called for a handle that is opened with a region, which may
  // be empty, and for a request that the server redirects.
  datatype Event =
    | StartRefresh(failed: nat)
    | StartMove(region: string)
    | StartRedirect(failed: nat, header: Option<string>)
    | Run
    | ContextGone
    | NothingNew
    | ReadMaterial(read: AuthParams, refreshable: nat)

  datatype Result =
    | RefreshResult(t: Tid, failed: nat, refreshed: bool)
    | MoveResult(t: Tid, region: string, moved: bool)
    | Threw(t: Tid)

  datatype Session = Session(
    history: seq<Snapshot>,      // published snapshots; the last one is current
    clientGeneration: nat,
    threads: map<Tid, Thread>,
    results: seq<Result>)

  function At(s: Session, t: Tid): Thread {
    if t in s.threads then s.threads[t] else Idle
  }

  function Current(s: Session): Snapshot
    requires |s.history| > 0
  {
    s.history[|s.history| - 1]
  }

  function Move(s: Session, t: Tid, next: Thread): Session {
    s.(threads := s.threads[t := next])
  }

  function End(s: Session, t: Tid, result: Result): Session {
    Move(s, t, Idle).(results := s.results + [result])
  }

  predicate Known(s: Session, i: nat) { i < |s.history| }

  // HTTPRequestSession::TryPublish.
  function TryPublish(s: Session, expected: nat, replacement: Snapshot): Session
    requires |s.history| > 0
  {
    if expected != |s.history| - 1 then s
    else
      s.(history := s.history + [replacement],
         clientGeneration := s.clientGeneration + if CanReuseClients(Current(s), replacement) then 0 else 1)
  }

  function StepRefreshEntering(s: Session, t: Tid, failed: nat): Session
    requires Known(s, failed)
  {
    var current := Current(s);
    if current.generation != s.history[failed].generation then End(s, t, RefreshResult(t, failed, true))
    else if !current.refreshEnabled then End(s, t, RefreshResult(t, failed, false))
    else Move(s, t, RefreshReloading(failed, |s.history| - 1))
  }

  // Reading secrets and settings takes time, so other publications may come between.
  function StepReloading(s: Session, t: Tid, failed: nat, from: nat, ev: Event): Session
    requires Known(s, from)
  {
    match ev
    case ContextGone => End(s, t, RefreshResult(t, failed, false))
    case NothingNew => Move(s, t, RefreshRechecking(failed))
    case ReadMaterial(read, refreshable) =>
      var auth := Reloaded(s.history[from].auth, read, s.history[from].redirected);
      if auth.None? then End(s, t, Threw(t))
      else if auth.value == s.history[from].auth && refreshable == s.history[from].http.refreshable then
        Move(s, t, RefreshRechecking(failed))
      else Move(s, t, RefreshMerging(failed, Material(auth.value, refreshable)))
    case _ => s
  }

  function StepMerging(s: Session, t: Tid, failed: nat, m: Material): Session
    requires Known(s, failed)
  {
    var latest := Current(s);
    if latest.generation != s.history[failed].generation then End(s, t, RefreshResult(t, failed, true))
    else
      match Merged(latest, m)
      case None => End(s, t, Threw(t))
      case Some(replacement) => Move(s, t, RefreshPublishing(failed, m, |s.history| - 1, replacement))
  }

  function StepRefreshPublishing(s: Session, t: Tid, failed: nat, m: Material, expected: nat,
                                 replacement: Snapshot): Session
    requires |s.history| > 0
  {
    if expected == |s.history| - 1 then End(TryPublish(s, expected, replacement), t, RefreshResult(t, failed, true))
    else Move(s, t, RefreshMerging(failed, m))
  }

  function StepRedirect(s: Session, t: Tid, failed: nat, header: Option<string>): Session {
    if !Known(s, failed) then s
    else
      match GetRegionRedirect(header, s.history[failed].auth)
      case None => s
      case Some(region) => Move(s, t, MoveEntering(region))
  }

  function StepMoveEntering(s: Session, t: Tid, region: string): Session
    requires |s.history| > 0
  {
    if Current(s).auth.region == region then End(s, t, MoveResult(t, region, false))
    else
      match Moved(Current(s), region)
      case None => End(s, t, Threw(t))
      case Some(replacement) => Move(s, t, MovePublishing(region, |s.history| - 1, replacement))
  }

  function StepMovePublishing(s: Session, t: Tid, region: string, expected: nat, replacement: Snapshot): Session
    requires |s.history| > 0
  {
    if expected == |s.history| - 1 then End(TryPublish(s, expected, replacement), t, MoveResult(t, region, true))
    else Move(s, t, MoveEntering(region))
  }

  predicate InHistory(s: Session, l: Thread) {
    && |s.history| > 0
    && (l.RefreshEntering? || l.RefreshReloading? || l.RefreshRechecking? ==> Known(s, l.failed))
    && (l.RefreshMerging? || l.RefreshPublishing? ==> Known(s, l.failed))
    && (l.RefreshReloading? ==> Known(s, l.from))
  }

  function Step(s: Session, t: Tid, ev: Event): Session
    requires InHistory(s, At(s, t))
  {
    match At(s, t)
    case Idle =>
      (match ev
       case StartRefresh(failed) => if Known(s, failed) then Move(s, t, RefreshEntering(failed)) else s
       case StartMove(region) => Move(s, t, MoveEntering(region))
       case StartRedirect(failed, header) => StepRedirect(s, t, failed, header)
       case _ => s)
    case RefreshEntering(failed) => if ev.Run? then StepRefreshEntering(s, t, failed) else s
    case RefreshReloading(failed, from) => StepReloading(s, t, failed, from, ev)
    case RefreshRechecking(failed) =>
      if ev.Run? then End(s, t, RefreshResult(t, failed, Current(s).generation != s.history[failed].generation)) else s
    case RefreshMerging(failed, m) => if ev.Run? then StepMerging(s, t, failed, m) else s
    case RefreshPublishing(failed, m, expected, replacement) =>
      if ev.Run? then StepRefreshPublishing(s, t, failed, m, expected, replacement) else s
    case MoveEntering(region) => if ev.Run? then StepMoveEntering(s, t, region) else s
    case MovePublishing(region, expected, replacement) =>
      if ev.Run? then StepMovePublishing(s, t, region, expected, replacement) else s
  }

  // --------------------------------------------------------------------- invariant

  // `b` follows `a` by a refresh: everything but credentials and certificates stays.
  ghost predicate Refreshes(a: Snapshot, b: Snapshot) {
    && b.generation == a.generation + 1
    && b.redirected == a.redirected && b.refreshEnabled == a.refreshEnabled
    && (exists auth: AuthParams, refreshable: nat :: Merged(a, Material(auth, refreshable)) == Some(b))
  }

  // `b` follows `a` by a redirect.
  ghost predicate Redirects(a: Snapshot, b: Snapshot) {
    && b.generation == a.generation
    && b.redirected && b.refreshEnabled == a.refreshEnabled && b.http == a.http
    && (exists region: string :: region != a.auth.region && Moved(a, region) == Some(b))
  }

  ghost predicate ThreadOk(s: Session, l: Thread) {
    && InHistory(s, l)
    && (l.RefreshPublishing? ==> Known(s, l.expected) && Refreshes(s.history[l.expected], l.replacement))
    && (l.RefreshPublishing? ==> s.history[l.expected].generation == s.history[l.failed].generation)
    && (l.MovePublishing? ==>
          Known(s, l.expected) && l.region != s.history[l.expected].auth.region
          && Moved(s.history[l.expected], l.region) == Some(l.replacement))
  }

  ghost predicate Linked(history: seq<Snapshot>, i: nat)
    requires i + 1 < |history|
  {
    Refreshes(history[i], history[i + 1]) || Redirects(history[i], history[i + 1])
  }

  ghost predicate Chained(history: seq<Snapshot>) {
    forall i: nat :: i + 1 < |history| ==> Linked(history, i)
  }

  // What a result says about the history.
  ghost predicate ResultOk(s: Session, r: Result) {
    match r
    case RefreshResult(_, failed, refreshed) =>
      Known(s, failed) && (refreshed ==> Current(s).generation > s.history[failed].generation)
    case MoveResult(_, region, moved) =>
      if moved then exists i: nat :: Known(s, i + 1) && Moved(s.history[i], region) == Some(s.history[i + 1])
      else exists i: nat :: Known(s, i) && s.history[i].auth.region == region
    case Threw(_) => true
  }

  ghost predicate Safe(s: Session) {
    && |s.history| > 0 && Chained(s.history)
    && (forall t: Tid :: ThreadOk(s, At(s, t)))
    && (forall r :: r in s.results ==> ResultOk(s, r))
  }

  lemma {:induction false} GenerationsGrow(history: seq<Snapshot>, i: nat, j: nat)
    requires Chained(history) && i <= j < |history|
    ensures history[i].generation <= history[j].generation
    decreases j
  {
    if i < j {
      GenerationsGrow(history, i, j - 1);
      assert Linked(history, j - 1);
    }
  }

  lemma MergedRefreshes(latest: Snapshot, m: Material)
    requires Merged(latest, m).Some?
    ensures Refreshes(latest, Merged(latest, m).value)
  {
    assert Merged(latest, Material(m.auth, m.refreshable)) == Some(Merged(latest, m).value);
  }

  lemma MovedRedirects(latest: Snapshot, region: string)
    requires region != latest.auth.region && Moved(latest, region).Some?
    ensures Redirects(latest, Moved(latest, region).value)
  {
    assert Moved(latest, region) == Some(Moved(latest, region).value);
  }

  // A thread moves and may end; nothing is published.
  lemma LocalStep(s: Session, s': Session, t: Tid)
    requires Safe(s) && s'.history == s.history && s'.threads == s.threads[t := At(s', t)]
    requires ThreadOk(s, At(s', t))
    requires s'.results == s.results || (|s'.results| > 0 && s'.results == s.results + [s'.results[|s'.results| - 1]])
    requires s'.results != s.results ==> ResultOk(s, s'.results[|s'.results| - 1])
    ensures Safe(s')
  {
    forall u: Tid ensures ThreadOk(s', At(s', u)) { assert ThreadOk(s, At(s, u)); }
    forall r | r in s'.results ensures ResultOk(s', r) { assert ResultOk(s, r); }
  }

  // One more snapshot: what was known stays known, and results stay true.
  lemma PublishStep(s: Session, s': Session, t: Tid, next: Snapshot, result: Result)
    requires Safe(s) && s'.history == s.history + [next]
    requires Refreshes(Current(s), next) || Redirects(Current(s), next)
    requires s'.threads == s.threads[t := Idle] && s'.results == s.results + [result]
    requires ResultOk(s', result)
    ensures Safe(s')
  {
    forall i: nat | i + 1 < |s'.history| ensures Linked(s'.history, i) {
      if i + 1 < |s.history| { assert Linked(s.history, i); }
    }
    forall u: Tid ensures ThreadOk(s', At(s', u)) { assert ThreadOk(s, At(s, u)); }
    forall r | r in s'.results ensures ResultOk(s', r) {
      if r in s.results { ResultStays(s, s', next, r); }
    }
  }

  lemma ResultStays(s: Session, s': Session, next: Snapshot, r: Result)
    requires |s.history| > 0 && s'.history == s.history + [next] && next.generation >= Current(s).generation
    requires ResultOk(s, r)
    ensures ResultOk(s', r)
  {
    match r
    case RefreshResult(_, failed, refreshed) =>
    case MoveResult(_, region, moved) =>
      if moved {
        var i: nat :| Known(s, i + 1) && Moved(s.history[i], region) == Some(s.history[i + 1]);
        assert Known(s', i + 1) && Moved(s'.history[i], region) == Some(s'.history[i + 1]);
      } else {
        var i: nat :| Known(s, i) && s.history[i].auth.region == region;
        assert Known(s', i) && s'.history[i].auth.region == region;
      }
    case Threw(_) =>
  }

  lemma RefreshEnteringSafe(s: Session, t: Tid, failed: nat)
    requires Safe(s) && At(s, t) == RefreshEntering(failed)
    ensures InHistory(s, At(s, t)) && Safe(StepRefreshEntering(s, t, failed))
  {
    assert ThreadOk(s, At(s, t));
    GenerationsGrow(s.history, failed, |s.history| - 1);
    LocalStep(s, StepRefreshEntering(s, t, failed), t);
  }

  lemma ReloadingSafe(s: Session, t: Tid, failed: nat, from: nat, ev: Event)
    requires Safe(s) && At(s, t) == RefreshReloading(failed, from)
    ensures InHistory(s, At(s, t)) && Safe(StepReloading(s, t, failed, from, ev))
  {
    assert ThreadOk(s, At(s, t));
    if ev.ContextGone? || ev.NothingNew? || ev.ReadMaterial? {
      LocalStep(s, StepReloading(s, t, failed, from, ev), t);
    }
  }

  lemma MergingSafe(s: Session, t: Tid, failed: nat, m: Material)
    requires Safe(s) && At(s, t) == RefreshMerging(failed, m)
    ensures InHistory(s, At(s, t)) && Safe(StepMerging(s, t, failed, m))
  {
    assert ThreadOk(s, At(s, t));
    GenerationsGrow(s.history, failed, |s.history| - 1);
    if Merged(Current(s), m).Some? { MergedRefreshes(Current(s), m); }
    LocalStep(s, StepMerging(s, t, failed, m), t);
  }

  lemma RefreshPublishingSafe(s: Session, t: Tid, failed: nat, m: Material, expected: nat, replacement: Snapshot)
    requires Safe(s) && At(s, t) == RefreshPublishing(failed, m, expected, replacement)
    ensures InHistory(s, At(s, t)) && Safe(StepRefreshPublishing(s, t, failed, m, expected, replacement))
  {
    assert ThreadOk(s, At(s, t));
    var s' := StepRefreshPublishing(s, t, failed, m, expected, replacement);
    if expected == |s.history| - 1 {
      PublishStep(s, s', t, replacement, RefreshResult(t, failed, true));
    } else {
      LocalStep(s, s', t);
    }
  }

  lemma MoveEnteringSafe(s: Session, t: Tid, region: string)
    requires Safe(s) && At(s, t) == MoveEntering(region)
    ensures Safe(StepMoveEntering(s, t, region))
  {
    assert ThreadOk(s, At(s, t)) && Known(s, |s.history| - 1);
    LocalStep(s, StepMoveEntering(s, t, region), t);
  }

  lemma MovePublishingSafe(s: Session, t: Tid, region: string, expected: nat, replacement: Snapshot)
    requires Safe(s) && At(s, t) == MovePublishing(region, expected, replacement)
    ensures Safe(StepMovePublishing(s, t, region, expected, replacement))
  {
    assert ThreadOk(s, At(s, t));
    var s' := StepMovePublishing(s, t, region, expected, replacement);
    if expected == |s.history| - 1 {
      MovedRedirects(Current(s), region);
      assert Known(s', expected + 1) && Moved(s'.history[expected], region) == Some(s'.history[expected + 1]);
      PublishStep(s, s', t, replacement, MoveResult(t, region, true));
    } else {
      LocalStep(s, s', t);
    }
  }

  lemma StepSafe(s: Session, t: Tid, ev: Event)
    requires Safe(s)
    ensures InHistory(s, At(s, t)) && Safe(Step(s, t, ev))
  {
    assert ThreadOk(s, At(s, t));
    match At(s, t)
    case Idle => if Step(s, t, ev) != s { LocalStep(s, Step(s, t, ev), t); }
    case RefreshEntering(failed) => if ev.Run? { RefreshEnteringSafe(s, t, failed); }
    case RefreshReloading(failed, from) => ReloadingSafe(s, t, failed, from, ev);
    case RefreshRechecking(failed) =>
      if ev.Run? {
        GenerationsGrow(s.history, failed, |s.history| - 1);
        LocalStep(s, Step(s, t, ev), t);
      }
    case RefreshMerging(failed, m) => if ev.Run? { MergingSafe(s, t, failed, m); }
    case RefreshPublishing(failed, m, expected, replacement) =>
      if ev.Run? { RefreshPublishingSafe(s, t, failed, m, expected, replacement); }
    case MoveEntering(region) => if ev.Run? { MoveEnteringSafe(s, t, region); }
    case MovePublishing(region, expected, replacement) =>
      if ev.Run? { MovePublishingSafe(s, t, region, expected, replacement); }
  }

  type Schedule = seq<(Tid, Event)>

  function Run(first: Snapshot, sched: Schedule): (s: Session)
    ensures Safe(s) && s.history[0] == first
  {
    if |sched| == 0 then Session([first], 0, map[], [])
    else
      var s := Run(first, sched[..|sched| - 1]);
      var (t, ev) := sched[|sched| - 1];
      StepSafe(s, t, ev);
      Step(s, t, ev)
  }

  lemma RunNext(first: Snapshot, sched: Schedule, t: Tid, ev: Event)
    ensures InHistory(Run(first, sched), At(Run(first, sched), t))
    ensures Run(first, sched + [(t, ev)]) == Step(Run(first, sched), t, ev)
  {
    var all := sched + [(t, ev)];
    assert all[..|all| - 1] == sched;
    StepSafe(Run(first, sched), t, ev);
  }

  // ---------------------------------------------------------------------- theorems

  // The credential generation never decreases, and moves by one at a time.
  lemma GenerationMonotone(first: Snapshot, sched: Schedule, i: nat, j: nat)
    requires i <= j < |Run(first, sched).history|
    ensures var h := Run(first, sched).history;
      && h[i].generation <= h[j].generation
      && (j == i + 1 ==> h[j].generation <= h[i].generation + 1)
  {
    var h := Run(first, sched).history;
    GenerationsGrow(h, i, j);
    if j == i + 1 { assert Linked(h, i); }
  }

  predicate Renewed(h: seq<Snapshot>, i: nat) {
    i + 1 < |h| && h[i + 1].generation > h[i].generation
  }

  lemma LaterGeneration(h: seq<Snapshot>, i: nat, j: nat)
    requires Chained(h) && Renewed(h, i) && i < j < |h|
    ensures h[i].generation < h[j].generation
  {
    GenerationsGrow(h, i + 1, j);
  }

  // However many requests fail with the credentials of one generation, they are
  // replaced once.
  lemma OneRefreshPerGeneration(first: Snapshot, sched: Schedule, i: nat, j: nat)
    requires Renewed(Run(first, sched).history, i) && Renewed(Run(first, sched).history, j)
    requires Run(first, sched).history[i].generation == Run(first, sched).history[j].generation
    ensures i == j
  {
    var h := Run(first, sched).history;
    if i < j {
      LaterGeneration(h, i, j);
    } else if j < i {
      LaterGeneration(h, j, i);
    }
  }

  // ----------------------------------------------------- what refreshes publish

  // In step `i` of the run some thread read this material.
  ghost predicate ReadAt(first: Snapshot, sched: Schedule, i: nat, m: Material)
    requires i < |sched|
  {
    var (t, ev) := sched[i];
    var s := Run(first, sched[..i]);
    && ev.ReadMaterial? && m.refreshable == ev.refreshable && At(s, t).RefreshReloading?
    && Known(s, At(s, t).from)
    && var from := s.history[At(s, t).from]; Reloaded(from.auth, ev.read, from.redirected) == Some(m.auth)
  }

  ghost predicate ReadIn(first: Snapshot, sched: Schedule, m: Material) {
    exists i :: 0 <= i < |sched| && ReadAt(first, sched, i, m)
  }

  lemma ReadLater(first: Snapshot, init: Schedule, step: (Tid, Event), m: Material)
    requires ReadIn(first, init, m)
    ensures ReadIn(first, init + [step], m)
  {
    var i :| 0 <= i < |init| && ReadAt(first, init, i, m);
    assert (init + [step])[..i] == init[..i];
    assert ReadAt(first, init + [step], i, m);
  }

  lemma ReadNow(first: Snapshot, init: Schedule, t: Tid, read: AuthParams, refreshable: nat)
    requires var s := Run(first, init);
      At(s, t).RefreshReloading? && Known(s, At(s, t).from)
    requires var from := Run(first, init).history[At(Run(first, init), t).from];
      Reloaded(from.auth, read, from.redirected).Some?
    ensures var from := Run(first, init).history[At(Run(first, init), t).from];
      ReadIn(first, init + [(t, ReadMaterial(read, refreshable))],
             Material(Reloaded(from.auth, read, from.redirected).value, refreshable))
  {
    var all := init + [(t, ReadMaterial(read, refreshable))];
    var from := Run(first, init).history[At(Run(first, init), t).from];
    assert all[..|init|] == init;
    assert ReadAt(first, all, |init|, Material(Reloaded(from.auth, read, from.redirected).value, refreshable));
  }

  // A thread carries material that was read in this run, and its replacement is that
  // material merged into a published snapshot.
  ghost predicate Carries(first: Snapshot, sched: Schedule, h: seq<Snapshot>, l: Thread) {
    && (l.RefreshMerging? || l.RefreshPublishing? ==> ReadIn(first, sched, l.material))
    && (l.RefreshPublishing? ==> l.expected < |h| && Merged(h[l.expected], l.material) == Some(l.replacement))
  }

  ghost predicate RefreshedBy(first: Snapshot, sched: Schedule, a: Snapshot, b: Snapshot, m: Material) {
    ReadIn(first, sched, m) && Merged(a, m) == Some(b)
  }

  ghost predicate RenewedBy(first: Snapshot, sched: Schedule, a: Snapshot, b: Snapshot) {
    b.generation != a.generation ==> exists m: Material :: RefreshedBy(first, sched, a, b, m)
  }

  ghost predicate Published(first: Snapshot, sched: Schedule, h: seq<Snapshot>, i: nat)
    requires i + 1 < |h|
  {
    RenewedBy(first, sched, h[i], h[i + 1])
  }

  ghost predicate ThreadCarries(first: Snapshot, sched: Schedule, s: Session, t: Tid) {
    Carries(first, sched, s.history, At(s, t))
  }

  ghost predicate AllRead(first: Snapshot, sched: Schedule, s: Session) {
    && (forall t: Tid :: ThreadCarries(first, sched, s, t))
    && (forall i: nat :: i + 1 < |s.history| ==> Published(first, sched, s.history, i))
  }

  // Where the material of a thread comes from.
  lemma StepMaterial(s: Session, t: Tid, ev: Event)
    requires InHistory(s, At(s, t))
    ensures var l, next := At(s, t), At(Step(s, t, ev), t);
      next.RefreshMerging? || next.RefreshPublishing? ==>
        || ((l.RefreshMerging? || l.RefreshPublishing?) && next.material == l.material)
        || (l.RefreshReloading? && ev.ReadMaterial? && next.material.refreshable == ev.refreshable
            && var from := s.history[l.from]; Reloaded(from.auth, ev.read, from.redirected) == Some(next.material.auth))
  {
  }

  lemma StepReplacement(s: Session, t: Tid, ev: Event)
    requires InHistory(s, At(s, t))
    ensures var s' := Step(s, t, ev);
      At(s', t).RefreshPublishing? && s' != s ==>
        && At(s', t).expected == |s.history| - 1
        && Merged(Current(s), At(s', t).material) == Some(At(s', t).replacement)
  {
  }

  lemma StepHistory(s: Session, t: Tid, ev: Event)
    requires InHistory(s, At(s, t))
    ensures var l, s' := At(s, t), Step(s, t, ev);
      || s'.history == s.history
      || (&& (l.RefreshPublishing? || l.MovePublishing?) && l.expected == |s.history| - 1
          && s'.history == s.history + [l.replacement])
  {
  }

  // What the thread of a step carries after it.
  lemma StepCarries(first: Snapshot, init: Schedule, s: Session, t: Tid, ev: Event)
    requires s == Run(first, init) && AllRead(first, init, s) && InHistory(s, At(s, t))
    ensures ThreadCarries(first, init + [(t, ev)], Step(s, t, ev), t)
  {
    var l, s' := At(s, t), Step(s, t, ev);
    assert ThreadCarries(first, init, s, t);
    StepMaterial(s, t, ev);
    StepReplacement(s, t, ev);
    StepHistory(s, t, ev);
    if l.RefreshMerging? || l.RefreshPublishing? {
      ReadLater(first, init, (t, ev), l.material);
    } else if l.RefreshReloading? && ev.ReadMaterial? {
      var from := s.history[l.from];
      if Reloaded(from.auth, ev.read, from.redirected).Some? { ReadNow(first, init, t, ev.read, ev.refreshable); }
    }
  }

  lemma ReplacementPublished(first: Snapshot, init: Schedule, step: (Tid, Event), h: seq<Snapshot>, l: Thread)
    requires |h| > 0 && Carries(first, init, h, l)
    requires l.RefreshPublishing? && l.expected == |h| - 1
    ensures Published(first, init + [step], h + [l.replacement], |h| - 1)
  {
    ReadLater(first, init, step, l.material);
    assert RefreshedBy(first, init + [step], h[|h| - 1], l.replacement, l.material);
  }

  lemma MovePublished(first: Snapshot, sched: Schedule, h: seq<Snapshot>, region: string, replacement: Snapshot)
    requires |h| > 0 && Moved(h[|h| - 1], region) == Some(replacement)
    ensures Published(first, sched, h + [replacement], |h| - 1)
  {
  }

  // What it publishes, if anything.
  lemma StepPublishes(first: Snapshot, init: Schedule, s: Session, t: Tid, ev: Event)
    requires InHistory(s, At(s, t)) && ThreadOk(s, At(s, t)) && ThreadCarries(first, init, s, t)
    ensures var s' := Step(s, t, ev);
      || s'.history == s.history
      || (|s'.history| == |s.history| + 1 && s.history <= s'.history
          && Published(first, init + [(t, ev)], s'.history, |s.history| - 1))
  {
    var l := At(s, t);
    StepHistory(s, t, ev);
    if l.RefreshPublishing? && l.expected == |s.history| - 1 {
      ReplacementPublished(first, init, (t, ev), s.history, l);
    } else if l.MovePublishing? && l.expected == |s.history| - 1 {
      MovePublished(first, init + [(t, ev)], s.history, l.region, l.replacement);
    }
  }

  lemma OthersStay(s: Session, t: Tid, ev: Event, u: Tid)
    requires InHistory(s, At(s, t)) && u != t
    ensures At(Step(s, t, ev), u) == At(s, u)
  {
  }

  lemma CarriesLater(first: Snapshot, init: Schedule, step: (Tid, Event), h: seq<Snapshot>, h': seq<Snapshot>,
                     l: Thread)
    requires Carries(first, init, h, l) && h <= h'
    ensures Carries(first, init + [step], h', l)
  {
    if l.RefreshMerging? || l.RefreshPublishing? { ReadLater(first, init, step, l.material); }
  }

  lemma PublishedLater(first: Snapshot, init: Schedule, step: (Tid, Event), h: seq<Snapshot>, h': seq<Snapshot>, i: nat)
    requires i + 1 < |h| && h <= h' && Published(first, init, h, i)
    ensures Published(first, init + [step], h', i)
  {
    if h[i + 1].generation != h[i].generation {
      var m: Material :| RefreshedBy(first, init, h[i], h[i + 1], m);
      ReadLater(first, init, step, m);
      assert RefreshedBy(first, init + [step], h'[i], h'[i + 1], m);
    }
  }

  lemma AllPublished(first: Snapshot, init: Schedule, step: (Tid, Event), h: seq<Snapshot>, h': seq<Snapshot>)
    requires forall i: nat :: i + 1 < |h| ==> Published(first, init, h, i)
    requires |h| > 0 && h <= h' && |h'| <= |h| + 1
    requires |h'| == |h| + 1 ==> Published(first, init + [step], h', |h| - 1)
    ensures forall i: nat :: i + 1 < |h'| ==> Published(first, init + [step], h', i)
  {
    forall i: nat | i + 1 < |h'| ensures Published(first, init + [step], h', i) {
      if i + 1 < |h| { PublishedLater(first, init, step, h, h', i); }
    }
  }

  lemma AllCarry(first: Snapshot, init: Schedule, s: Session, t: Tid, ev: Event)
    requires InHistory(s, At(s, t)) && s.history <= Step(s, t, ev).history
    requires forall u: Tid :: ThreadCarries(first, init, s, u)
    requires ThreadCarries(first, init + [(t, ev)], Step(s, t, ev), t)
    ensures forall u: Tid :: ThreadCarries(first, init + [(t, ev)], Step(s, t, ev), u)
  {
    forall u: Tid ensures ThreadCarries(first, init + [(t, ev)], Step(s, t, ev), u) {
      if u != t {
        OthersStay(s, t, ev, u);
        assert ThreadCarries(first, init, s, u);
        CarriesLater(first, init, (t, ev), s.history, Step(s, t, ev).history, At(s, u));
      }
    }
  }

  lemma StepAllRead(first: Snapshot, init: Schedule, s: Session, t: Tid, ev: Event)
    requires s == Run(first, init) && AllRead(first, init, s) && InHistory(s, At(s, t)) && ThreadOk(s, At(s, t))
    ensures AllRead(first, init + [(t, ev)], Step(s, t, ev))
  {
    StepCarries(first, init, s, t, ev);
    StepPublishes(first, init, s, t, ev);
    AllCarry(first, init, s, t, ev);
    AllPublished(first, init, (t, ev), s.history, Step(s, t, ev).history);
  }

  lemma {:induction false} RunAllRead(first: Snapshot, sched: Schedule)
    ensures AllRead(first, sched, Run(first, sched))
  {
    if |sched| > 0 {
      var init, step := sched[..|sched| - 1], sched[|sched| - 1];
      RunAllRead(first, init);
      assert ThreadOk(Run(first, init), At(Run(first, init), step.0));
      StepAllRead(first, init, Run(first, init), step.0, step.1);
      RunNext(first, init, step.0, step.1);
      assert init + [(step.0, step.1)] == sched;
    }
  }

  // In every run a publication of new credentials has exactly the credentials and
  // certificates that some refresh of that run read, and, unless it was redirected,
  // all of that refresh's parameters; everything else is that of the snapshot before.
  lemma RefreshPublishesRead(first: Snapshot, sched: Schedule, i: nat) returns (j: nat, m: Material)
    requires i + 1 < |Run(first, sched).history|
    requires Run(first, sched).history[i].generation != Run(first, sched).history[i + 1].generation
    ensures j < |sched| && ReadAt(first, sched, j, m)
    ensures var a, b := Run(first, sched).history[i], Run(first, sched).history[i + 1];
      && b.auth.credentials == m.auth.credentials == sched[j].1.read.credentials
      && b.http == a.http.(refreshable := sched[j].1.refreshable)
      && (!a.redirected ==> b.auth == m.auth)
      && b == a.(auth := b.auth, http := b.http, generation := a.generation + 1)
  {
    RunAllRead(first, sched);
    var h := Run(first, sched).history;
    assert Published(first, sched, h, i);
    m :| RefreshedBy(first, sched, h[i], h[i + 1], m);
    j :| 0 <= j < |sched| && ReadAt(first, sched, j, m);
    MergedExactly(h[i], m);
    var s := Run(first, sched[..j]);
    var from := s.history[At(s, sched[j].0).from];
    ReloadedExactly(from.auth, sched[j].1.read, from.redirected);
  }

  // A publication changes either the credentials or the region: a redirect keeps
  // credentials, certificates and generation.
  lemma PublicationsCompose(first: Snapshot, sched: Schedule, i: nat)
    requires i + 1 < |Run(first, sched).history|
    ensures var a, b := Run(first, sched).history[i], Run(first, sched).history[i + 1];
      if b.generation == a.generation then
        b.auth.credentials == a.auth.credentials && b.http == a.http && b.redirected
      else
        b.generation == a.generation + 1 && b.redirected == a.redirected && CanReuseClients(a, b)
  {
    var a, b := Run(first, sched).history[i], Run(first, sched).history[i + 1];
    assert Linked(Run(first, sched).history, i);
    if Redirects(a, b) {
      var region: string :| Moved(a, region) == Some(b);
      SetRegionExactly(a.auth, region);
    }
  }

  // When a refresh can undo a redirect: only if the region redirected to is the
  // empty one, which an AWS endpoint with an access key replaces by its default.
  predicate Undone(a: Snapshot, b: Snapshot) {
    a.auth.region == "" && b.auth.region == "us-east-1" && b.auth.credentials.accessKeyId != ""
  }

  // Once redirected, always redirected; and a refresh keeps the region then, except
  // in the one case above.
  lemma RefreshKeepsRegion(first: Snapshot, sched: Schedule, i: nat)
    requires i + 1 < |Run(first, sched).history| && Run(first, sched).history[i].redirected
    ensures var a, b := Run(first, sched).history[i], Run(first, sched).history[i + 1];
      && b.redirected
      && (b.generation != a.generation ==> b.auth.region == a.auth.region || Undone(a, b))
      && (b.generation != a.generation && a.auth.region != "" ==> b.auth.region == a.auth.region)
  {
    var a, b := Run(first, sched).history[i], Run(first, sched).history[i + 1];
    assert Linked(Run(first, sched).history, i);
    if Refreshes(a, b) {
      var auth: AuthParams, refreshable: nat :| Merged(a, Material(auth, refreshable)) == Some(b);
      SetRegionExactly(auth, a.auth.region);
    }
  }

  // The exact condition for one merge: a redirected region survives unless it is
  // empty and the refreshed material asks for a default region.
  lemma MergeKeepsRegionExactly(latest: Snapshot, m: Material)
    requires latest.redirected && Merged(latest, m).Some?
    ensures Merged(latest, m).value.auth.region == latest.auth.region <==>
      !(latest.auth.region == "" && EndpointIsAws(ProviderDefaults(m.auth).endpoint)
        && m.auth.credentials.accessKeyId != "")
  {
    SetRegionExactly(m.auth, latest.auth.region);
  }

  // ---------------------------------------------------- redirects that are undone

  // A handle is opened with a region option that is empty.
  predicate EmptyRegionOption(step: (Tid, Event)) {
    step.1.StartMove? && step.1.region == ""
  }

  // Without such a handle no redirect goes to the empty region.
  ghost predicate Regional(s: Session) {
    && (forall i :: 0 <= i < |s.history| && s.history[i].redirected ==> s.history[i].auth.region != "")
    && (forall t: Tid :: RegionalThread(At(s, t)))
  }

  predicate RegionalThread(l: Thread) {
    && (l.MoveEntering? || l.MovePublishing? ==> l.region != "")
    && (l.RefreshPublishing? || l.MovePublishing? ==> l.replacement.redirected ==> l.replacement.auth.region != "")
  }

  lemma MergedRegional(latest: Snapshot, m: Material)
    requires latest.redirected ==> latest.auth.region != ""
    ensures Merged(latest, m).Some? && Merged(latest, m).value.redirected ==>
      Merged(latest, m).value.auth.region != ""
  {
    if Merged(latest, m).Some? && latest.redirected { SetRegionExactly(m.auth, latest.auth.region); }
  }

  lemma StepRegional(s: Session, t: Tid, ev: Event)
    requires Safe(s) && Regional(s) && InHistory(s, At(s, t)) && !EmptyRegionOption((t, ev))
    ensures Regional(Step(s, t, ev))
  {
    var l, s' := At(s, t), Step(s, t, ev);
    assert RegionalThread(l) && ThreadOk(s, l);
    if l.RefreshMerging? { MergedRegional(Current(s), l.material); }
    if l.MoveEntering? && Moved(Current(s), l.region).Some? { SetRegionExactly(Current(s).auth, l.region); }
    forall u: Tid ensures RegionalThread(At(s', u)) {
      if u != t { assert RegionalThread(At(s, u)); }
    }
  }

  lemma {:induction false} RunRegional(first: Snapshot, sched: Schedule)
    requires first.redirected ==> first.auth.region != ""
    requires forall i :: 0 <= i < |sched| ==> !EmptyRegionOption(sched[i])
    ensures Regional(Run(first, sched))
  {
    if |sched| > 0 {
      var (t, ev) := sched[|sched| - 1];
      RunRegional(first, sched[..|sched| - 1]);
      StepSafe(Run(first, sched[..|sched| - 1]), t, ev);
      StepRegional(Run(first, sched[..|sched| - 1]), t, ev);
    }
  }

  // Servers only ever redirect to a region, so as long as no handle is opened with an
  // empty one, no refresh undoes a redirect.
  lemma RedirectsStay(first: Snapshot, sched: Schedule, i: nat)
    requires first.redirected ==> first.auth.region != ""
    requires forall k :: 0 <= k < |sched| ==> !EmptyRegionOption(sched[k])
    requires i + 1 < |Run(first, sched).history| && Run(first, sched).history[i].redirected
    ensures var a, b := Run(first, sched).history[i], Run(first, sched).history[i + 1];
      b.redirected && (b.generation != a.generation ==> b.auth.region == a.auth.region)
  {
    RunRegional(first, sched);
    RefreshKeepsRegion(first, sched, i);
  }

  // An anonymous session, and the same with an access key, on an AWS endpoint.
  predicate Anonymous(a: AuthParams) {
    && a.provider == S3 && !a.schemeIsAlias && a.region != "" && EndpointIsAws(a.endpoint)
    && a.credentials.accessKeyId == ""
  }

  predicate WithKey(a: AuthParams) {
    a.provider == S3 && !a.schemeIsAlias && EndpointIsAws(a.endpoint) && a.credentials.accessKeyId != ""
  }

  // A handle moves an anonymous session to the empty region.
  function Opening(t: Tid): Schedule {
    [(t, StartMove(""))] + [(t, Event.Run)] + [(t, Event.Run)]
  }

  lemma OpeningRuns(first: Snapshot, t: Tid)
    requires Anonymous(first.auth)
    ensures var s := Run(first, Opening(t));
      && |s.history| == 2 && Moved(first, "") == Some(s.history[1]) && At(s, t) == Idle
      && s.history[1].redirected && s.history[1].auth.region == ""
  {
    var start: Schedule := [];
    var moving: Schedule := [(t, StartMove(""))];
    SetRegionExactly(first.auth, "");
    RunNext(first, start, t, StartMove(""));
    assert start + moving == moving;
    RunNext(first, moving, t, Event.Run);
    assert At(Run(first, moving + [(t, Event.Run)]), t).MovePublishing?;
    RunNext(first, moving + [(t, Event.Run)], t, Event.Run);
  }

  // A request of that session fails, and the secret has an access key by now.
  function Refreshing(t: Tid, read: AuthParams): Schedule {
    [(t, StartRefresh(1)), (t, Event.Run), (t, ReadMaterial(read, 0)), (t, Event.Run), (t, Event.Run)]
  }

  lemma RefreshingRuns(first: Snapshot, sched: Schedule, t: Tid, read: AuthParams)
    requires var s := Run(first, sched);
      && |s.history| == 2 && At(s, t) == Idle && s.history[1].redirected && s.history[1].auth.region == ""
      && s.history[1].refreshEnabled && s.history[1].auth.credentials.accessKeyId == ""
    requires WithKey(read)
    ensures var s := Run(first, sched + Refreshing(t, read)[..3]);
      s.history == Run(first, sched).history && At(s, t) == RefreshMerging(1, Material(read, 0))
  {
    var steps := Refreshing(t, read);
    RunNext(first, sched, t, steps[0].1);
    RunNext(first, sched + [steps[0]], t, steps[1].1);
    RunNext(first, sched + [steps[0]] + [steps[1]], t, steps[2].1);
    assert sched + [steps[0]] + [steps[1]] + [steps[2]] == sched + steps[..3];
  }

  // In this run the refresh undoes the move.
  lemma RedirectUndone(first: Snapshot, t: Tid, read: AuthParams)
    requires Anonymous(first.auth) && first.refreshEnabled && WithKey(read)
    ensures var h := Run(first, Opening(t) + Refreshing(t, read)).history;
      && |h| == 3 && h[1].redirected && h[1].auth.region == ""
      && h[2].redirected && h[2].auth.region == "us-east-1" && h[2].generation == h[1].generation + 1
  {
    OpeningRuns(first, t);
    SetRegionExactly(first.auth, "");
    RefreshingRuns(first, Opening(t), t, read);
    var steps := Refreshing(t, read);
    var before := Opening(t) + steps[..3];
    MergeKeepsRegionExactly(Run(first, before).history[1], Material(read, 0));
    RunNext(first, before, t, steps[3].1);
    RunNext(first, before + [steps[3]], t, steps[4].1);
    assert before + [steps[3]] + [steps[4]] == Opening(t) + steps;
  }

  lemma PairKeepsCredentials(h: seq<Snapshot>, i: nat)
    requires Chained(h) && i + 1 < |h| && h[i].generation == h[i + 1].generation
    ensures h[i + 1].auth.credentials == h[i].auth.credentials && h[i + 1].http == h[i].http
  {
    assert Linked(h, i);
    var region: string :| Moved(h[i], region) == Some(h[i + 1]);
    SetRegionExactly(h[i].auth, region);
  }

  lemma {:induction false} HistoryKeepsCredentials(h: seq<Snapshot>, i: nat, j: nat)
    requires Chained(h) && i <= j < |h| && h[i].generation == h[j].generation
    ensures h[j].auth.credentials == h[i].auth.credentials && h[j].http == h[i].http
    decreases j
  {
    if i < j {
      GenerationsGrow(h, i, j - 1);
      GenerationsGrow(h, j - 1, j);
      HistoryKeepsCredentials(h, i, j - 1);
      PairKeepsCredentials(h, j - 1);
    }
  }

  // No update is lost: the credentials at any time are those of the last refresh,
  // however many redirects came since.
  lemma CredentialsKept(first: Snapshot, sched: Schedule, i: nat, j: nat)
    requires i <= j < |Run(first, sched).history|
    requires Run(first, sched).history[i].generation == Run(first, sched).history[j].generation
    ensures var a, b := Run(first, sched).history[i], Run(first, sched).history[j];
      b.auth.credentials == a.auth.credentials && b.http == a.http
  {
    HistoryKeepsCredentials(Run(first, sched).history, i, j);
  }

  lemma PairKeepsRegion(h: seq<Snapshot>, i: nat)
    requires Chained(h) && i + 1 < |h| && h[i].redirected && h[i].auth.region != ""
    requires h[i + 1].generation > h[i].generation
    ensures h[i + 1].redirected && h[i + 1].auth.region == h[i].auth.region
  {
    assert Linked(h, i);
    var auth: AuthParams, refreshable: nat :| Merged(h[i], Material(auth, refreshable)) == Some(h[i + 1]);
    SetRegionExactly(auth, h[i].auth.region);
  }

  lemma PairGenerations(h: seq<Snapshot>, i: nat)
    requires Chained(h) && i + 1 < |h|
    ensures h[i].generation <= h[i + 1].generation <= h[i].generation + 1
  {
    assert Linked(h, i);
  }

  lemma {:induction false} GenerationsBounded(h: seq<Snapshot>, i: nat, j: nat)
    requires Chained(h) && i <= j < |h|
    ensures h[j].generation <= h[i].generation + j - i
    decreases j
  {
    if i < j {
      GenerationsBounded(h, i, j - 1);
      PairGenerations(h, j - 1);
    }
  }

  // Between two positions as many generations apart there were only refreshes.
  lemma {:induction false} HistoryKeepsRegion(h: seq<Snapshot>, i: nat, j: nat)
    requires Chained(h) && i <= j < |h| && h[i].redirected && h[i].auth.region != ""
    requires h[j].generation == h[i].generation + j - i
    ensures h[j].redirected && h[j].auth.region == h[i].auth.region
    decreases j
  {
    if i < j {
      GenerationsBounded(h, i, j - 1);
      PairGenerations(h, j - 1);
      HistoryKeepsRegion(h, i, j - 1);
      PairKeepsRegion(h, j - 1);
    }
  }

  // And the region is that of the last redirect, however many refreshes came since.
  lemma RegionKept(first: Snapshot, sched: Schedule, i: nat, j: nat)
    requires i <= j < |Run(first, sched).history|
    requires Run(first, sched).history[i].redirected && Run(first, sched).history[i].auth.region != ""
    requires Run(first, sched).history[j].generation == Run(first, sched).history[i].generation + j - i
    ensures Run(first, sched).history[j].redirected
    ensures Run(first, sched).history[j].auth.region == Run(first, sched).history[i].auth.region
  {
    HistoryKeepsRegion(Run(first, sched).history, i, j);
  }

  lemma StepKeepsClients(s: Session, t: Tid, ev: Event)
    requires Safe(s) && InHistory(s, At(s, t))
    ensures Step(s, t, ev).clientGeneration == s.clientGeneration
  {
    assert ThreadOk(s, At(s, t));
  }

  // Neither kind of publication drops a client connection.
  lemma {:induction false} ClientsSurvive(first: Snapshot, sched: Schedule)
    ensures Run(first, sched).clientGeneration == 0
  {
    if |sched| > 0 {
      var s := Run(first, sched[..|sched| - 1]);
      var (t, ev) := sched[|sched| - 1];
      ClientsSurvive(first, sched[..|sched| - 1]);
      StepSafe(s, t, ev);
      StepKeepsClients(s, t, ev);
    }
  }

  // Whoever is told that the session was refreshed finds newer credentials in it.
  lemma RefreshedMeansNewer(first: Snapshot, sched: Schedule, r: Result)
    requires r in Run(first, sched).results && r.RefreshResult? && r.refreshed
    ensures var s := Run(first, sched); Known(s, r.failed) && Current(s).generation > s.history[r.failed].generation
  {
    assert ResultOk(Run(first, sched), r);
  }

  // -------------------------------------------------------- what the loops achieve

  // The material of a refresh is published on top of what is current, and reported.
  predicate Publishes(s: Session, s': Session, t: Tid) {
    && |s.history| > 0 && (At(s, t).RefreshMerging? || At(s, t).RefreshPublishing?)
    && var merged := Merged(Current(s), At(s, t).material);
      && merged.Some? && s'.history == s.history + [merged.value]
      && s'.results == s.results + [RefreshResult(t, At(s, t).failed, true)]
  }

  lemma PublishingStep(s: Session, t: Tid)
    requires InHistory(s, At(s, t)) && At(s, t).RefreshPublishing? && At(s, t).expected == |s.history| - 1
    requires Merged(Current(s), At(s, t).material) == Some(At(s, t).replacement)
    ensures Publishes(s, Step(s, t, Event.Run), t)
  {
  }

  lemma CarriesMerged(first: Snapshot, sched: Schedule, s: Session, t: Tid)
    requires s == Run(first, sched) && At(s, t).RefreshPublishing? && At(s, t).expected == |s.history| - 1
    ensures InHistory(s, At(s, t)) && Merged(Current(s), At(s, t).material) == Some(At(s, t).replacement)
  {
    RunAllRead(first, sched);
    assert ThreadCarries(first, sched, s, t);
  }

  // What a refresh has read it publishes on top of whatever is published by then, and
  // says so: at once if nobody came between, and after another merge if somebody did.
  lemma PublishingPublishes(first: Snapshot, sched: Schedule, t: Tid)
    requires At(Run(first, sched), t).RefreshPublishing?
    requires At(Run(first, sched), t).expected == |Run(first, sched).history| - 1
    ensures Publishes(Run(first, sched), Run(first, sched + [(t, Event.Run)]), t)
  {
    var s := Run(first, sched);
    CarriesMerged(first, sched, s, t);
    PublishingStep(s, t);
    RunNext(first, sched, t, Event.Run);
  }

  lemma StaleMergesAgain(first: Snapshot, sched: Schedule, t: Tid)
    requires At(Run(first, sched), t).RefreshPublishing?
    requires At(Run(first, sched), t).expected != |Run(first, sched).history| - 1
    ensures var s, s' := Run(first, sched), Run(first, sched + [(t, Event.Run)]);
      && s'.history == s.history && s'.results == s.results
      && At(s', t) == RefreshMerging(At(s, t).failed, At(s, t).material)
  {
    RunNext(first, sched, t, Event.Run);
  }

  lemma MergingPublishes(first: Snapshot, sched: Schedule, t: Tid)
    requires At(Run(first, sched), t).RefreshMerging?
    requires var s := Run(first, sched);
      && InHistory(s, At(s, t)) && Current(s).generation == s.history[At(s, t).failed].generation
      && Merged(Current(s), At(s, t).material).Some?
    ensures Publishes(Run(first, sched), Run(first, (sched + [(t, Event.Run)]) + [(t, Event.Run)]), t)
  {
    RunNext(first, sched, t, Event.Run);
    RunNext(first, sched + [(t, Event.Run)], t, Event.Run);
  }

  // And a redirect publishes its region.
  lemma RedirectPublishes(first: Snapshot, sched: Schedule, t: Tid)
    requires At(Run(first, sched), t).MoveEntering?
    requires var s := Run(first, sched);
      At(s, t).region != Current(s).auth.region && Moved(Current(s), At(s, t).region).Some?
    ensures var s, s' := Run(first, sched), Run(first, (sched + [(t, Event.Run)]) + [(t, Event.Run)]);
      && s'.history == s.history + [Moved(Current(s), At(s, t).region).value]
      && s'.results == s.results + [MoveResult(t, At(s, t).region, true)]
  {
    RunNext(first, sched, t, Event.Run);
    RunNext(first, sched + [(t, Event.Run)], t, Event.Run);
  }

  // A response starts a move exactly if it names a region that its request was not
  // sent to, and to that region.
  lemma RedirectExactly(s: Session, t: Tid, failed: nat, header: Option<string>)
    requires Known(s, failed) && At(s, t) == Idle && InHistory(s, Idle)
    ensures var s' := Step(s, t, StartRedirect(failed, header));
      if header.Some? && header.value != "" && header.value != s.history[failed].auth.region
      then s' == Move(s, t, MoveEntering(header.value)) else s' == s
  {
  }

  // What a redirect publishes is another region than before, unless the empty one was
  // asked for and its default was there already.
  lemma RedirectsChangeRegion(first: Snapshot, sched: Schedule, i: nat)
    requires i + 1 < |Run(first, sched).history|
    requires Run(first, sched).history[i].generation == Run(first, sched).history[i + 1].generation
    ensures var a, b := Run(first, sched).history[i], Run(first, sched).history[i + 1];
      b.auth.region != a.auth.region || (a.auth.region == "us-east-1" && a.auth.credentials.accessKeyId != "")
  {
    var a, b := Run(first, sched).history[i], Run(first, sched).history[i + 1];
    assert Linked(Run(first, sched).history, i);
    var region: string :| region != a.auth.region && Moved(a, region) == Some(b);
    SetRegionExactly(a.auth, region);
  }

  // With refreshing off nothing is refreshed, ever.
  ghost predicate Off(first: Snapshot, s: Session) {
    && (forall i :: 0 <= i < |s.history| ==>
          !s.history[i].refreshEnabled && s.history[i].generation == first.generation)
    && (forall t: Tid :: !At(s, t).RefreshReloading? && !At(s, t).RefreshMerging? && !At(s, t).RefreshPublishing?)
  }

  lemma StepOff(first: Snapshot, s: Session, t: Tid, ev: Event)
    requires Safe(s) && Off(first, s) && InHistory(s, At(s, t))
    ensures Off(first, Step(s, t, ev))
  {
    var s' := Step(s, t, ev);
    assert ThreadOk(s, At(s, t));
    forall u: Tid ensures !At(s', u).RefreshReloading? && !At(s', u).RefreshMerging? && !At(s', u).RefreshPublishing? {
      if u != t { assert At(s', u) == At(s, u); }
    }
  }

  lemma {:induction false} RefreshingOff(first: Snapshot, sched: Schedule)
    requires !first.refreshEnabled
    ensures Off(first, Run(first, sched))
  {
    if |sched| > 0 {
      var s := Run(first, sched[..|sched| - 1]);
      var (t, ev) := sched[|sched| - 1];
      RefreshingOff(first, sched[..|sched| - 1]);
      StepSafe(s, t, ev);
      StepOff(first, s, t, ev);
    }
  }

  // A refresh gives up only when refreshing is off, its client has gone, or nothing new
  // was read and nobody else has refreshed.
  lemma GivesUpForCause(s: Session, t: Tid, ev: Event, failed: nat)
    requires Safe(s) && InHistory(s, At(s, t))
    requires Step(s, t, ev).results == s.results + [RefreshResult(t, failed, false)]
    ensures Known(s, failed)
    ensures || (ev.ContextGone? && At(s, t).RefreshReloading?)
            || (Current(s).generation == s.history[failed].generation
                && ((At(s, t).RefreshEntering? && !Current(s).refreshEnabled) || At(s, t).RefreshRechecking?))
  {
    var told := Step(s, t, ev).results[|s.results|];
    assert told == RefreshResult(t, failed, false);
  }

  // A refresh goes to recheck only when it read what is published already.
  lemma RechecksForCause(s: Session, t: Tid, ev: Event)
    requires Safe(s) && InHistory(s, At(s, t))
    requires !At(s, t).RefreshRechecking? && At(Step(s, t, ev), t).RefreshRechecking?
    ensures At(s, t).RefreshReloading?
    ensures ev.NothingNew? ||
      (ev.ReadMaterial? && ev.refreshable == s.history[At(s, t).from].http.refreshable
       && Reloaded(s.history[At(s, t).from].auth, ev.read, s.history[At(s, t).from].redirected)
            == Some(s.history[At(s, t).from].auth))
  {
  }
}
