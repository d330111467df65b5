// S3GlobResult as a function from state to state: a listing that is walked page
// by page, flat or one directory at a time, and the proof that both ways find
// exactly the keys that the flat listing contains and the pattern denotes.
module GlobWalk {
  import opened GlobMatch
  import opened GlobListing

  datatype GlobType = Unknown | Listing | Hierarchy

  // `shared` is the part of the pattern before its first wildcard, and
  // `mayInvestigate` the setting s3_allow_recursive_globbing.
  datatype Setup = Setup(glob: Globber, pattern: string, shared: string, mayInvestigate: bool, server: Server)

  // Token 0 is the empty continuation token: a listing starts with it, and its
  // last page returns it.
  datatype Walk = Walk(
    globType: GlobType,
    mainToken: nat,
    current: string,
    currentToken: nat,
    prefixes: seq<string>,
    finished: bool,
    expanded: seq<string>)

  const Begin := Walk(Unknown, 0, "", 0, [], false, [])

  function NextToken(pages: seq<Page>, i: nat): nat {
    if i + 1 < |pages| then i + 1 else 0
  }

  predicate EndsInSlash(key: string) { |key| > 0 && key[|key| - 1] == '/' }

  // AppendFileList: directory markers are not files.
  function Files(objects: seq<string>): seq<string> {
    if |objects| == 0 then []
    else (if EndsInSlash(objects[0]) then [] else [objects[0]]) + Files(objects[1..])
  }

  ghost predicate Wanted(c: Setup, key: string) {
    Denotes(c.glob, Split(c.pattern), Split(key))
  }

  ghost function Matching(c: Setup, keys: seq<string>): seq<string> {
    if |keys| == 0 then []
    else (if Wanted(c, keys[0]) then [keys[0]] else []) + Matching(c, keys[1..])
  }

  function TopMode(g: GlobType): ListMode {
    if g == Hierarchy then Hierarchical else Flat
  }

  function ContainsDouble(pattern: string): bool {
    |pattern| >= 2 && (pattern[..2] == "**" || ContainsDouble(pattern[1..]))
  }

  predicate Investigates(c: Setup, g: GlobType) {
    g == Unknown && !ContainsDouble(c.pattern) && c.mayInvestigate
  }

  // The directory part of a key.
  function DirectoryOf(key: string): string {
    Joined(Split(key)[..|Split(key)| - 1])
  }

  function Directories(keys: seq<string>): set<string> {
    set k | k in keys :: DirectoryOf(k)
  }

  predicate Dense(keys: seq<string>) {
    |Directories(keys)| * 100 < |keys|
  }

  // ----------------------------------------------------------------------- steps

  function SelectNext(w: Walk): Walk {
    if |w.prefixes| == 0 then w.(current := "")
    else w.(current := w.prefixes[|w.prefixes| - 1], prefixes := w.prefixes[..|w.prefixes| - 1])
  }

  ghost predicate InPages(c: Setup, w: Walk) {
    && w.currentToken < |c.server(w.current, Hierarchical)|
    && w.mainToken < |c.server(c.shared, TopMode(w.globType))|
    && (Investigates(c, w.globType) ==> w.mainToken == 0 < |c.server(c.shared, Hierarchical)|)
  }

  datatype Scan = Scan(walk: Walk, files: seq<string>)

  ghost function ScanCurrent(c: Setup, w: Walk): Scan
    requires InPages(c, w)
  {
    if Viable(c.glob, Split(c.pattern), Split(w.current)) then
      var pages := c.server(w.current, Hierarchical);
      var page := pages[w.currentToken];
      var w1 := w.(prefixes := w.prefixes + page.prefixes, currentToken := NextToken(pages, w.currentToken));
      Scan(if w1.currentToken == 0 then SelectNext(w1) else w1, Files(page.objects))
    else Scan(if w.currentToken == 0 then SelectNext(w) else w, [])
  }

  // The first page decides between the two ways of listing; a dense one is asked
  // for again, one directory at a time.
  function Choice(c: Setup, w: Walk): GlobType
    requires w.mainToken < |c.server(c.shared, TopMode(w.globType))|
  {
    var pages := c.server(c.shared, TopMode(w.globType));
    if !Investigates(c, w.globType) || NextToken(pages, w.mainToken) == 0 then w.globType
    else if Dense(Files(pages[w.mainToken].objects)) then Hierarchy
    else Listing
  }

  ghost function ScanTop(c: Setup, w: Walk): Scan
    requires InPages(c, w)
  {
    var g := Choice(c, w);
    var pages := c.server(c.shared, TopMode(g));
    var page := pages[w.mainToken];
    var w1 := w.(globType := g, mainToken := NextToken(pages, w.mainToken), prefixes := page.prefixes);
    Scan(SelectNext(w1), Files(page.objects))
  }

  ghost function Settle(c: Setup, s: Scan): Walk {
    s.walk.(finished := s.walk.finished || (s.walk.mainToken == 0 && s.walk.current == ""),
            expanded := s.walk.expanded + Matching(c, s.files))
  }

  ghost function Expand(c: Setup, w: Walk): Walk
    requires InPages(c, w)
  {
    if w.finished then w
    else Settle(c, if w.current != "" then ScanCurrent(c, w) else ScanTop(c, w))
  }

  // ------------------------------------------------------------------- invariant

  ghost predicate World(bucket: set<string>, c: Setup) {
    Serves(bucket, c.server)
  }

  // A directory that the walk looks into.
  ghost predicate Open(c: Setup, q: string) {
    Viable(c.glob, Split(c.pattern), Split(q))
  }

  // The walk looks into every directory between the shared prefix and `s`.
  ghost predicate Reached(c: Setup, s: string) {
    forall i :: |c.shared| < i < |s| && s[i - 1] == '/' ==> Open(c, s[..i])
  }

  ghost predicate Directory(bucket: set<string>, c: Setup, q: string) {
    && EndsInSlash(q) && c.shared < q && Reached(c, q)
    && exists k :: k in bucket && q <= k
  }

  ghost predicate Target(bucket: set<string>, c: Setup, k: string) {
    k in bucket && c.shared <= k && !EndsInSlash(k) && Wanted(c, k)
  }

  // The first page alone decides the way of listing.
  ghost predicate Decided(c: Setup, w: Walk) {
    && 0 < |c.server(c.shared, Flat)|
    && (w == Begin
        || (w.globType == Choice(c, Begin) && (Investigates(c, w.globType) ==> w.finished)))
  }

  ghost predicate Sound(bucket: set<string>, c: Setup, w: Walk) {
    && InPages(c, w)
    && (w.current == "" ==> |w.prefixes| == 0 && w.currentToken == 0)
    && (w.current != "" ==> Directory(bucket, c, w.current) && !w.finished)
    && (forall q :: q in w.prefixes ==> Directory(bucket, c, q))
    && (w.currentToken != 0 ==> Viable(c.glob, Split(c.pattern), Split(w.current)))
    && (w.globType != Hierarchy ==> w.current == "")
    && Decided(c, w)
    && (w.finished ==> w.mainToken == 0)
    && (forall k :: k in w.expanded ==> Target(bucket, c, k) && (w.globType == Hierarchy ==> Reached(c, k)))
  }

  // What is left of the directory being walked and of those waiting.
  function Below(c: Setup, w: Walk, k: string): nat
    requires w.currentToken < |c.server(w.current, Hierarchical)|
  {
    (if w.current == "" then 0 else Seen(c.server(w.current, Hierarchical)[w.currentToken..], k)) + Above(w.prefixes, k)
  }

  // What is left of the listing at the top.
  function Top(c: Setup, w: Walk, k: string): nat
    requires w.mainToken < |c.server(c.shared, TopMode(w.globType))|
  {
    Seen(c.server(c.shared, TopMode(w.globType))[w.mainToken..], k)
  }

  // Found, or still to be found.
  ghost predicate Accounted(c: Setup, w: Walk, k: string)
    requires InPages(c, w)
  {
    Times(w.expanded, k) + Below(c, w, k)
      + (if w.mainToken != 0 || (w.current == "" && !w.finished) then Top(c, w, k) else 0) == 1
  }

  ghost predicate Findable(c: Setup, w: Walk, k: string) {
    w.globType == Hierarchy ==> Reached(c, k)
  }

  ghost predicate Walks(bucket: set<string>, c: Setup, w: Walk) {
    && Sound(bucket, c, w)
    && forall k :: Target(bucket, c, k) && Findable(c, w, k) ==> Accounted(c, w, k)
  }

  // ---------------------------------------------------------------------- filters

  lemma {:induction false} FilesTimes(objects: seq<string>, k: string)
    ensures Times(Files(objects), k) == if EndsInSlash(k) then 0 else Times(objects, k)
  {
    if |objects| > 0 {
      FilesTimes(objects[1..], k);
      TimesAppend(if EndsInSlash(objects[0]) then [] else [objects[0]], Files(objects[1..]), k);
    }
  }

  lemma {:induction false} MatchingTimes(c: Setup, keys: seq<string>, k: string)
    ensures Times(Matching(c, keys), k) == if Wanted(c, k) then Times(keys, k) else 0
  {
    if |keys| > 0 {
      MatchingTimes(c, keys[1..], k);
      TimesAppend(if Wanted(c, keys[0]) then [keys[0]] else [], Matching(c, keys[1..]), k);
    }
  }

  lemma {:induction false} MatchingNext(c: Setup, keys: seq<string>, k: string)
    ensures Matching(c, keys + [k]) == Matching(c, keys) + if Wanted(c, k) then [k] else []
  {
    if |keys| == 0 {
      assert keys + [k] == [k];
    } else {
      var head, last := if Wanted(c, keys[0]) then [keys[0]] else [], if Wanted(c, k) then [k] else [];
      MatchingNext(c, keys[1..], k);
      assert (keys + [k])[1..] == keys[1..] + [k];
      Associate(head, Matching(c, keys[1..]), last, Matching(c, keys[1..] + [k]), Matching(c, keys),
                Matching(c, keys + [k]));
    }
  }

  lemma Associate(a: seq<string>, b: seq<string>, c: seq<string>, bc: seq<string>, ab: seq<string>, abc: seq<string>)
    requires bc == b + c && ab == a + b && abc == a + bc
    ensures abc == ab + c
  {
  }

  lemma DirectoriesNext(keys: seq<string>, k: string)
    ensures Directories(keys + [k]) == Directories(keys) + {DirectoryOf(k)}
  {
    assert k in keys + [k];
    forall j | j in keys ensures j in keys + [k] {}
  }

  lemma {:induction false} TimesIn(s: seq<string>, k: string)
    ensures Times(s, k) > 0 <==> k in s
  {
    if |s| > 0 {
      TimesIn(s[1..], k);
      assert k in s <==> k == s[0] || k in s[1..];
    }
  }

  // Matching files of one page.
  lemma FoundInPage(bucket: set<string>, c: Setup, objects: seq<string>, k: string)
    requires k in Matching(c, Files(objects))
    requires forall o :: o in objects ==> o in bucket && c.shared <= o
    ensures k in objects && Target(bucket, c, k)
  {
    TimesIn(Matching(c, Files(objects)), k);
    MatchingTimes(c, Files(objects), k);
    FilesTimes(objects, k);
    TimesIn(objects, k);
  }

  lemma FoundTimes(bucket: set<string>, c: Setup, objects: seq<string>, k: string)
    requires Target(bucket, c, k)
    ensures Times(Matching(c, Files(objects)), k) == Times(objects, k)
  {
    MatchingTimes(c, Files(objects), k);
    FilesTimes(objects, k);
  }

  // ------------------------------------------------------------------ directories

  // The step from one directory, or from the shared prefix, to the next.
  predicate Entered(c: Setup, prefix: string) {
    prefix == c.shared || (c.shared < prefix && EndsInSlash(prefix))
  }

  ghost predicate Looked(c: Setup, prefix: string) {
    Entered(c, prefix) && Reached(c, prefix) && (prefix != c.shared ==> Open(c, prefix))
  }

  lemma ReachedNext(c: Setup, prefix: string, s: string)
    requires Looked(c, prefix) && prefix <= s
    requires forall j :: |prefix| <= j < |s| - 1 ==> s[j] != '/'
    ensures Reached(c, s)
  {
    forall i | |c.shared| < i < |s| && s[i - 1] == '/' ensures Open(c, s[..i]) {
      assert i <= |prefix| && s[i - 1] == prefix[i - 1];
      assert s[..i] == prefix[..i] && prefix[..|prefix|] == prefix;
    }
  }

  lemma RolledDirectory(bucket: set<string>, c: Setup, prefix: string, q: string)
    requires Looked(c, prefix) && Rolled(bucket, prefix, q)
    ensures Directory(bucket, c, q)
  {
    var k :| k in bucket && prefix <= k && !Direct(prefix, k) && q == Common(prefix, k);
    ReachedNext(c, prefix, q);
  }

  lemma DirectReached(c: Setup, prefix: string, k: string)
    requires Looked(c, prefix) && prefix <= k && Direct(prefix, k)
    ensures Reached(c, k)
  {
    ReachedNext(c, prefix, k);
  }

  // A directory with a component, above a wanted key, is not pruned.
  lemma WantedViable(bucket: set<string>, c: Setup, q: string, k: string)
    requires EndsInSlash(q) && |Pieces(q)| > 0 && Target(bucket, c, k) && q <= k
    ensures Open(c, q)
  {
    var rest := k[|q|..];
    assert k == q + rest;
    PiecesBelow(q, rest);
    var directory, key := Pieces(q), Pieces(k);
    assert key[..|directory|] == directory && Split(q) == directory && Split(k) == key;
    PruningSound(c.glob, Split(c.pattern), key, |directory|);
  }

  // The walk looks into the directories above a key that it reaches.
  lemma AboveOpen(bucket: set<string>, c: Setup, q: string, k: string)
    requires Directory(bucket, c, q) && Target(bucket, c, k) && Reached(c, k) && q <= k
    ensures Open(c, q)
  {
    assert q == k[..|q|] && q != k;
  }

  // A directory that has not been looked at accounts for the keys below it.
  lemma Fresh(bucket: set<string>, c: Setup, q: string, k: string)
    requires World(bucket, c) && k in bucket
    ensures Seen(c.server(q, Hierarchical)[0..], k) == if q <= k then 1 else 0
  {
    var pages := c.server(q, Hierarchical);
    assert Faithful(bucket, q, Hierarchical, pages);
    assert pages[0..] == pages;
    if q <= k {
      ListedOnce(bucket, q, Hierarchical, pages, k);
    } else {
      NotListed(bucket, q, Hierarchical, pages, k);
    }
  }

  lemma LastAbove(qs: seq<string>, k: string)
    requires |qs| > 0
    ensures Above(qs, k) == Above(qs[..|qs| - 1], k) + if qs[|qs| - 1] <= k then 1 else 0
  {
    AboveAppend(qs[..|qs| - 1], [qs[|qs| - 1]], k);
    assert qs[..|qs| - 1] + [qs[|qs| - 1]] == qs;
    assert [qs[|qs| - 1]][1..] == [];
  }

  lemma SelectCounts(bucket: set<string>, c: Setup, w: Walk, k: string)
    requires World(bucket, c) && k in bucket && w.currentToken == 0
    requires forall q :: q in w.prefixes ==> Directory(bucket, c, q)
    ensures 0 < |c.server(SelectNext(w).current, Hierarchical)|
    ensures Below(c, SelectNext(w), k) == Above(w.prefixes, k)
  {
    var w1 := SelectNext(w);
    assert Faithful(bucket, w1.current, Hierarchical, c.server(w1.current, Hierarchical));
    if |w.prefixes| > 0 {
      assert w1.current in w.prefixes;
      LastAbove(w.prefixes, k);
      Fresh(bucket, c, w1.current, k);
    }
  }

  lemma PageCounts(pages: seq<Page>, i: nat, k: string)
    requires i < |pages|
    ensures Seen(pages[i..], k) == Times(pages[i].objects, k) + Above(pages[i].prefixes, k)
      + if NextToken(pages, i) == 0 then 0 else Seen(pages[NextToken(pages, i)..], k)
  {
    SeenNext(pages, i, k);
    if i + 1 == |pages| {
      assert pages[i + 1..] == [];
    }
  }

  // What a page of a listing at or below the shared prefix holds.
  lemma PageHolds(bucket: set<string>, c: Setup, prefix: string, mode: ListMode, i: nat)
    requires World(bucket, c) && Looked(c, prefix) && i < |c.server(prefix, mode)|
    ensures var page := c.server(prefix, mode)[i];
      && (forall o :: o in page.objects ==> o in bucket && c.shared <= o && (mode.Hierarchical? ==> Reached(c, o)))
      && (forall q :: q in page.prefixes ==> Directory(bucket, c, q))
      && (mode.Flat? ==> |page.prefixes| == 0)
  {
    var pages := c.server(prefix, mode);
    assert Faithful(bucket, prefix, mode, pages);
    PageWithin(pages, i);
    forall q | q in pages[i].prefixes ensures mode.Hierarchical? && Directory(bucket, c, q) {
      RolledDirectory(bucket, c, prefix, q);
    }
    forall o | o in pages[i].objects && mode.Hierarchical? ensures Reached(c, o) {
      DirectReached(c, prefix, o);
    }
    if |pages[i].prefixes| > 0 {
      assert pages[i].prefixes[0] in pages[i].prefixes;
    }
  }

  // --------------------------------------------------------- one directory's page

  // The walk after a page of the current directory, before choosing the next.
  ghost function TakePage(c: Setup, w: Walk): Walk
    requires InPages(c, w)
  {
    var pages := c.server(w.current, Hierarchical);
    w.(prefixes := w.prefixes + pages[w.currentToken].prefixes, currentToken := NextToken(pages, w.currentToken))
  }

  lemma TakePageCounts(bucket: set<string>, c: Setup, w: Walk, k: string)
    requires World(bucket, c) && Sound(bucket, c, w) && w.current != "" && Target(bucket, c, k)
    requires Open(c, w.current)
    ensures var w1, objects := TakePage(c, w), c.server(w.current, Hierarchical)[w.currentToken].objects;
      && (forall q :: q in w1.prefixes ==> Directory(bucket, c, q))
      && Times(objects, k) + Above(w1.prefixes, k)
           + (if w1.currentToken == 0 then 0 else Seen(c.server(w.current, Hierarchical)[w1.currentToken..], k))
         == Below(c, w, k)
  {
    var pages := c.server(w.current, Hierarchical);
    PageHolds(bucket, c, w.current, Hierarchical, w.currentToken);
    PageCounts(pages, w.currentToken, k);
    AboveAppend(w.prefixes, pages[w.currentToken].prefixes, k);
  }

  lemma ScanCurrentCounts(bucket: set<string>, c: Setup, w: Walk, k: string)
    requires World(bucket, c) && Sound(bucket, c, w) && w.current != "" && Target(bucket, c, k) && Reached(c, k)
    ensures var s := ScanCurrent(c, w);
      && s.walk.currentToken < |c.server(s.walk.current, Hierarchical)|
      && Times(Matching(c, s.files), k) + Below(c, s.walk, k) == Below(c, w, k)
  {
    if Viable(c.glob, Split(c.pattern), Split(w.current)) {
      var w1 := TakePage(c, w);
      TakePageCounts(bucket, c, w, k);
      FoundTimes(bucket, c, c.server(w.current, Hierarchical)[w.currentToken].objects, k);
      if w1.currentToken == 0 {
        SelectCounts(bucket, c, w1, k);
      }
    } else {
      Fresh(bucket, c, w.current, k);
      if w.current <= k {
        AboveOpen(bucket, c, w.current, k);
        assert false;
      }
      SelectCounts(bucket, c, w, k);
    }
  }

  lemma SelectSound(bucket: set<string>, c: Setup, w: Walk)
    requires World(bucket, c) && w.currentToken == 0
    requires forall q :: q in w.prefixes ==> Directory(bucket, c, q)
    ensures var w1 := SelectNext(w);
      && w1.currentToken == 0 < |c.server(w1.current, Hierarchical)|
      && (w1.current == "" ==> |w1.prefixes| == 0)
      && (w1.current != "" ==> Directory(bucket, c, w1.current))
      && (forall q :: q in w1.prefixes ==> Directory(bucket, c, q))
  {
    var w1 := SelectNext(w);
    assert Faithful(bucket, w1.current, Hierarchical, c.server(w1.current, Hierarchical));
    if |w.prefixes| > 0 {
      assert w1.current in w.prefixes && EndsInSlash(w1.current);
      forall q | q in w1.prefixes ensures Directory(bucket, c, q) { assert q in w.prefixes; }
    }
  }

  lemma FoundSound(bucket: set<string>, c: Setup, objects: seq<string>)
    requires forall o :: o in objects ==> o in bucket && c.shared <= o
    ensures forall k :: k in Matching(c, Files(objects)) ==> k in objects && Target(bucket, c, k)
  {
    forall k | k in Matching(c, Files(objects)) ensures k in objects && Target(bucket, c, k) {
      FoundInPage(bucket, c, objects, k);
    }
  }

  lemma ScanCurrentSound(bucket: set<string>, c: Setup, w: Walk)
    requires World(bucket, c) && Sound(bucket, c, w) && w.current != ""
    ensures Sound(bucket, c, Settle(c, ScanCurrent(c, w)))
  {
    if Viable(c.glob, Split(c.pattern), Split(w.current)) {
      PageHolds(bucket, c, w.current, Hierarchical, w.currentToken);
      FoundSound(bucket, c, c.server(w.current, Hierarchical)[w.currentToken].objects);
      var w1 := TakePage(c, w);
      if w1.currentToken == 0 {
        SelectSound(bucket, c, w1);
      }
    } else {
      SelectSound(bucket, c, w);
    }
  }

  // ------------------------------------------------------------- the listing's page

  lemma ChoiceInPages(bucket: set<string>, c: Setup, w: Walk)
    requires World(bucket, c) && Sound(bucket, c, w) && w.current == "" && !w.finished
    ensures var g := Choice(c, w);
      && w.mainToken < |c.server(c.shared, TopMode(g))|
      && (Investigates(c, g) ==> NextToken(c.server(c.shared, TopMode(g)), w.mainToken) == 0)
  {
  }

  lemma ChoiceCounts(bucket: set<string>, c: Setup, w: Walk, k: string)
    requires World(bucket, c) && Sound(bucket, c, w) && w.current == "" && !w.finished && Target(bucket, c, k)
    ensures Seen(c.server(c.shared, TopMode(Choice(c, w)))[w.mainToken..], k) == Top(c, w, k)
  {
    if TopMode(Choice(c, w)) != TopMode(w.globType) {
      var flat, hierarchical := c.server(c.shared, Flat), c.server(c.shared, Hierarchical);
      assert Faithful(bucket, c.shared, Flat, flat) && Faithful(bucket, c.shared, Hierarchical, hierarchical);
      ListedOnce(bucket, c.shared, Flat, flat, k);
      ListedOnce(bucket, c.shared, Hierarchical, hierarchical, k);
      assert flat[0..] == flat && hierarchical[0..] == hierarchical;
    }
  }

  lemma ScanTopCounts(bucket: set<string>, c: Setup, w: Walk, k: string)
    requires World(bucket, c) && Sound(bucket, c, w) && w.current == "" && !w.finished && Target(bucket, c, k)
    ensures var s := ScanTop(c, w);
      && InPages(c, s.walk)
      && Times(Matching(c, s.files), k) + Below(c, s.walk, k)
           + (if s.walk.mainToken == 0 then 0 else Top(c, s.walk, k))
         == Top(c, w, k)
  {
    ChoiceInPages(bucket, c, w);
    ChoiceCounts(bucket, c, w, k);
    var g := Choice(c, w);
    var pages := c.server(c.shared, TopMode(g));
    PageHolds(bucket, c, c.shared, TopMode(g), w.mainToken);
    PageCounts(pages, w.mainToken, k);
    FoundTimes(bucket, c, pages[w.mainToken].objects, k);
    var w1 := w.(globType := g, mainToken := NextToken(pages, w.mainToken), prefixes := pages[w.mainToken].prefixes);
    SelectCounts(bucket, c, w1, k);
  }

  lemma ScanTopSound(bucket: set<string>, c: Setup, w: Walk)
    requires World(bucket, c) && Sound(bucket, c, w) && w.current == "" && !w.finished
    ensures Sound(bucket, c, Settle(c, ScanTop(c, w)))
  {
    ChoiceInPages(bucket, c, w);
    var g := Choice(c, w);
    var pages := c.server(c.shared, TopMode(g));
    PageHolds(bucket, c, c.shared, TopMode(g), w.mainToken);
    FoundSound(bucket, c, pages[w.mainToken].objects);
    var w1 := w.(globType := g, mainToken := NextToken(pages, w.mainToken), prefixes := pages[w.mainToken].prefixes);
    SelectSound(bucket, c, w1);
  }

  // ------------------------------------------------------------------------- runs

  lemma BeginWalks(bucket: set<string>, c: Setup)
    requires World(bucket, c)
    ensures Walks(bucket, c, Begin)
  {
    var flat := c.server(c.shared, Flat);
    assert Faithful(bucket, c.shared, Flat, flat) && flat[0..] == flat;
    assert Faithful(bucket, c.shared, Hierarchical, c.server(c.shared, Hierarchical));
    assert Faithful(bucket, "", Hierarchical, c.server("", Hierarchical));
    forall k | Target(bucket, c, k) ensures Accounted(c, Begin, k) {
      ListedOnce(bucket, c.shared, Flat, flat, k);
    }
  }

  lemma ScanCurrentTop(c: Setup, w: Walk, k: string)
    requires InPages(c, w)
    ensures var s := ScanCurrent(c, w);
      && s.walk.mainToken == w.mainToken && s.walk.globType == w.globType && s.walk.finished == w.finished
      && s.walk.expanded == w.expanded && Top(c, s.walk, k) == Top(c, w, k)
  {
  }

  lemma CurrentAccounts(bucket: set<string>, c: Setup, w: Walk, k: string)
    requires World(bucket, c) && Sound(bucket, c, w) && w.current != ""
    requires Target(bucket, c, k) && Reached(c, k) && Accounted(c, w, k)
    requires InPages(c, Settle(c, ScanCurrent(c, w)))
    ensures Accounted(c, Settle(c, ScanCurrent(c, w)), k)
  {
    ScanCurrentCounts(bucket, c, w, k);
    ScanCurrentTop(c, w, k);
    TimesAppend(w.expanded, Matching(c, ScanCurrent(c, w).files), k);
  }

  lemma TopAccounts(bucket: set<string>, c: Setup, w: Walk, k: string)
    requires World(bucket, c) && Sound(bucket, c, w) && w.current == "" && !w.finished
    requires Target(bucket, c, k) && Accounted(c, w, k)
    requires InPages(c, Settle(c, ScanTop(c, w)))
    ensures Accounted(c, Settle(c, ScanTop(c, w)), k)
  {
    ScanTopCounts(bucket, c, w, k);
    TimesAppend(w.expanded, Matching(c, ScanTop(c, w).files), k);
  }

  lemma ExpandWalks(bucket: set<string>, c: Setup, w: Walk)
    requires World(bucket, c) && Walks(bucket, c, w)
    ensures Walks(bucket, c, Expand(c, w))
  {
    if !w.finished {
      if w.current != "" {
        ScanCurrentSound(bucket, c, w);
        forall k | Target(bucket, c, k) && Reached(c, k) ensures Accounted(c, Expand(c, w), k) {
          CurrentAccounts(bucket, c, w, k);
        }
      } else {
        ScanTopSound(bucket, c, w);
        forall k | Target(bucket, c, k) && Findable(c, Expand(c, w), k) ensures Accounted(c, Expand(c, w), k) {
          TopAccounts(bucket, c, w, k);
        }
      }
    }
  }

  // The keys that a flat listing of the shared prefix finds.
  ghost function FlatResult(c: Setup): seq<string> {
    Matching(c, Files(Objects(c.server(c.shared, Flat))))
  }

  lemma FlatTimes(bucket: set<string>, c: Setup, k: string)
    requires World(bucket, c)
    ensures Times(FlatResult(c), k) == if Target(bucket, c, k) then 1 else 0
  {
    var flat := c.server(c.shared, Flat);
    assert Faithful(bucket, c.shared, Flat, flat);
    MatchingTimes(c, Files(Objects(flat)), k);
    FilesTimes(Objects(flat), k);
    TimesDistinct(Objects(flat), k);
  }

  // ------------------------------------------------------------ what a walk finds

  // What the walk finds, exactly: each wanted key once, but one directory at a time
  // only those whose directories are all looked into.
  ghost predicate Found(bucket: set<string>, c: Setup, k: string)
    requires 0 < |c.server(c.shared, Flat)|
  {
    Target(bucket, c, k) && (Choice(c, Begin) == Hierarchy ==> Reached(c, k))
  }

  lemma WalkExactly(bucket: set<string>, c: Setup, w: Walk)
    requires World(bucket, c) && Walks(bucket, c, w) && w.finished
    ensures forall k :: Times(w.expanded, k) == if Found(bucket, c, k) then 1 else 0
  {
    forall k ensures Times(w.expanded, k) == if Found(bucket, c, k) then 1 else 0 {
      TimesIn(w.expanded, k);
      if Found(bucket, c, k) {
        assert Findable(c, w, k) && Accounted(c, w, k);
      }
    }
  }

  // In whatever pages the listings come, the walk is the flat listing, each key as
  // often, if and only if it stays flat or reaches every wanted key.
  lemma WalkRefinesFlat(bucket: set<string>, c: Setup, w: Walk)
    requires World(bucket, c) && Walks(bucket, c, w) && w.finished
    ensures multiset(w.expanded) == multiset(FlatResult(c)) <==>
      Choice(c, Begin) != Hierarchy || forall k :: Target(bucket, c, k) ==> Reached(c, k)
  {
    WalkExactly(bucket, c, w);
    var found, flat := multiset(w.expanded), multiset(FlatResult(c));
    forall k
      ensures found[k] == if Found(bucket, c, k) then 1 else 0
      ensures flat[k] == if Target(bucket, c, k) then 1 else 0
    {
      FlatTimes(bucket, c, k);
      TimesMultiset(w.expanded, k);
      TimesMultiset(FlatResult(c), k);
    }
    if k :| Choice(c, Begin) == Hierarchy && Target(bucket, c, k) && !Reached(c, k) {
      assert found[k] != flat[k];
    } else {
      assert forall k :: found[k] == flat[k];
    }
  }

  predicate Slashes(s: string) {
    forall i :: 0 <= i < |s| ==> s[i] == '/'
  }

  lemma {:induction false} NoPieces(s: string)
    ensures |Pieces(s)| == 0 <==> Slashes(s)
    decreases |s|
  {
    var i := Last(s);
    if i < |s| {
      assert |Piece(s[i..])| == 1 && s[i] != '/';
    } else if i > 0 {
      var above := s[..i - 1];
      NoPieces(above);
      assert Pieces(s) == Pieces(above) + [];
      assert s == above + ['/'];
    }
  }

  // A directory without components splits into itself: one component.
  lemma SlashesOpen(c: Setup, q: string)
    requires Slashes(q)
    ensures Open(c, q) <==> Split(c.pattern)[0] == "**" || c.glob(q, Split(c.pattern)[0])
  {
    NoPieces(q);
    var pattern, key := Split(c.pattern), [q];
    assert Split(q) == key;
    assert Recursive(pattern) == 0 <==> pattern[0] == "**";
    if Viable(c.glob, pattern, key) && pattern[0] != "**" { assert c.glob(key[0], pattern[0]); }
  }

  // What can be missed: a wanted key below a directory of slashes alone which the
  // first component of the pattern does not match.
  lemma ReachedExactly(bucket: set<string>, c: Setup, k: string)
    requires Target(bucket, c, k)
    ensures Reached(c, k) <==>
      || Split(c.pattern)[0] == "**"
      || forall n :: |c.shared| < n < |k| && Slashes(k[..n]) ==> c.glob(k[..n], Split(c.pattern)[0])
  {
    forall n | |c.shared| < n < |k| && Slashes(k[..n])
      ensures Open(c, k[..n]) <==> Split(c.pattern)[0] == "**" || c.glob(k[..n], Split(c.pattern)[0])
      ensures k[n - 1] == '/'
    {
      SlashesOpen(c, k[..n]);
      assert k[..n][n - 1] == '/';
    }
    forall n | |c.shared| < n < |k| && k[n - 1] == '/' && !Slashes(k[..n]) ensures Open(c, k[..n]) {
      NoPieces(k[..n]);
      WantedViable(bucket, c, k[..n], k);
    }
  }

  // Nothing is missed where keys do not start with slashes alone.
  lemma OrdinaryReached(bucket: set<string>, c: Setup, k: string, i: nat)
    requires Target(bucket, c, k) && i < |k| && k[i] != '/' && i <= |c.shared|
    ensures Reached(c, k)
  {
    ReachedExactly(bucket, c, k);
    forall n | |c.shared| < n < |k| ensures !Slashes(k[..n]) {
      assert k[..n][i] == k[i];
    }
  }
}

// The walk ends: what it still has to ask for shrinks with every step.
module GlobTermination {
  import opened GlobMatch
  import opened GlobListing
  import opened GlobWalk

  ghost function Longest(bucket: set<string>): (n: nat)
    ensures forall k :: k in bucket ==> |k| <= n
  {
    if bucket == {} then 0
    else
      var k :| k in bucket;
      var rest := Longest(bucket - {k});
      assert bucket == (bucket - {k}) + {k};
      if |k| > rest then |k| else rest
  }

  // Requests for a directory and everything below it, for pages, and for a list of
  // directories; `above` is shorter than all of them.
  ghost function Work(c: Setup, bound: nat, q: string): nat
    decreases bound - |q|, 3
  {
    if |q| > bound then 0 else 1 + PagesWork(c, bound, |q|, c.server(q, Hierarchical))
  }

  ghost function PagesWork(c: Setup, bound: nat, above: nat, pages: seq<Page>): nat
    requires above <= bound
    decreases bound - above, 2, |pages|
  {
    if |pages| == 0 then 0
    else 1 + ListWork(c, bound, above, pages[0].prefixes) + PagesWork(c, bound, above, pages[1..])
  }

  ghost function ListWork(c: Setup, bound: nat, above: nat, qs: seq<string>): nat
    requires above <= bound
    decreases bound - above, 1, |qs|
  {
    if |qs| == 0 then 0
    else (if |qs[0]| > above then Work(c, bound, qs[0]) else 0) + ListWork(c, bound, above, qs[1..])
  }

  lemma {:induction false} ListWorkAppend(c: Setup, bound: nat, above: nat, a: seq<string>, b: seq<string>)
    requires above <= bound
    ensures ListWork(c, bound, above, a + b) == ListWork(c, bound, above, a) + ListWork(c, bound, above, b)
  {
    if |a| == 0 {
      assert a + b == b;
    } else {
      ListWorkAppend(c, bound, above, a[1..], b);
      assert (a + b)[1..] == a[1..] + b;
    }
  }

  lemma {:induction false} ListWorkDeep(c: Setup, bound: nat, above: nat, qs: seq<string>)
    requires above <= bound && forall q :: q in qs ==> |q| > above
    ensures ListWork(c, bound, above, qs) == ListWork(c, bound, 0, qs)
  {
    if |qs| > 0 {
      assert qs[0] in qs;
      forall q | q in qs[1..] ensures |q| > above { assert q in qs; }
      ListWorkDeep(c, bound, above, qs[1..]);
    }
  }

  lemma {:induction false} PagesWorkDeep(c: Setup, bound: nat, above: nat, pages: seq<Page>)
    requires above <= bound && forall q :: q in Prefixes(pages) ==> |q| > above
    ensures PagesWork(c, bound, above, pages) == PagesWork(c, bound, 0, pages)
  {
    if |pages| > 0 {
      forall q | q in pages[0].prefixes ensures |q| > above { assert q in Prefixes(pages); }
      forall q | q in Prefixes(pages[1..]) ensures |q| > above { assert q in Prefixes(pages); }
      ListWorkDeep(c, bound, above, pages[0].prefixes);
      PagesWorkDeep(c, bound, above, pages[1..]);
    }
  }

  ghost function PagesLeft(c: Setup, bound: nat, pages: seq<Page>, from: nat): nat
    requires from <= |pages|
  {
    PagesWork(c, bound, 0, pages[from..])
  }

  ghost function TopWork(c: Setup, bound: nat, w: Walk): nat
    requires InPages(c, w)
  {
    var pages := c.server(c.shared, TopMode(w.globType));
    if w.mainToken == 0 && (w.current != "" || w.finished) then 0
    else
      1 + PagesLeft(c, bound, pages, w.mainToken)
      + if w.globType == Unknown then 1 + PagesLeft(c, bound, c.server(c.shared, Hierarchical), 0) else 0
  }

  ghost function CurrentWork(c: Setup, bound: nat, w: Walk): nat
    requires InPages(c, w)
  {
    if w.current == "" then 0
    else 1 + PagesLeft(c, bound, c.server(w.current, Hierarchical), w.currentToken)
  }

  // A bound on the calls of ExpandNextPath that are still to come.
  ghost function Pending(c: Setup, bound: nat, w: Walk): nat
    requires InPages(c, w)
  {
    TopWork(c, bound, w) + CurrentWork(c, bound, w) + ListWork(c, bound, 0, w.prefixes)
  }

  lemma WorkOf(bucket: set<string>, c: Setup, bound: nat, q: string)
    requires World(bucket, c) && (forall k :: k in bucket ==> |k| <= bound) && Directory(bucket, c, q)
    ensures Work(c, bound, q) == 1 + PagesLeft(c, bound, c.server(q, Hierarchical), 0)
  {
    var pages := c.server(q, Hierarchical);
    assert Faithful(bucket, q, Hierarchical, pages);
    forall r | r in Prefixes(pages) ensures |r| > |q| {
      assert Rolled(bucket, q, r);
    }
    PagesWorkDeep(c, bound, |q|, pages);
    assert pages[0..] == pages;
  }

  lemma PageWork(c: Setup, bound: nat, pages: seq<Page>, i: nat)
    requires i < |pages|
    ensures PagesLeft(c, bound, pages, i) == 1 + ListWork(c, bound, 0, pages[i].prefixes)
      + if NextToken(pages, i) == 0 then 0 else PagesLeft(c, bound, pages, NextToken(pages, i))
  {
    var left, rest := pages[i..], pages[i + 1..];
    assert left[0] == pages[i] && left[1..] == rest;
    assert PagesWork(c, bound, 0, left)
        == 1 + ListWork(c, bound, 0, left[0].prefixes) + PagesWork(c, bound, 0, left[1..]);
    assert PagesWork(c, bound, 0, rest) == if |rest| == 0 then 0 else PagesLeft(c, bound, pages, i + 1);
  }

  lemma SelectWork(bucket: set<string>, c: Setup, bound: nat, w: Walk)
    requires World(bucket, c) && (forall k :: k in bucket ==> |k| <= bound)
    requires InPages(c, w) && w.currentToken == 0 && forall q :: q in w.prefixes ==> Directory(bucket, c, q)
    requires InPages(c, SelectNext(w))
    ensures CurrentWork(c, bound, SelectNext(w)) + ListWork(c, bound, 0, SelectNext(w).prefixes)
         == ListWork(c, bound, 0, w.prefixes)
  {
    if |w.prefixes| > 0 {
      var n := |w.prefixes| - 1;
      assert w.prefixes[..n] + [w.prefixes[n]] == w.prefixes;
      ListWorkAppend(c, bound, 0, w.prefixes[..n], [w.prefixes[n]]);
      assert |[w.prefixes[n]][1..]| == 0;
      assert w.prefixes[n] in w.prefixes;
      WorkOf(bucket, c, bound, w.prefixes[n]);
    }
  }

  lemma CurrentShrinks(bucket: set<string>, c: Setup, bound: nat, w: Walk)
    requires World(bucket, c) && (forall k :: k in bucket ==> |k| <= bound)
    requires Sound(bucket, c, w) && w.current != "" && InPages(c, ScanCurrent(c, w).walk)
    ensures var w1 := ScanCurrent(c, w).walk;
      CurrentWork(c, bound, w1) + ListWork(c, bound, 0, w1.prefixes)
        < CurrentWork(c, bound, w) + ListWork(c, bound, 0, w.prefixes)
  {
    if Viable(c.glob, Split(c.pattern), Split(w.current)) {
      var pages := c.server(w.current, Hierarchical);
      PageHolds(bucket, c, w.current, Hierarchical, w.currentToken);
      PageWork(c, bound, pages, w.currentToken);
      ListWorkAppend(c, bound, 0, w.prefixes, pages[w.currentToken].prefixes);
      var w1 := TakePage(c, w);
      if w1.currentToken == 0 {
        SelectWork(bucket, c, bound, w1);
      }
    } else {
      SelectWork(bucket, c, bound, w);
    }
  }

  lemma TopShrinks(bucket: set<string>, c: Setup, bound: nat, w: Walk)
    requires World(bucket, c) && (forall k :: k in bucket ==> |k| <= bound)
    requires Sound(bucket, c, w) && w.current == "" && !w.finished && InPages(c, Settle(c, ScanTop(c, w)))
    ensures Pending(c, bound, Settle(c, ScanTop(c, w))) < Pending(c, bound, w)
  {
    ChoiceInPages(bucket, c, w);
    var g := Choice(c, w);
    var pages := c.server(c.shared, TopMode(g));
    PageHolds(bucket, c, c.shared, TopMode(g), w.mainToken);
    PageWork(c, bound, pages, w.mainToken);
    var w1 := w.(globType := g, mainToken := NextToken(pages, w.mainToken), prefixes := pages[w.mainToken].prefixes);
    SelectWork(bucket, c, bound, w1);
  }

  lemma CurrentStepShrinks(bucket: set<string>, c: Setup, bound: nat, w: Walk)
    requires World(bucket, c) && (forall k :: k in bucket ==> |k| <= bound)
    requires Sound(bucket, c, w) && w.current != "" && Sound(bucket, c, Settle(c, ScanCurrent(c, w)))
    ensures Pending(c, bound, Settle(c, ScanCurrent(c, w))) < Pending(c, bound, w)
  {
    CurrentShrinks(bucket, c, bound, w);
  }

  // Every call that does something leaves less to do, so a walk ends after at most
  // `Pending` of them.
  lemma ExpandShrinks(bucket: set<string>, c: Setup, w: Walk)
    requires World(bucket, c) && Sound(bucket, c, w) && !w.finished
    ensures InPages(c, Expand(c, w))
    ensures Pending(c, Longest(bucket), Expand(c, w)) < Pending(c, Longest(bucket), w)
  {
    if w.current != "" {
      ScanCurrentSound(bucket, c, w);
      CurrentStepShrinks(bucket, c, Longest(bucket), w);
    } else {
      ScanTopSound(bucket, c, w);
      TopShrinks(bucket, c, Longest(bucket), w);
    }
  }

  // The end of the walk.
  ghost function End(bucket: set<string>, c: Setup, w: Walk): (end: Walk)
    requires World(bucket, c) && Walks(bucket, c, w)
    ensures Walks(bucket, c, end) && end.finished
    decreases Pending(c, Longest(bucket), w)
  {
    if w.finished then w
    else
      ExpandWalks(bucket, c, w);
      ExpandShrinks(bucket, c, w);
      End(bucket, c, Expand(c, w))
  }
}
