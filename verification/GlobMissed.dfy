// A bucket and a pattern for which the walk misses a key of the flat listing: more
// than a hundred keys below the directory "/", none of which has another component
// above it, and a pattern whose first component does not match a slash.
module GlobMissed {
  import opened GlobMatch
  import opened GlobListing
  import opened GlobWalk
  import opened GlobTermination

  // ------------------------------------------------------- a server for any bucket

  ghost function Listed(s: set<string>): (r: seq<string>)
    ensures Distinct(r) && |r| == |s| && forall k :: k in r <==> k in s
  {
    if s == {} then []
    else
      var k :| k in s;
      var rest := Listed(s - {k});
      assert forall j :: 0 <= j < |rest| ==> rest[j] in rest;
      [k] + rest
  }

  lemma LastPage(page: Page)
    ensures Objects([page]) == page.objects && Prefixes([page]) == page.prefixes
  {
    var none: seq<Page> := [];
    assert [page][1..] == none;
  }

  // All but the last object on a first page.
  function Cut(objects: seq<string>, prefixes: seq<string>): (pages: seq<Page>)
    ensures |pages| > 0 && Objects(pages) == objects && Prefixes(pages) == prefixes
  {
    if |objects| == 0 then
      LastPage(Page([], prefixes));
      [Page([], prefixes)]
    else
      var n := |objects| - 1;
      var first, last := Page(objects[..n], []), Page(objects[n..], prefixes);
      LastPage(last);
      assert [first, last][1..] == [last];
      assert objects[..n] + objects[n..] == objects;
      [first, last]
  }

  function ObjectsOf(bucket: set<string>, prefix: string, mode: ListMode): set<string> {
    set k | k in bucket && prefix <= k && (mode.Flat? || Direct(prefix, k))
  }

  function PrefixesOf(bucket: set<string>, prefix: string, mode: ListMode): set<string> {
    set k | k in bucket && mode.Hierarchical? && prefix <= k && !Direct(prefix, k) :: Common(prefix, k)
  }

  ghost function Pages(bucket: set<string>, prefix: string, mode: ListMode): seq<Page> {
    Cut(Listed(ObjectsOf(bucket, prefix, mode)), Listed(PrefixesOf(bucket, prefix, mode)))
  }

  ghost function ServerOf(bucket: set<string>): Server {
    (prefix, mode) => Pages(bucket, prefix, mode)
  }

  lemma ServerServes(bucket: set<string>)
    ensures Serves(bucket, ServerOf(bucket))
  {
    forall prefix, mode ensures Faithful(bucket, prefix, mode, ServerOf(bucket)(prefix, mode)) {
      assert ServerOf(bucket)(prefix, mode) == Pages(bucket, prefix, mode);
    }
  }

  // -------------------------------------------------------------------- the bucket

  function Letters(n: nat): (s: string)
    ensures |s| == n && forall i :: 0 <= i < n ==> s[i] == 'a'
  {
    if n == 0 then "" else Letters(n - 1) + "a"
  }

  // "/a", "/aa" and so on.
  function Key(n: nat): string {
    "/" + Letters(n)
  }

  function Keys(n: nat): (s: set<string>)
    ensures |s| == n && forall k :: k in s <==> exists i :: 0 < i <= n && k == Key(i)
  {
    if n == 0 then {}
    else
      assert |Key(n)| == n + 1 && forall i :: 0 < i < n ==> |Key(i)| == i + 1;
      Keys(n - 1) + {Key(n)}
  }

  const PATTERN := "[a]*"

  // Keys of letters, as the pattern denotes them.
  predicate StartsWithA(component: string, pattern: string) {
    |component| > 0 && component[0] == 'a'
  }

  ghost function Case(n: nat): Setup {
    Setup(StartsWithA, PATTERN, "", true, ServerOf(Keys(n)))
  }

  lemma KeySplits(n: nat)
    requires n > 0
    ensures Split(Key(n)) == [Letters(n)] && DirectoryOf(Key(n)) == "" && !EndsInSlash(Key(n))
  {
    var k, none: string := Key(n), "";
    LastIs(k, 1);
    assert k[..0] == none && k[1..] == Letters(n);
    assert Pieces(none) == [] && Pieces(k) == Pieces(none) + Piece(Letters(n));
    assert Split(k)[..0] == [];
  }

  lemma OnePiece(s: string)
    requires |s| > 0 && '/' !in s
    ensures Split(s) == [s]
  {
    assert Last(s) == 0;
  }

  lemma KeyWanted(n: nat)
    requires n > 0
    ensures Denotes(StartsWithA, Split(PATTERN), Split(Key(n)))
  {
    KeySplits(n);
    OnePiece(PATTERN);
    var ps, ks := [PATTERN], [Letters(n)];
    assert ps[1..] == [] && ks[1..] == [];
  }

  lemma {:induction false} FilesAll(objects: seq<string>)
    requires forall k :: k in objects ==> !EndsInSlash(k)
    ensures Files(objects) == objects
  {
    if |objects| > 0 {
      assert objects[0] in objects;
      forall k | k in objects[1..] ensures k in objects {}
      FilesAll(objects[1..]);
    }
  }

  // Keys of one directory, more than a hundred.
  lemma DenseKeys(keys: seq<string>)
    requires |keys| > 100 && forall k :: k in keys ==> DirectoryOf(k) == ""
    ensures Dense(keys)
  {
    var none: string := "";
    assert keys[0] in keys;
    assert Directories(keys) == {none};
  }

  lemma FirstPage(n: nat)
    requires n > 101
    ensures var c := Case(n);
      var pages := c.server(c.shared, Flat);
      && |pages| == 2 && Dense(Files(pages[0].objects))
  {
    var bucket := Keys(n);
    var c := Case(n);
    var pages := Pages(bucket, c.shared, Flat);
    assert c.server(c.shared, Flat) == pages;
    assert ObjectsOf(bucket, c.shared, Flat) == bucket;
    var first := pages[0].objects;
    forall k | k in first ensures !EndsInSlash(k) && DirectoryOf(k) == "" {
      PageWithin(pages, 0);
      var i :| 0 < i <= n && k == Key(i);
      KeySplits(i);
    }
    FilesAll(first);
    DenseKeys(first);
  }

  lemma {:induction false} SingleStar(pattern: string)
    requires forall i :: 0 <= i < |pattern| - 1 ==> pattern[i] != '*'
    ensures !ContainsDouble(pattern)
  {
    if |pattern| >= 2 {
      assert pattern[..2][0] == pattern[0];
      SingleStar(pattern[1..]);
    }
  }

  lemma DenseDecides(c: Setup)
    requires |c.server(c.shared, Flat)| == 2 && Dense(Files(c.server(c.shared, Flat)[0].objects))
    requires c.mayInvestigate && !ContainsDouble(c.pattern)
    ensures Choice(c, Begin) == Hierarchy
  {
  }

  lemma Investigated(n: nat)
    ensures Case(n).mayInvestigate && !ContainsDouble(Case(n).pattern)
  {
    var pattern := PATTERN;
    assert forall i :: 0 <= i < |pattern| - 1 ==> pattern[i] != '*';
    SingleStar(pattern);
  }

  lemma Served(n: nat)
    ensures World(Keys(n), Case(n))
  {
    ServerServes(Keys(n));
  }

  // The first page has all keys but one, of one directory.
  lemma GoesHierarchical(n: nat)
    requires n > 101
    ensures 0 < |Case(n).server(Case(n).shared, Flat)| && Choice(Case(n), Begin) == Hierarchy
  {
    FirstPage(n);
    Investigated(n);
    DenseDecides(Case(n));
  }

  lemma NotReached(n: nat, i: nat)
    requires 0 < i <= n
    ensures Target(Keys(n), Case(n), Key(i)) && !Reached(Case(n), Key(i))
  {
    KeyWanted(i);
    KeySplits(i);
    var k, root := Key(i), "/";
    assert k[..1] == root && root[0] == '/';
    OnePiece(PATTERN);
    SlashesOpen(Case(n), root);
    assert k[1 - 1] == '/' && !Open(Case(n), k[..1]);
  }

  // The walk, from its beginning to its end, finds none of the keys, all of which
  // the flat listing finds.
  lemma LeadingSlashMissed(n: nat, i: nat)
    requires n > 101 && 0 < i <= n
    ensures World(Keys(n), Case(n)) && Walks(Keys(n), Case(n), Begin)
    ensures Key(i) in FlatResult(Case(n)) && Key(i) !in End(Keys(n), Case(n), Begin).expanded
  {
    Served(n);
    GoesHierarchical(n);
    BeginWalks(Keys(n), Case(n));
    NotReached(n, i);
    var end := End(Keys(n), Case(n), Begin);
    WalkExactly(Keys(n), Case(n), end);
    TimesIn(end.expanded, Key(i));
    FlatTimes(Keys(n), Case(n), Key(i));
    TimesIn(FlatResult(Case(n)), Key(i));
  }
}
