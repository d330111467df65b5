// S3GlobResult itself: the fields that ExpandNextPath updates, and its methods,
// each proved to take the step that GlobWalk describes.
module GlobResult {
  import opened GlobMatch
  import opened GlobListing
  import W = GlobWalk
  import T = GlobTermination

  function FirstWildcard(pattern: string): (n: nat)
    ensures n <= |pattern|
    ensures forall i :: 0 <= i < n ==> pattern[i] !in "*[\\"
    ensures n < |pattern| ==> pattern[n] in "*[\\"
  {
    if |pattern| == 0 || pattern[0] in "*[\\" then 0 else 1 + FirstWildcard(pattern[1..])
  }

  // AppendFileList.
  method AppendFileList(objects: seq<string>) returns (keys: seq<string>)
    ensures keys == W.Files(objects)
  {
    keys := [];
    for i := 0 to |objects|
      invariant keys + W.Files(objects[i..]) == W.Files(objects)
    {
      assert objects[i..][1..] == objects[i + 1..];
      if |objects[i]| > 0 && objects[i][|objects[i]| - 1] == '/' {
        continue;
      }
      keys := keys + [objects[i]];
    }
  }

  // ContainsDenseDirectories: more than a hundred keys to a directory.
  method ContainsDenseDirectories(keys: seq<string>) returns (dense: bool)
    ensures dense == W.Dense(keys)
  {
    var directories: set<string> := {};
    for i := 0 to |keys|
      invariant directories == W.Directories(keys[..i])
    {
      var pieces := Split(keys[i]);
      pieces := pieces[..|pieces| - 1];
      var directory := "";
      for j := 0 to |pieces|
        invariant directory == Joined(pieces[..j])
      {
        assert pieces[..j + 1][..j] == pieces[..j];
        directory := directory + pieces[j] + "/";
      }
      assert pieces[..|pieces|] == pieces && keys[..i + 1] == keys[..i] + [keys[i]];
      W.DirectoriesNext(keys[..i], keys[i]);
      directories := directories + {directory};
    }
    assert keys[..|keys|] == keys;
    return |directories| * 100 < |keys|;
  }

  class S3GlobResult {
    const glob: Globber
    const pattern: string
    const shared: string
    const mayInvestigate: bool
    const server: Server
    const walking: bool
    ghost const bucket: set<string>

    var finished: bool
    var mainToken: nat
    var currentPrefix: string
    var currentToken: nat
    var commonPrefixes: seq<string>
    var globType: W.GlobType
    var expanded: seq<string>

    function Setup(): W.Setup {
      W.Setup(glob, pattern, shared, mayInvestigate, server)
    }

    function View(): W.Walk
      reads this
    {
      W.Walk(globType, mainToken, currentPrefix, currentToken, commonPrefixes, finished, expanded)
    }

    ghost predicate Valid()
      reads this
    {
      if walking then W.World(bucket, Setup()) && W.Walks(bucket, Setup(), View())
      else finished && expanded == [pattern]
    }

    // A pattern without wildcards, or any in URL compatibility mode, is a key.
    constructor (glob: Globber, pattern: string, compatibility: bool, mayInvestigate: bool, server: Server,
                 ghost bucket: set<string>)
      requires Serves(bucket, server)
      ensures Valid() && this.bucket == bucket
      ensures walking <==> !compatibility && FirstWildcard(pattern) < |pattern|
      ensures Setup() == W.Setup(glob, pattern, pattern[..FirstWildcard(pattern)], mayInvestigate, server)
    {
      this.glob, this.pattern, this.mayInvestigate, this.server := glob, pattern, mayInvestigate, server;
      this.bucket := bucket;
      var first := FirstWildcard(pattern);
      shared := pattern[..first];
      walking := !compatibility && first < |pattern|;
      mainToken, currentPrefix, currentToken, commonPrefixes, globType := 0, "", 0, [], W.Unknown;
      if compatibility || first == |pattern| {
        expanded, finished := [pattern], true;
      } else {
        expanded, finished := [], false;
      }
      new;
      if walking {
        W.BeginWalks(bucket, Setup());
      }
    }

    method SelectNextCommonPrefix()
      modifies this`currentPrefix, this`commonPrefixes
      ensures View() == W.SelectNext(old(View()))
    {
      if |commonPrefixes| == 0 {
        currentPrefix := "";
        return;
      }
      currentPrefix := commonPrefixes[|commonPrefixes| - 1];
      commonPrefixes := commonPrefixes[..|commonPrefixes| - 1];
    }

    method ScanCurrentCommonPrefix() returns (keys: seq<string>)
      requires W.InPages(Setup(), View())
      modifies this
      ensures W.Scan(View(), keys) == W.ScanCurrent(Setup(), old(View()))
    {
      keys := [];
      var matched := Match(glob, Split(currentPrefix), 0, Split(pattern), 0, Prefix);
      assert Split(currentPrefix)[0..] == Split(currentPrefix) && Split(pattern)[0..] == Split(pattern);
      if matched {
        var pages := server(currentPrefix, Hierarchical);
        var page := pages[currentToken];
        keys := AppendFileList(page.objects);
        commonPrefixes := commonPrefixes + page.prefixes;
        currentToken := W.NextToken(pages, currentToken);
      }
      if currentToken == 0 {
        SelectNextCommonPrefix();
      }
    }

    predicate ShouldInvestigateRecursiveGlob()
      reads this
    {
      globType == W.Unknown && !W.ContainsDouble(pattern) && mayInvestigate
    }

    method SelectGlobType(page: Page, token: nat) returns (page': Page, token': nat)
      requires W.InPages(Setup(), View()) && W.Investigates(Setup(), globType)
      modifies this`globType
      ensures globType == if W.Dense(W.Files(page.objects)) then W.Hierarchy else W.Listing
      ensures globType == W.Listing ==> page' == page && token' == token
      ensures globType == W.Hierarchy ==>
        var pages := server(shared, Hierarchical); page' == pages[mainToken] && token' == W.NextToken(pages, mainToken)
    {
      var keys := AppendFileList(page.objects);
      var dense := ContainsDenseDirectories(keys);
      if !dense {
        globType := W.Listing;
        return page, token;
      }
      var pages := server(shared, Hierarchical);
      page', token' := pages[mainToken], W.NextToken(pages, mainToken);
      globType := W.Hierarchy;
    }

    // `internalError` for the exception that the caller never gets.
    method ScanTopLevel() returns (keys: seq<string>, internalError: bool)
      requires W.InPages(Setup(), View())
      modifies this
      ensures internalError <==> |old(commonPrefixes)| > 0
      ensures !internalError ==> W.Scan(View(), keys) == W.ScanTop(Setup(), old(View()))
      ensures internalError ==> View() == old(View())
    {
      if |commonPrefixes| > 0 {
        return [], true;
      }
      var pages := server(shared, W.TopMode(globType));
      var page, token := pages[mainToken], W.NextToken(pages, mainToken);
      if ShouldInvestigateRecursiveGlob() && token != 0 {
        page, token := SelectGlobType(page, token);
      }
      mainToken := token;
      keys := AppendFileList(page.objects);
      commonPrefixes := page.prefixes;
      SelectNextCommonPrefix();
      internalError := false;
    }

    method AppendMatchingFiles(keys: seq<string>)
      modifies this`expanded
      ensures expanded == old(expanded) + W.Matching(Setup(), keys)
    {
      var patternSplits := Split(pattern);
      for i := 0 to |keys|
        invariant expanded == old(expanded) + W.Matching(Setup(), keys[..i])
      {
        var keySplits := Split(keys[i]);
        var matched := Match(glob, keySplits, 0, patternSplits, 0, Complete);
        assert keySplits[0..] == keySplits && patternSplits[0..] == patternSplits;
        W.MatchingNext(Setup(), keys[..i], keys[i]);
        assert keys[..i + 1] == keys[..i] + [keys[i]];
        if matched {
          expanded := expanded + [keys[i]];
        }
      }
      assert keys[..|keys|] == keys;
    }

    method ExpandNextPath() returns (more: bool)
      requires Valid()
      modifies this
      ensures Valid() && more == !old(finished)
      ensures !more ==> View() == old(View())
      ensures more ==> View() == W.Expand(Setup(), old(View()))
    {
      if finished {
        return false;
      }
      ghost var before := View();
      W.ExpandWalks(bucket, Setup(), before);
      var keys;
      if |currentPrefix| > 0 {
        keys := ScanCurrentCommonPrefix();
      } else {
        var internalError;
        keys, internalError := ScanTopLevel();
        assert !internalError;
      }
      if mainToken == 0 && |currentPrefix| == 0 {
        finished := true;
      }
      AppendMatchingFiles(keys);
      return true;
    }

    // What the lazy list does with it: expanding to the end.
    method ExpandAll()
      requires Valid()
      modifies this
      ensures Valid() && finished
      ensures walking ==> 0 < |server(shared, Flat)|
      ensures walking ==> forall k :: Times(expanded, k) == if W.Found(bucket, Setup(), k) then 1 else 0
      ensures !walking ==> expanded == [pattern]
    {
      while !finished
        invariant Valid()
        decreases if walking then T.Pending(Setup(), T.Longest(bucket), View()) else 0
      {
        T.ExpandShrinks(bucket, Setup(), View());
        var more := ExpandNextPath();
      }
      if walking {
        W.WalkExactly(bucket, Setup(), View());
      }
    }
  }
}
