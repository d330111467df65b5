// How a glob chooses between its two ways of listing, and what the choice rests on:
// the pattern, the setting, and the keys of the first page.
module GlobChoice {
  import opened GlobMatch
  import opened GlobListing
  import opened GlobWalk

  predicate DoubleAt(pattern: string, i: nat) {
    i + 1 < |pattern| && pattern[i] == '*' && pattern[i + 1] == '*'
  }

  lemma {:induction false} DoubleExactly(pattern: string)
    ensures ContainsDouble(pattern) <==> exists i: nat :: DoubleAt(pattern, i)
    decreases |pattern|
  {
    if |pattern| >= 2 {
      var rest := pattern[1..];
      DoubleExactly(rest);
      assert pattern[..2] == [pattern[0]] + [pattern[1]];
      assert pattern[..2] == "**" <==> DoubleAt(pattern, 0);
      forall i: nat ensures DoubleAt(rest, i) <==> DoubleAt(pattern, i + 1) {}
      if i: nat :| DoubleAt(pattern, i) && i > 0 { assert DoubleAt(rest, i - 1); }
    }
  }

  // The directory of a key is what stands before its last component.
  lemma DirectoryExactly(above: seq<string>, name: string)
    requires Plain(name) && forall i :: 0 <= i < |above| ==> Plain(above[i])
    ensures DirectoryOf(Joined(above) + name) == Joined(above)
  {
    PiecesJoined(above, name);
    PiecesPlain(name);
    assert (above + [name])[..|above|] == above;
  }

  // Up to a hundred keys are never dense, more than that in one directory always are.
  lemma DenseExactly(keys: seq<string>)
    ensures Dense(keys) <==> |keys| > 100 * |Directories(keys)|
    ensures Dense(keys) ==> |keys| > 100
    ensures |keys| == 101 && (forall i, j :: 0 <= i < j < |keys| ==> DirectoryOf(keys[i]) == DirectoryOf(keys[j])) ==>
      Dense(keys)
  {
    if |keys| > 0 {
      var first := DirectoryOf(keys[0]);
      assert keys[0] in keys && first in Directories(keys);
      if forall i, j :: 0 <= i < j < |keys| ==> DirectoryOf(keys[i]) == DirectoryOf(keys[j]) {
        forall k | k in keys ensures DirectoryOf(k) == first { var j :| 0 <= j < |keys| && keys[j] == k; }
        assert Directories(keys) == {first};
      } else {
        assert Directories(keys) - {first} < Directories(keys);
      }
    }
  }

  // One directory at a time is chosen exactly when the setting allows it, the pattern
  // has no `**`, the first page is not the only one, and its files are dense.
  lemma ChoosesExactly(c: Setup)
    requires 0 < |c.server(c.shared, Flat)|
    ensures var pages := c.server(c.shared, Flat);
      Choice(c, Begin) == Hierarchy <==>
        && c.mayInvestigate && !(exists i: nat :: DoubleAt(c.pattern, i))
        && |pages| > 1
        && |Files(pages[0].objects)| > 100 * |Directories(Files(pages[0].objects))|
  {
    DoubleExactly(c.pattern);
  }

  // And it is the choice for the whole walk.
  lemma ChosenOnce(bucket: set<string>, c: Setup, w: Walk)
    requires World(bucket, c) && Walks(bucket, c, w) && w != Begin
    ensures w.globType == Hierarchy <==> Choice(c, Begin) == Hierarchy
  {
    assert Decided(c, w);
  }
}
