// Matching the components of a key against the components of a glob pattern. How
// one component is matched is left open: `glob(component, pattern)`.
module GlobMatch {
  datatype Mode = Prefix | Complete

  type Globber = (string, string) -> bool

  // The language of a pattern. `**` stands for any number of components, at the
  // end of a pattern for at least one.
  ghost predicate Denotes(glob: Globber, pattern: seq<string>, key: seq<string>)
    decreases |pattern|
  {
    if |pattern| == 0 then |key| == 0
    else if pattern[0] != "**" then
      |key| > 0 && glob(key[0], pattern[0]) && Denotes(glob, pattern[1..], key[1..])
    else if |pattern| == 1 then |key| > 0
    else exists n :: 0 <= n <= |key| && Denotes(glob, pattern[1..], key[n..])
  }

  // Position of the first `**`.
  function Recursive(pattern: seq<string>): (n: nat)
    ensures n <= |pattern| && (n < |pattern| ==> pattern[n] == "**")
    ensures forall i :: 0 <= i < n ==> pattern[i] != "**"
  {
    if |pattern| == 0 || pattern[0] == "**" then 0 else 1 + Recursive(pattern[1..])
  }

  // What prefix mode accepts: nothing up to the first `**` speaks against it.
  ghost predicate Viable(glob: Globber, pattern: seq<string>, key: seq<string>) {
    && (forall i :: 0 <= i < |key| && i < Recursive(pattern) ==> glob(key[i], pattern[i]))
    && (Recursive(pattern) == |pattern| ==> |key| <= |pattern|)
  }

  ghost predicate Matches(glob: Globber, pattern: seq<string>, key: seq<string>, mode: Mode) {
    if mode.Complete? then Denotes(glob, pattern, key) else Viable(glob, pattern, key)
  }

  lemma EmptyKeyDenotes(glob: Globber, pattern: seq<string>)
    requires |pattern| > 0
    ensures !Denotes(glob, pattern, [])
    decreases |pattern|
  {
    if pattern[0] == "**" && |pattern| > 1 {
      var none: seq<string> := [];
      forall n | 0 <= n <= |none| ensures !Denotes(glob, pattern[1..], none[n..]) {
        assert none[n..] == none;
        EmptyKeyDenotes(glob, pattern[1..]);
      }
    }
  }

  // One component that is not `**`.
  lemma MatchesOne(glob: Globber, pattern: seq<string>, key: seq<string>, mode: Mode)
    requires |pattern| > 0 && |key| > 0 && pattern[0] != "**"
    ensures Matches(glob, pattern, key, mode) <==>
      glob(key[0], pattern[0]) && Matches(glob, pattern[1..], key[1..], mode)
  {
    if mode.Prefix? {
      var p, k := pattern[1..], key[1..];
      assert Recursive(pattern) == 1 + Recursive(p);
      if glob(key[0], pattern[0]) && Viable(glob, p, k) {
        forall i | 0 <= i < |key| && i < Recursive(pattern) ensures glob(key[i], pattern[i]) {
          if i > 0 { assert glob(k[i - 1], p[i - 1]); }
        }
      }
      if Viable(glob, pattern, key) {
        assert glob(key[0], pattern[0]);
        forall i | 0 <= i < |k| && i < Recursive(p) ensures glob(k[i], p[i]) {
          assert glob(key[i + 1], pattern[i + 1]);
        }
      }
    }
  }

  lemma MatchesNext(glob: Globber, pattern: seq<string>, p: nat, key: seq<string>, k: nat, mode: Mode)
    requires p < |pattern| && k < |key| && pattern[p] != "**"
    ensures Matches(glob, pattern[p..], key[k..], mode) <==>
      glob(key[k], pattern[p]) && Matches(glob, pattern[p + 1..], key[k + 1..], mode)
  {
    MatchesOne(glob, pattern[p..], key[k..], mode);
    assert pattern[p..][1..] == pattern[p + 1..] && key[k..][1..] == key[k + 1..];
  }

  // One of the two has run out.
  lemma MatchesEnd(glob: Globber, pattern: seq<string>, key: seq<string>, mode: Mode)
    requires |pattern| == 0 || |key| == 0
    ensures Matches(glob, pattern, key, mode) <==> if |pattern| > 0 then mode.Prefix? else |key| == 0
  {
    if |pattern| > 0 {
      EmptyKeyDenotes(glob, pattern);
      assert key == [];
    }
  }

  lemma MatchesLast(glob: Globber, pattern: seq<string>, key: seq<string>, mode: Mode)
    requires pattern == ["**"] && |key| > 0
    ensures Matches(glob, pattern, key, mode)
  {
  }

  // The loop of Match up to a `**`, the end of either side or a component that does
  // not match.
  method MatchLiterals(glob: Globber, key: seq<string>, keyFrom: nat, pattern: seq<string>, patternFrom: nat,
                       mode: Mode)
      returns (ok: bool, k: nat, p: nat)
    requires keyFrom <= |key| && patternFrom <= |pattern|
    ensures keyFrom <= k <= |key| && patternFrom <= p <= |pattern|
    ensures ok ==> k == |key| || p == |pattern| || pattern[p] == "**"
    ensures Matches(glob, pattern[patternFrom..], key[keyFrom..], mode) <==>
      ok && Matches(glob, pattern[p..], key[k..], mode)
  {
    ok, k, p := true, keyFrom, patternFrom;
    while k < |key| && p < |pattern| && pattern[p] != "**"
      invariant keyFrom <= k <= |key| && patternFrom <= p <= |pattern|
      invariant Matches(glob, pattern[patternFrom..], key[keyFrom..], mode)
           <==> Matches(glob, pattern[p..], key[k..], mode)
    {
      MatchesNext(glob, pattern, p, key, k, mode);
      if !glob(key[k], pattern[p]) {
        return false, k, p;
      }
      k, p := k + 1, p + 1;
    }
  }

  method Match(glob: Globber, key: seq<string>, keyFrom: nat, pattern: seq<string>, patternFrom: nat, mode: Mode)
      returns (r: bool)
    requires keyFrom <= |key| && patternFrom <= |pattern|
    ensures r <==> Matches(glob, pattern[patternFrom..], key[keyFrom..], mode)
    decreases |pattern| - patternFrom, 1
  {
    if keyFrom == |key| && mode.Prefix? {
      return true;
    }
    var ok, k, p := MatchLiterals(glob, key, keyFrom, pattern, patternFrom, mode);
    if !ok {
      return false;
    }
    if k < |key| && p < |pattern| {
      if p + 1 == |pattern| {
        MatchesLast(glob, pattern[p..], key[k..], mode);
        return true;
      }
      r := MatchRecursive(glob, key, k, pattern, p, mode);
      return;
    }
    MatchesEnd(glob, pattern[p..], key[k..], mode);
    return (p < |pattern| && mode.Prefix?) || (k == |key| && p == |pattern|);
  }

  // The inner loop of Match, on the components that follow the `**` at `p`.
  method MatchRecursive(glob: Globber, key: seq<string>, keyFrom: nat, pattern: seq<string>, p: nat, mode: Mode)
      returns (r: bool)
    requires keyFrom < |key| && p + 1 < |pattern| && pattern[p] == "**"
    ensures r <==> Matches(glob, pattern[p..], key[keyFrom..], mode)
    decreases |pattern| - p, 0
  {
    var k := keyFrom;
    while k < |key|
      invariant keyFrom <= k <= |key|
      invariant mode.Complete? ==> forall n :: keyFrom <= n < k ==> !Denotes(glob, pattern[p + 1..], key[n..])
    {
      var matched := Match(glob, key, k, pattern, p + 1, mode);
      if matched {
        RecursiveMatches(glob, pattern, p, key, keyFrom, k, mode);
        return true;
      }
      k := k + 1;
    }
    if mode.Prefix? {
      RecursiveMatches(glob, pattern, p, key, keyFrom, keyFrom, mode);
      return true;
    }
    RecursiveFails(glob, pattern, p, key, keyFrom);
    return false;
  }

  lemma RecursiveMatches(glob: Globber, pattern: seq<string>, p: nat, key: seq<string>, from: nat, k: nat, mode: Mode)
    requires p + 1 < |pattern| && pattern[p] == "**" && from <= k <= |key|
    requires mode.Complete? ==> Denotes(glob, pattern[p + 1..], key[k..])
    ensures Matches(glob, pattern[p..], key[from..], mode)
  {
    assert pattern[p..][1..] == pattern[p + 1..] && key[from..][k - from..] == key[k..];
  }

  lemma RecursiveFails(glob: Globber, pattern: seq<string>, p: nat, key: seq<string>, from: nat)
    requires p + 1 < |pattern| && pattern[p] == "**" && from <= |key|
    requires forall n :: from <= n < |key| ==> !Denotes(glob, pattern[p + 1..], key[n..])
    ensures !Denotes(glob, pattern[p..], key[from..])
  {
    assert pattern[p..][1..] == pattern[p + 1..];
    forall n | 0 <= n <= |key[from..]| ensures !Denotes(glob, pattern[p + 1..], key[from..][n..]) {
      assert key[from..][n..] == key[from + n..];
      if from + n == |key| { EmptyKeyDenotes(glob, pattern[p + 1..]); }
    }
  }

  // ------------------------------------------------------------------- theorems

  // Pruning is sound: a key that the pattern denotes is viable at each of its
  // component prefixes.
  lemma {:induction false} PruningSound(glob: Globber, pattern: seq<string>, key: seq<string>, n: nat)
    requires n <= |key| && Denotes(glob, pattern, key)
    ensures Viable(glob, pattern, key[..n])
  {
    if |pattern| > 0 && pattern[0] != "**" && n > 0 {
      PruningSound(glob, pattern[1..], key[1..], n - 1);
      assert key[..n][1..] == key[1..][..n - 1];
      MatchesOne(glob, pattern, key[..n], Prefix);
    }
  }

  ghost predicate Satisfiable(glob: Globber, pattern: seq<string>) {
    forall i :: 0 <= i < |pattern| && pattern[i] != "**" ==> Satisfied(glob, pattern[i])
  }

  ghost predicate Satisfied(glob: Globber, p: string) {
    exists c: string :: glob(c, p)
  }

  // A key for a satisfiable pattern.
  lemma {:induction false} Witness(glob: Globber, pattern: seq<string>) returns (key: seq<string>)
    requires Satisfiable(glob, pattern)
    ensures Denotes(glob, pattern, key)
  {
    if |pattern| == 0 {
      return [];
    }
    var rest := Witness(glob, pattern[1..]);
    if pattern[0] != "**" {
      assert Satisfied(glob, pattern[0]);
      var c: string :| glob(c, pattern[0]);
      key := [c] + rest;
      assert key[1..] == rest;
    } else {
      key := if |pattern| == 1 then [""] else rest;
      assert key[0..] == key;
    }
  }

  // Pruning is exact: unless some component of the pattern matches nothing at
  // all, every viable prefix extends to a key that the pattern denotes.
  lemma {:induction false} PruningExact(glob: Globber, pattern: seq<string>, key: seq<string>)
      returns (more: seq<string>)
    requires Satisfiable(glob, pattern) && Viable(glob, pattern, key)
    ensures Denotes(glob, pattern, key + more)
  {
    if |key| == 0 {
      more := Witness(glob, pattern);
      assert key + more == more;
    } else if pattern[0] != "**" {
      MatchesOne(glob, pattern, key, Prefix);
      more := PruningExact(glob, pattern[1..], key[1..]);
      assert (key + more)[1..] == key[1..] + more;
    } else if |pattern| == 1 {
      more := [];
    } else {
      more := Witness(glob, pattern[1..]);
      assert (key + more)[|key|..] == more;
    }
  }

  lemma ViableExactly(glob: Globber, pattern: seq<string>, key: seq<string>)
    requires Satisfiable(glob, pattern)
    ensures Viable(glob, pattern, key) <==> exists more: seq<string> :: Denotes(glob, pattern, key + more)
  {
    if Viable(glob, pattern, key) {
      var more := PruningExact(glob, pattern, key);
    }
    if more: seq<string> :| Denotes(glob, pattern, key + more) {
      PruningSound(glob, pattern, key + more, |key|);
      assert (key + more)[..|key|] == key;
    }
  }
}
