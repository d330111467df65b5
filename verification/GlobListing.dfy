// The bucket that a glob walks over: keys, the directories above them, and what
// ListObjectsV2 answers for a prefix, cut into pages in any way.
module GlobListing {
  // Position of the first slash at or after `from`, or the end.
  function Slash(s: string, from: nat): (i: nat)
    requires from <= |s|
    ensures from <= i <= |s| && (i < |s| ==> s[i] == '/')
    ensures forall j :: from <= j < i ==> s[j] != '/'
    decreases |s| - from
  {
    if from == |s| || s[from] == '/' then from else Slash(s, from + 1)
  }

  // Position after the last slash, or the beginning.
  function Last(s: string): (i: nat)
    ensures i <= |s| && (i > 0 ==> s[i - 1] == '/')
    ensures forall j :: i <= j < |s| ==> s[j] != '/'
  {
    if |s| == 0 || s[|s| - 1] == '/' then |s| else Last(s[..|s| - 1])
  }

  function Piece(s: string): seq<string> {
    if |s| > 0 then [s] else []
  }

  // The non-empty pieces between slashes.
  function Pieces(s: string): seq<string> {
    var i := Last(s);
    if i == 0 then Piece(s) else Pieces(s[..i - 1]) + Piece(s[i..])
  }

  // StringUtil::Split on "/": without any piece, the string itself.
  function Split(s: string): (pieces: seq<string>)
    ensures |pieces| > 0
  {
    if |Pieces(s)| == 0 then [s] else Pieces(s)
  }

  lemma LastIs(s: string, i: nat)
    requires 0 < i <= |s| && s[i - 1] == '/' && forall j :: i <= j < |s| ==> s[j] != '/'
    ensures Last(s) == i
  {
  }

  lemma PiecesLeaf(q: string, r: string)
    requires |q| > 0 && q[|q| - 1] == '/' && Last(r) == 0
    ensures Pieces(q) <= Pieces(q + r)
  {
    var above := q[..|q| - 1];
    LastIs(q, |q|);
    LastIs(q + r, |q|);
    assert (q + r)[..|q| - 1] == above;
    assert Pieces(q) == Pieces(above) + Piece(q[|q|..]) && q[|q|..] == "";
    assert Pieces(q + r) == Pieces(above) + Piece((q + r)[|q|..]);
  }

  lemma LastFurther(q: string, r: string)
    requires Last(r) > 0
    ensures Last(q + r) == |q| + Last(r)
    ensures (q + r)[..|q| + Last(r) - 1] == q + r[..Last(r) - 1]
  {
    LastIs(q + r, |q| + Last(r));
  }

  lemma PiecesUp(s: string, upper: string)
    requires Last(s) > 0 && upper == s[..Last(s) - 1]
    ensures Pieces(upper) <= Pieces(s)
  {
  }

  lemma PiecesFurther(q: string, r: string)
    requires Last(r) > 0
    ensures Pieces(q + r[..Last(r) - 1]) <= Pieces(q + r)
  {
    LastFurther(q, r);
    PiecesUp(q + r, q + r[..Last(r) - 1]);
  }

  // The pieces of a directory come first among those of everything below it.
  lemma {:induction false} PiecesBelow(q: string, r: string)
    requires |q| > 0 && q[|q| - 1] == '/'
    ensures Pieces(q) <= Pieces(q + r)
    decreases |r|
  {
    if Last(r) == 0 {
      PiecesLeaf(q, r);
    } else {
      PiecesBelow(q, r[..Last(r) - 1]);
      PiecesFurther(q, r);
    }
  }

  lemma JoinUp(a: string, b: string)
    requires Last(b) > 0
    ensures var s, init := a + "/" + b, b[..Last(b) - 1];
      && Last(s) == |a| + 1 + Last(b)
      && s[..Last(s) - 1] == a + "/" + init && s[Last(s)..] == b[Last(b)..]
  {
    LastFurther(a + "/", b);
    assert (a + "/") + b[..Last(b) - 1] == a + "/" + b[..Last(b) - 1];
  }

  lemma JoinLeaf(a: string, b: string)
    requires Last(b) == 0
    ensures var s := a + "/" + b; Last(s) == |a| + 1 && s[..|a|] == a && s[|a| + 1..] == b
  {
    LastIs(a + "/" + b, |a| + 1);
  }

  lemma Regroup(a: seq<string>, b: seq<string>, c: seq<string>)
    ensures (a + b) + c == a + (b + c)
  {
  }

  // A slash anywhere separates pieces, none of which is lost.
  lemma {:induction false} PiecesJoin(a: string, b: string)
    ensures Pieces(a + "/" + b) == Pieces(a) + Pieces(b)
    decreases |b|
  {
    if Last(b) == 0 {
      JoinLeaf(a, b);
    } else {
      JoinUp(a, b);
      PiecesJoin(a, b[..Last(b) - 1]);
      Regroup(Pieces(a), Pieces(b[..Last(b) - 1]), Piece(b[Last(b)..]));
    }
  }

  // What has no slash is one piece, if it is not empty.
  lemma PiecesPlain(s: string)
    requires '/' !in s
    ensures Pieces(s) == (if s == "" then [] else [s]) && Split(s) == [s]
  {
    forall i | 0 <= i < |s| ensures s[i] != '/' { assert s[i] in s; }
  }

  predicate Plain(piece: string) {
    |piece| > 0 && '/' !in piece
  }

  // The directory that consists of the given components.
  function Joined(pieces: seq<string>): string {
    if |pieces| == 0 then "" else Joined(pieces[..|pieces| - 1]) + pieces[|pieces| - 1] + "/"
  }

  lemma JoinedBefore(u: string, v: string, rest: string)
    ensures u + v + "/" + rest == u + (v + "/" + rest)
  {
  }

  lemma FirstOf(init: seq<string>, last: string, b: seq<string>)
    ensures init + ([last] + b) == (init + [last]) + b
  {
  }

  // Components put together come apart again.
  lemma {:induction false} PiecesJoined(pieces: seq<string>, rest: string)
    requires forall i :: 0 <= i < |pieces| ==> Plain(pieces[i])
    ensures Pieces(Joined(pieces) + rest) == pieces + Pieces(rest)
    decreases |pieces|
  {
    if |pieces| == 0 {
      assert Joined(pieces) + rest == rest;
    } else {
      var init, last := pieces[..|pieces| - 1], pieces[|pieces| - 1];
      JoinedBefore(Joined(init), last, rest);
      PiecesJoined(init, last + "/" + rest);
      PiecesJoin(last, rest);
      PiecesPlain(last);
      FirstOf(init, last, Pieces(rest));
      assert init + [last] == pieces;
    }
  }

  lemma {:induction false} PiecesSome(s: string)
    requires |s| > 0 && s[0] != '/'
    ensures |Pieces(s)| > 0
    decreases |s|
  {
    if Last(s) > 0 {
      PiecesSome(s[..Last(s) - 1]);
    }
  }

  datatype ListMode = Flat | Hierarchical

  datatype Page = Page(objects: seq<string>, prefixes: seq<string>)

  // The pages of the listing of each prefix, in each mode.
  type Server = (string, ListMode) -> seq<Page>

  function Objects(pages: seq<Page>): seq<string> {
    if |pages| == 0 then [] else pages[0].objects + Objects(pages[1..])
  }

  function Prefixes(pages: seq<Page>): seq<string> {
    if |pages| == 0 then [] else pages[0].prefixes + Prefixes(pages[1..])
  }

  // No slash after the prefix: listed as an object even with a delimiter.
  predicate Direct(prefix: string, key: string)
    requires prefix <= key
  {
    Slash(key, |prefix|) == |key|
  }

  // The common prefix that stands for a key further down.
  function Common(prefix: string, key: string): (q: string)
    requires prefix <= key && !Direct(prefix, key)
    ensures prefix < q <= key && q[|q| - 1] == '/'
  {
    key[..Slash(key, |prefix|) + 1]
  }

  ghost predicate Distinct(s: seq<string>) {
    forall i, j :: 0 <= i < j < |s| ==> s[i] != s[j]
  }

  ghost predicate Rolled(bucket: set<string>, prefix: string, q: string) {
    exists k :: k in bucket && prefix <= k && !Direct(prefix, k) && q == Common(prefix, k)
  }

  // A complete listing of `prefix`: nothing twice, nothing else.
  ghost predicate Faithful(bucket: set<string>, prefix: string, mode: ListMode, pages: seq<Page>) {
    && |pages| > 0
    && Distinct(Objects(pages)) && Distinct(Prefixes(pages))
    && (forall k :: k in Objects(pages) <==> k in bucket && prefix <= k && (mode.Flat? || Direct(prefix, k)))
    && (forall q :: q in Prefixes(pages) <==> mode.Hierarchical? && Rolled(bucket, prefix, q))
  }

  ghost predicate Serves(bucket: set<string>, server: Server) {
    forall prefix, mode :: Faithful(bucket, prefix, mode, server(prefix, mode))
  }

  // ------------------------------------------------------------------- counting

  function Times(s: seq<string>, k: string): nat {
    if |s| == 0 then 0 else (if s[0] == k then 1 else 0) + Times(s[1..], k)
  }

  // How many entries of a list of directories lie above `k`.
  function Above(qs: seq<string>, k: string): nat {
    if |qs| == 0 then 0 else (if qs[0] <= k then 1 else 0) + Above(qs[1..], k)
  }

  lemma {:induction false} TimesAppend(a: seq<string>, b: seq<string>, k: string)
    ensures Times(a + b, k) == Times(a, k) + Times(b, k)
  {
    if |a| == 0 {
      assert a + b == b;
    } else {
      TimesAppend(a[1..], b, k);
      assert (a + b)[1..] == a[1..] + b;
    }
  }

  lemma {:induction false} AboveAppend(a: seq<string>, b: seq<string>, k: string)
    ensures Above(a + b, k) == Above(a, k) + Above(b, k)
  {
    if |a| == 0 {
      assert a + b == b;
    } else {
      AboveAppend(a[1..], b, k);
      assert (a + b)[1..] == a[1..] + b;
    }
  }

  lemma {:induction false} TimesDistinct(s: seq<string>, k: string)
    requires Distinct(s)
    ensures Times(s, k) == if k in s then 1 else 0
  {
    if |s| > 0 {
      TimesDistinct(s[1..], k);
      assert k in s <==> k == s[0] || k in s[1..];
    }
  }

  lemma {:induction false} TimesMultiset(s: seq<string>, k: string)
    ensures Times(s, k) == multiset(s)[k]
  {
    if |s| > 0 {
      TimesMultiset(s[1..], k);
      assert s == [s[0]] + s[1..];
    }
  }

  lemma {:induction false} AboveNone(qs: seq<string>, k: string)
    requires forall q :: q in qs ==> !(q <= k)
    ensures Above(qs, k) == 0
  {
    if |qs| > 0 {
      assert qs[0] in qs;
      forall q | q in qs[1..] ensures !(q <= k) { assert q in qs; }
      AboveNone(qs[1..], k);
    }
  }

  lemma {:induction false} AboveOnce(qs: seq<string>, k: string, q: string)
    requires Distinct(qs) && q in qs && q <= k
    requires forall r :: r in qs && r <= k ==> r == q
    ensures Above(qs, k) == 1
  {
    var rest := qs[1..];
    assert qs[0] in qs;
    if qs[0] == q {
      forall r | r in rest ensures !(r <= k) { assert r in qs; }
      AboveNone(rest, k);
    } else {
      assert q in rest;
      forall r | r in rest && r <= k ensures r == q { assert r in qs; }
      AboveOnce(rest, k, q);
    }
  }

  // How often the pages account for `k`: as an object, or below a directory.
  function Seen(pages: seq<Page>, k: string): nat {
    Times(Objects(pages), k) + Above(Prefixes(pages), k)
  }

  lemma SeenNext(pages: seq<Page>, i: nat, k: string)
    requires i < |pages|
    ensures Seen(pages[i..], k)
         == Times(pages[i].objects, k) + Above(pages[i].prefixes, k) + Seen(pages[i + 1..], k)
  {
    assert pages[i..][0] == pages[i] && pages[i..][1..] == pages[i + 1..];
    TimesAppend(pages[i].objects, Objects(pages[i + 1..]), k);
    AboveAppend(pages[i].prefixes, Prefixes(pages[i + 1..]), k);
  }

  // A directory of the listing that lies above `k` is the one that stands for it.
  lemma CommonUnique(bucket: set<string>, prefix: string, k: string, q: string)
    requires prefix <= k && Rolled(bucket, prefix, q) && q <= k
    ensures !Direct(prefix, k) && q == Common(prefix, k)
  {
    var other :| other in bucket && prefix <= other && !Direct(prefix, other) && q == Common(prefix, other);
    var i := |q| - 1;
    assert i == Slash(other, |prefix|) && k[i] == q[i] == '/';
    forall j | |prefix| <= j < i ensures k[j] != '/' {
      assert k[j] == q[j] == other[j];
    }
    var s := Slash(k, |prefix|);
    assert s == i;
  }

  // Every key under a prefix is accounted for exactly once, in either mode.
  lemma ListedOnce(bucket: set<string>, prefix: string, mode: ListMode, pages: seq<Page>, k: string)
    requires Faithful(bucket, prefix, mode, pages) && k in bucket && prefix <= k
    ensures Seen(pages, k) == 1
  {
    TimesDistinct(Objects(pages), k);
    forall q | q in Prefixes(pages) && q <= k ensures !Direct(prefix, k) && q == Common(prefix, k) {
      CommonUnique(bucket, prefix, k, q);
    }
    if mode.Flat? || Direct(prefix, k) {
      AboveNone(Prefixes(pages), k);
    } else {
      assert Rolled(bucket, prefix, Common(prefix, k));
      AboveOnce(Prefixes(pages), k, Common(prefix, k));
    }
  }

  // Keys elsewhere are not accounted for at all.
  lemma NotListed(bucket: set<string>, prefix: string, mode: ListMode, pages: seq<Page>, k: string)
    requires Faithful(bucket, prefix, mode, pages) && !(prefix <= k)
    ensures Seen(pages, k) == 0
  {
    TimesDistinct(Objects(pages), k);
    forall q | q in Prefixes(pages) ensures !(q <= k) {
      assert Rolled(bucket, prefix, q);
    }
    AboveNone(Prefixes(pages), k);
  }

  lemma {:induction false} PageWithin(pages: seq<Page>, i: nat)
    requires i < |pages|
    ensures forall k :: k in pages[i].objects ==> k in Objects(pages)
    ensures forall q :: q in pages[i].prefixes ==> q in Prefixes(pages)
  {
    if i > 0 {
      PageWithin(pages[1..], i - 1);
      assert pages[1..][i - 1] == pages[i];
    }
  }
}
