// `<n/>` and `<n></n>` are two spellings of the same element: writing out every
// empty-element tag as a pair changes the tree of no document.
module XmlEmptyTags {
  import opened Common
  import opened XmlSyntax
  import opened XmlDocument
  import opened XmlNamespaces
  import opened XmlRoundTrip
  import opened XmlGrammar
  import opened XmlLexing
  import opened XmlExact

  // ------------------------------------------------------------ empty-element tags

  // Every `<n/>` spelled out as `<n></n>`.
  function Spread(x: Concrete): Concrete
    decreases x
  {
    match x
    case Empty(start) => Filled(start, Final([]), "")
    case Filled(start, items, space) => Filled(start, SpreadItems(items), space)
  }

  function SpreadItems(items: Items): Items
    decreases items
  {
    match items
    case Final(_) => items
    case Before(chars, particle, rest) =>
      Before(chars, if particle.Nested? then Nested(Spread(particle.element)) else particle, SpreadItems(rest))
  }

  lemma {:induction false} SpreadIs(x: Concrete, depth: nat)
    requires IsConcrete(x, depth)
    ensures IsConcrete(Spread(x), depth)
    decreases x
  {
    if x.Filled? { SpreadAre(x.items, depth + 1); }
  }

  lemma {:induction false} SpreadAre(items: Items, depth: nat)
    requires AreItems(items, depth)
    ensures AreItems(SpreadItems(items), depth)
    decreases items
  {
    if items.Before? {
      if items.particle.Nested? { SpreadIs(items.particle.element, depth); }
      SpreadAre(items.rest, depth);
    }
  }

  ghost predicate SameNames(x: Written, y: Written) {
    forall bindings: seq<Binding> :: Named(bindings, x) == Named(bindings, y)
  }

  ghost predicate AllSame(xs: seq<Written>, ys: seq<Written>) {
    |xs| == |ys| && forall i :: 0 <= i < |xs| ==> SameNames(xs[i], ys[i])
  }

  lemma {:induction false} SameChildren(bindings: seq<Binding>, xs: seq<Written>, ys: seq<Written>)
    requires AllSame(xs, ys)
    ensures NamedAll(bindings, xs) == NamedAll(bindings, ys)
    decreases |xs|
  {
    if |xs| > 0 {
      var n := |xs| - 1;
      assert SameNames(xs[n], ys[n]);
      forall i | 0 <= i < n ensures SameNames(xs[..n][i], ys[..n][i]) { assert SameNames(xs[i], ys[i]); }
      SameChildren(bindings, xs[..n], ys[..n]);
    }
  }

  lemma SameElements(start: Start, self: bool, self': bool, text: string, xs: seq<Written>, ys: seq<Written>)
    requires AllSame(xs, ys)
    ensures SameNames(Written(TagOf(start, self), text, xs), Written(TagOf(start, self'), text, ys))
  {
    forall bindings: seq<Binding>
      ensures Named(bindings, Written(TagOf(start, self), text, xs))
           == Named(bindings, Written(TagOf(start, self'), text, ys))
    {
      var scope := Open(bindings, TagOf(start, self));
      assert Open(bindings, TagOf(start, self')) == scope;
      if scope.Some? { SameChildren(scope.value.bindings, xs, ys); }
    }
  }

  lemma {:induction false} SpreadSame(x: Concrete)
    ensures SameNames(Meaning(Spread(x)), Meaning(x))
    decreases x
  {
    match x
    case Empty(start) => SameElements(start, false, true, "", [], []);
    case Filled(start, items, _) =>
      SpreadItemsSame(items);
      SameElements(start, false, false, TextIn(items), ChildrenIn(SpreadItems(items)), ChildrenIn(items));
  }

  lemma {:induction false} SpreadItemsSame(items: Items)
    ensures TextIn(SpreadItems(items)) == TextIn(items)
    ensures AllSame(ChildrenIn(SpreadItems(items)), ChildrenIn(items))
    decreases items
  {
    if items.Before? {
      SpreadItemsSame(items.rest);
      if items.particle.Nested? { SpreadSame(items.particle.element); }
    }
  }

  lemma QNameLegal(n: QName, b: string)
    requires IsQName(n)
    ensures XmlCharacters(QNameThen(n, b)) <==> XmlCharacters(b)
  {
    LegalAppend(n.local, b);
    LegalAppend(n.prefix, ":" + (n.local + b));
    LegalAppend(":", n.local + b);
  }

  ghost predicate Alike(s: string, t: string) {
    XmlCharacters(s) <==> XmlCharacters(t)
  }

  lemma {:induction false} PiecesAlike(ps: seq<Piece>, b: string, b': string)
    requires Alike(b, b')
    ensures Alike(PiecesThen(ps, b), PiecesThen(ps, b'))
    decreases |ps|
  {
    PiecesSplit(ps, b);
    PiecesSplit(ps, b');
    LegalAppend(PiecesThen(ps, ""), b);
    LegalAppend(PiecesThen(ps, ""), b');
  }

  lemma AssignedAlike(a: Assigned, b: string, b': string)
    requires IsAssigned(a) && Alike(b, b')
    ensures Alike(AssignedThen(a, b), AssignedThen(a, b'))
  {
    LegalAppend([a.quote], b);
    LegalAppend([a.quote], b');
    PiecesAlike(a.value, [a.quote] + b, [a.quote] + b');
    QuotedAlike(a, PiecesThen(a.value, [a.quote] + b), PiecesThen(a.value, [a.quote] + b'));
  }

  lemma QuotedAlike(a: Assigned, v: string, v': string)
    requires IsAssigned(a) && Alike(v, v')
    ensures Alike(a.before + QNameThen(a.name, a.left + ("=" + (a.right + ([a.quote] + v)))),
                  a.before + QNameThen(a.name, a.left + ("=" + (a.right + ([a.quote] + v')))))
  {
    forall u | u == v || u == v'
      ensures XmlCharacters(a.before + QNameThen(a.name, a.left + ("=" + (a.right + ([a.quote] + u))))) <==>
        XmlCharacters(u)
    {
      QuotedLegal(a, u);
    }
  }

  lemma QuotedLegal(a: Assigned, u: string)
    requires IsAssigned(a)
    ensures XmlCharacters(a.before + QNameThen(a.name, a.left + ("=" + (a.right + ([a.quote] + u))))) <==>
      XmlCharacters(u)
  {
    var quoted := [a.quote] + u;
    LegalAppend([a.quote], u);
    LegalAppend(a.right, quoted);
    LegalAppend("=", a.right + quoted);
    LegalAppend(a.left, "=" + (a.right + quoted));
    QNameLegal(a.name, a.left + ("=" + (a.right + quoted)));
    LegalAppend(a.before, QNameThen(a.name, a.left + ("=" + (a.right + quoted))));
  }

  lemma {:induction false} AllAssignedAlike(all: seq<Assigned>, b: string, b': string)
    requires AreAssigned(all) && Alike(b, b')
    ensures Alike(AllAssignedThen(all, b), AllAssignedThen(all, b'))
    decreases |all|
  {
    if |all| > 0 {
      AllAssignedAlike(all[1..], b, b');
      AssignedAlike(all[0], AllAssignedThen(all[1..], b), AllAssignedThen(all[1..], b'));
    }
  }

  lemma BracketLegal(selfClosing: bool, b: string)
    ensures XmlCharacters(Bracket(selfClosing) + b) <==> XmlCharacters(b)
  {
    LegalAppend(Bracket(selfClosing), b);
  }

  lemma StartAlike(t: Start, self: bool, self': bool, b: string, b': string)
    requires IsStart(t) && Alike(b, b')
    ensures Alike(StartThen(t, self, b), StartThen(t, self', b'))
  {
    var end, end' := t.space + (Bracket(self) + b), t.space + (Bracket(self') + b');
    BracketLegal(self, b);
    BracketLegal(self', b');
    LegalAppend(t.space, Bracket(self) + b);
    LegalAppend(t.space, Bracket(self') + b');
    AllAssignedAlike(t.attributes, end, end');
    QNameLegal(t.name, AllAssignedThen(t.attributes, end));
    QNameLegal(t.name, AllAssignedThen(t.attributes, end'));
    LegalAppend("<", QNameThen(t.name, AllAssignedThen(t.attributes, end)));
    LegalAppend("<", QNameThen(t.name, AllAssignedThen(t.attributes, end')));
  }

  lemma EndAlike(name: QName, space: string, b: string)
    requires IsQName(name) && Space(space)
    ensures XmlCharacters(EndThen(name, space, b)) <==> XmlCharacters(b)
  {
    LegalAppend(">", b);
    LegalAppend(space, ">" + b);
    QNameLegal(name, space + (">" + b));
    LegalAppend("</", QNameThen(name, space + (">" + b)));
  }

  lemma {:induction false} SpreadAlike(x: Concrete, b: string, b': string, depth: nat)
    requires IsConcrete(x, depth) && Alike(b, b')
    ensures Alike(ConcreteThen(Spread(x), b), ConcreteThen(x, b'))
    decreases x
  {
    match x
    case Empty(start) =>
      EndAlike(start.name, "", b);
      StartAlike(start, false, true, EndThen(start.name, "", b), b');
    case Filled(start, items, space) =>
      var end, end' := EndThen(start.name, space, b), EndThen(start.name, space, b');
      EndAlike(start.name, space, b);
      EndAlike(start.name, space, b');
      SpreadItemsAlike(items, end, end', depth + 1);
      StartAlike(start, false, false, ItemsThen(SpreadItems(items), end), ItemsThen(items, end'));
  }

  lemma TextAlike(open: string, text: string, close: string, b: string, b': string)
    requires Alike(b, b')
    ensures Alike(open + (text + (close + b)), open + (text + (close + b')))
  {
    LegalAppend(close, b);
    LegalAppend(close, b');
    LegalAppend(text, close + b);
    LegalAppend(text, close + b');
    LegalAppend(open, text + (close + b));
    LegalAppend(open, text + (close + b'));
  }

  lemma {:induction false} SpreadItemsAlike(items: Items, b: string, b': string, depth: nat)
    requires AreItems(items, depth) && Alike(b, b')
    ensures Alike(ItemsThen(SpreadItems(items), b), ItemsThen(items, b'))
    decreases items
  {
    match items
    case Final(chars) => PiecesAlike(chars, b, b');
    case Before(chars, particle, rest) =>
      var u, u' := ItemsThen(SpreadItems(rest), b), ItemsThen(rest, b');
      SpreadItemsAlike(rest, b, b', depth);
      match particle {
        case Section(text) =>
          TextAlike("<![CDATA[", text, "]]>", u, u');
          PiecesAlike(chars, SectionThen(text, u), SectionThen(text, u'));
        case Remark(text) =>
          TextAlike("<!--", text, "-->", u, u');
          PiecesAlike(chars, RemarkThen(text, u), RemarkThen(text, u'));
        case Nested(element) =>
          SpreadAlike(element, u, u', depth);
          PiecesAlike(chars, ConcreteThen(Spread(element), u), ConcreteThen(element, u'));
      }
  }

  lemma {:induction false} RemarksAlike(remarks: seq<(string, string)>, b: string, b': string)
    requires Alike(b, b')
    ensures Alike(RemarksThen(remarks, b), RemarksThen(remarks, b'))
    decreases |remarks|
  {
    if |remarks| > 0 {
      var (space, text) := remarks[0];
      var u, u' := RemarksThen(remarks[1..], b), RemarksThen(remarks[1..], b');
      RemarksAlike(remarks[1..], b, b');
      TextAlike("<!--", text, "-->", u, u');
      LegalAppend(space, RemarkThen(text, u));
      LegalAppend(space, RemarkThen(text, u'));
    }
  }

  function SpreadDocument(d: Document): Document {
    d.(root := Spread(d.root))
  }

  lemma BodyAlike(d: Document)
    requires IsDocument(d)
    ensures Alike(BodyText(SpreadDocument(d)), BodyText(d))
  {
    var after := MiscThen(d.after, "");
    SpreadAlike(d.root, after, after, 0);
    LegalAppend(d.before.space, ConcreteThen(Spread(d.root), after));
    LegalAppend(d.before.space, ConcreteThen(d.root, after));
    RemarksAlike(d.before.remarks, d.before.space + ConcreteThen(Spread(d.root), after),
                 d.before.space + ConcreteThen(d.root, after));
  }

  lemma HeadingAlike(h: Heading, b: string, b': string)
    requires IsHeading(h) && Alike(b, b')
    ensures Alike(HeadingThen(h, b), HeadingThen(h, b'))
  {
    LegalAppend("?>", b);
    LegalAppend("?>", b');
    LegalAppend(h.space, "?>" + b);
    LegalAppend(h.space, "?>" + b');
    AllAssignedAlike(h.attributes, h.space + ("?>" + b), h.space + ("?>" + b'));
    LegalAppend("<?xml", AllAssignedThen(h.attributes, h.space + ("?>" + b)));
    LegalAppend("<?xml", AllAssignedThen(h.attributes, h.space + ("?>" + b')));
  }

  lemma DocumentAlike(d: Document)
    requires IsDocument(d)
    ensures Alike(DocumentText(SpreadDocument(d)), DocumentText(d))
  {
    var body, body' := BodyText(SpreadDocument(d)), BodyText(d);
    BodyAlike(d);
    if d.heading.Some? { HeadingAlike(d.heading.value, body, body'); }
    var headed := if d.heading.Some? then HeadingThen(d.heading.value, body) else body;
    var headed' := if d.heading.Some? then HeadingThen(d.heading.value, body') else body';
    LegalAppend(BOM, headed);
    LegalAppend(BOM, headed');
  }

  // A document with empty-element tags and the same with all of them spelled out have
  // the same tree, or are both refused.
  lemma SpreadReadsTheSame(d: Document)
    requires IsDocument(d)
    ensures ParseDocument(DocumentText(SpreadDocument(d))) == ParseDocument(DocumentText(d))
  {
    var d' := SpreadDocument(d);
    DocumentAlike(d);
    ReadingIsNaming(DocumentText(d));
    ReadingIsNaming(DocumentText(d'));
    if XmlCharacters(DocumentText(d)) {
      SpreadIs(d.root, 0);
      SpreadSame(d.root);
      DocumentRead(d);
      DocumentRead(d');
    }
  }

  // The plainest case, as text.
  lemma Regrouped(a: string, b: string, c: string, d: string)
    ensures a + b + c + d == a + (b + ("" + (c + d)))
  {
    var cd := c + d;
    assert "" + cd == cd;
    assert (a + b) + cd == a + (b + cd);
  }

  lemma EmptyTagParses(n: string, rest: string)
    requires IsName(n)
    ensures StartTag("<" + n + "/>" + rest) == Ok(Tag(QName("", n), [], true), rest)
  {
    StartWritten(Start(QName("", n), [], ""), true, rest);
    Regrouped("<", n, "/>", rest);
  }

  lemma EmptyElementReads(n: string, rest: string, bindings: seq<Binding>, depth: nat)
    requires IsName(n) && depth < MAX_DEPTH
    ensures var s := "<" + n + "/>" + rest;
      exists uri: string ::
        && Resolve(bindings, QName("", n), false) == Some(uri)
        && Element(s, bindings, depth) == Ok(Node(n, uri, "", []), rest)
  {
    EmptyTagParses(n, rest);
    var tag := Tag(QName("", n), [], true);
    assert Declared(bindings, []) == Some(bindings);
    var uri := Resolve(bindings, tag.name, false).value;
    assert Open(bindings, tag) == Some(Scope(bindings, uri));
  }
}
