// S3XMLReader undoes S3XMLWriter: a written request is accepted exactly when all
// its texts are made of legal characters, and its tree then carries those texts in
// order.
module XmlRoundTrip {
  import opened Common
  import opened XmlSyntax
  import opened XmlDocument
  import opened XmlRefinement
  import opened XmlWriter

  predicate Name(name: string) {
    |name| > 0 && NameStart(name[0]) && forall i :: 0 <= i < |name| ==> NameCharacter(name[i])
  }

  // --------------------------------------------------------------------- searching

  lemma FindIn(a: string, c: char, b: string)
    requires c !in a
    ensures Find(a + [c] + b, c) == |a|
  {
    var s := a + [c] + b;
    assert s[|a|] == c;
    forall j | 0 <= j < |a| ensures s[j] != c { assert a[j] in a; }
  }

  lemma FindBefore(a: string, c: char, b: string)
    requires c !in a && |b| > 0 && b[0] == c
    ensures Find(a + b, c) == |a|
  {
    FindIn(a, c, b[1..]);
    assert a + [c] + b[1..] == a + b;
  }

  // ------------------------------------------------------------------------- names

  lemma {:induction false} NameLengthIs(name: string, b: string)
    requires forall i :: 0 <= i < |name| ==> NameCharacter(name[i])
    requires |b| == 0 || !NameCharacter(b[0])
    ensures NameLength(name + b) == |name|
  {
    if |name| == 0 {
      assert name + b == b;
    } else {
      NameLengthIs(name[1..], b);
      assert (name + b)[1..] == name[1..] + b;
    }
  }

  lemma NameParses(name: string, b: string)
    requires Name(name) && |b| > 0 && !NameCharacter(b[0]) && b[0] != ':'
    ensures QualifiedName(name + b) == Ok(QName("", name), b)
  {
    NameLengthIs(name, b);
    assert (name + b)[..|name|] == name && (name + b)[|name|..] == b;
    assert SimpleName(name + b) == Ok(name, b);
  }

  // The end of a tag.
  lemma TagEnds(b: string, sofar: seq<Attribute>)
    ensures Attributes(">" + b, sofar) == Ok(TagEnd(sofar, false), b)
    ensures SkipWhitespace(">" + b) == ">" + b && (">" + b)[1..] == b
  {
  }

  lemma StartTagParses(name: string, b: string)
    requires Name(name)
    ensures StartTag(Opening(name) + b) == Ok(Tag(QName("", name), [], false), b)
  {
    var rest := name + (">" + b);
    NameParses(name, ">" + b);
    TagEnds(b, []);
    assert Opening(name) + b == "<" + rest;
    assert ("<" + rest)[1..] == rest;
  }

  lemma EndTagParses(name: string, b: string)
    requires Name(name)
    ensures EndTag(Closing(name) + b) == Ok(QName("", name), b)
  {
    var rest := name + (">" + b);
    NameParses(name, ">" + b);
    TagEnds(b, []);
    assert Closing(name) + b == "</" + rest;
    assert ("</" + rest)[2..] == rest;
  }

  // -------------------------------------------------------------------------- text

  lemma ReferenceParses(name: string, b: string)
    requires ';' !in name && Entity(name).Some?
    ensures Reference("&" + name + ";" + b) == Ok(Entity(name).value, b)
  {
    var s := "&" + name + ";" + b;
    assert s[1..] == name + [';'] + b;
    FindIn(name, ';', b);
    assert s[1..1 + |name|] == name && s[|name| + 2..] == b;
  }

  lemma CarriageReturn()
    ensures Entity("#13") == Some('\r')
  {
    var name := "#13";
    var digits := name[1..];
    assert digits == "13" && digits[1..] == "3" && digits[1..][1..] == "";
    assert Codepoint(digits[1..][1..], 10, 13) == Some(13);
    assert Codepoint(digits[1..], 10, 1) == Some(13);
    assert Codepoint(digits, 10, 0) == Some(13);
  }

  lemma EscapedParses(c: char, b: string)
    requires !Plain(c)
    ensures |EscapeCharacter(c)| > 0 && EscapeCharacter(c)[0] == '&'
    ensures Reference(EscapeCharacter(c) + b) == Ok(c, b)
  {
    var name := if c == '&' then "amp" else if c == '<' then "lt" else if c == '>' then "gt" else "#13";
    CarriageReturn();
    assert Entity(name) == Some(c) && ';' !in name;
    ReferenceParses(name, b);
    assert EscapeCharacter(c) == "&" + name + ";";
  }

  lemma TextStep(c: char, tail: string, n: nat)
    requires n <= |tail|
    ensures TextCharacters(EscapeCharacter(c) + tail, |EscapeCharacter(c)| + n) == Prepend(c, TextCharacters(tail, n))
  {
    var s := EscapeCharacter(c) + tail;
    if Plain(c) {
      assert s[1..] == tail;
    } else {
      EscapedParses(c, tail);
    }
  }

  lemma {:induction false} TextParses(text: string, b: string)
    ensures TextCharacters(Escape(text) + b, |Escape(text)|) == Ok(text, b)
  {
    if |text| == 0 {
      assert Escape(text) + b == b;
    } else {
      assert text == [text[0]] + text[1..];
      TextParses(text[1..], b);
      TextStep(text[0], Escape(text[1..]) + b, |Escape(text[1..])|);
      Grouped(EscapeCharacter(text[0]), Escape(text[1..]), b, Escape(text[1..]) + b);
    }
  }

  lemma {:induction false} EscapeSafe(text: string)
    ensures '<' !in Escape(text) && '>' !in Escape(text)
  {
    if |text| > 0 { EscapeSafe(text[1..]); }
  }

  lemma CdataEndIs(s: string, i: nat)
    requires Occurs(s, i, "]]>")
    ensures s[i + 1] == ']' && s[i + 2] == '>'
  {
    assert s[i..i + 3][1] == s[i + 1] && s[i..i + 3][2] == s[i + 2];
  }

  // No "]]>" begins inside escaped text.
  lemma NoCdataEnd(e: string, b: string)
    requires '>' !in e && |b| > 0 && b[0] == '<'
    ensures FindText(e + b, "]]>") >= |e|
  {
    var s := e + b;
    assert s[|e|] == '<';
    forall j | 0 <= j < |e| ensures s[j] != '>' { assert e[j] in e; }
    forall i | 0 <= i < |e| && Occurs(s, i, "]]>") ensures false { CdataEndIs(s, i); }
  }

  lemma EscapeStarts(text: string, b: string)
    requires |text| > 0
    ensures |Escape(text)| > 0 && (Escape(text) + b)[0] != '<'
  {
    assert Escape(text)[0] == EscapeCharacter(text[0])[0];
  }

  // Escaped text up to a tag.
  lemma TextRuns(text: string, b: string)
    requires |text| > 0 && |b| > 0 && b[0] == '<'
    ensures var s := Escape(text) + b; |s| > 0 && s[0] != '<' && Text(s) == Ok(text, b)
  {
    EscapeSafe(text);
    EscapeStarts(text, b);
    NoCdataEnd(Escape(text), b);
    FindBefore(Escape(text), '<', b);
    TextParses(text, b);
  }

  // ---------------------------------------------------------------------- elements

  // Markup that opens with a start tag.
  predicate Tagged(x: string) {
    |x| > 1 && x[0] == '<' && NameStart(x[1])
  }

  lemma TaggedIsElement(s: string)
    requires Tagged(s)
    ensures !("<!--" <= s) && !Markup(s)
  {
    assert "<!--"[1] == '!' && "<![CDATA["[1] == '!' && "<!"[1] == '!';
    assert "</"[1] == '/' && "<?"[1] == '?';
  }

  // `x` is an element: whatever follows, it is read as `node`.
  ghost predicate Reads(x: string, node: Node, bindings: seq<Binding>, depth: nat) {
    Tagged(x) && forall b: string :: Element(x + b, bindings, depth) == Ok(node, b)
  }

  // `x` is the whole content of an element.
  ghost predicate Holds(x: string, inner: Inner, bindings: seq<Binding>, depth: nat) {
    forall b: string :: "</" <= b ==> Content(x + b, bindings, depth, Inner("", [])) == Ok(inner, b)
  }

  lemma ContentReads(x: string, node: Node, bindings: seq<Binding>, depth: nat, b: string, sofar: Inner)
    requires Reads(x, node, bindings, depth)
    ensures Content(x + b, bindings, depth, sofar)
         == Content(b, bindings, depth, sofar.(children := sofar.children + [node]))
  {
    var s := x + b;
    assert Tagged(s);
    TaggedIsElement(s);
    assert Element(s, bindings, depth) == Ok(node, b);
  }

  lemma ContentEnds(b: string, bindings: seq<Binding>, depth: nat, sofar: Inner)
    requires "</" <= b
    ensures Content(b, bindings, depth, sofar) == Ok(sofar, b)
  {
    assert b[0] == '<' && b[1] == '/';
    assert "<!--"[1] == '!' && "<![CDATA["[1] == '!';
  }

  lemma TextHolds(text: string, bindings: seq<Binding>, depth: nat)
    ensures Holds(Escape(text), Inner(text, []), bindings, depth)
  {
    forall b: string | "</" <= b
      ensures Content(Escape(text) + b, bindings, depth, Inner("", [])) == Ok(Inner(text, []), b)
    {
      ContentEnds(b, bindings, depth, Inner(text, []));
      if |text| == 0 {
        assert Escape(text) + b == b;
      } else {
        TextRuns(text, b);
        assert "" + text == text;
      }
    }
  }

  // Inside the root of a request every element has its namespace.
  const BINDINGS := PREDECLARED + [Binding("", S3_NAMESPACE)]

  lemma PlainTagOpens(name: string)
    ensures Open(BINDINGS, Tag(QName("", name), [], false)) == Some(Scope(BINDINGS, S3_NAMESPACE))
  {
    assert BINDINGS[|BINDINGS| - 1] == Binding("", S3_NAMESPACE);
  }

  lemma BranchReads(name: string, x: string, inner: Inner, depth: nat)
    requires Name(name) && depth < MAX_DEPTH && Holds(x, inner, BINDINGS, depth + 1)
    ensures Reads(Branch(name, x), Node(name, S3_NAMESPACE, inner.text, inner.children), BINDINGS, depth)
  {
    assert Branch(name, x)[1] == name[0];
    forall b: string
      ensures Element(Branch(name, x) + b, BINDINGS, depth)
           == Ok(Node(name, S3_NAMESPACE, inner.text, inner.children), b)
    {
      BranchElement(name, x, inner, depth, b);
    }
  }

  lemma BodyReads(name: string, tag: Tag, x: string, inner: Inner, depth: nat, b: string)
    requires Name(name) && tag.name == QName("", name) && Holds(x, inner, BINDINGS, depth)
    ensures Body(x + (Closing(name) + b), tag, Scope(BINDINGS, S3_NAMESPACE), depth)
         == Ok(Node(name, S3_NAMESPACE, inner.text, inner.children), b)
  {
    var end := Closing(name) + b;
    assert "</" <= end;
    assert Content(x + end, BINDINGS, depth, Inner("", [])) == Ok(inner, end);
    EndTagParses(name, b);
  }

  lemma BranchElement(name: string, x: string, inner: Inner, depth: nat, b: string)
    requires Name(name) && depth < MAX_DEPTH && Holds(x, inner, BINDINGS, depth + 1)
    ensures Element(Branch(name, x) + b, BINDINGS, depth) == Ok(Node(name, S3_NAMESPACE, inner.text, inner.children), b)
  {
    var rest := x + (Closing(name) + b);
    assert Branch(name, x) + b == Opening(name) + rest;
    StartTagParses(name, rest);
    PlainTagOpens(name);
    BodyReads(name, Tag(QName("", name), [], false), x, inner, depth + 1, b);
  }

  lemma LeafReads(name: string, text: string, depth: nat)
    requires Name(name) && depth < MAX_DEPTH
    ensures Reads(Leaf(name, text), Node(name, S3_NAMESPACE, text, []), BINDINGS, depth)
  {
    TextHolds(text, BINDINGS, depth + 1);
    BranchReads(name, Escape(text), Inner(text, []), depth);
  }

  // ------------------------------------------------------------- several in a row

  // `x` reads as the elements `nodes`, after which the content goes on.
  ghost predicate Yields(x: string, nodes: seq<Node>, depth: nat) {
    forall b: string, sofar: Inner ::
      Content(x + b, BINDINGS, depth, sofar) == Content(b, BINDINGS, depth, sofar.(children := sofar.children + nodes))
  }

  lemma YieldsNothing(depth: nat)
    ensures Yields("", [], depth)
  {
    forall b: string, sofar: Inner
      ensures Content("" + b, BINDINGS, depth, sofar)
           == Content(b, BINDINGS, depth, sofar.(children := sofar.children + []))
    {
      assert "" + b == b && sofar.children + [] == sofar.children;
    }
  }

  lemma YieldsOne(x: string, node: Node, depth: nat)
    requires Reads(x, node, BINDINGS, depth)
    ensures Yields(x, [node], depth)
  {
    forall b: string, sofar: Inner
      ensures Content(x + b, BINDINGS, depth, sofar)
           == Content(b, BINDINGS, depth, sofar.(children := sofar.children + [node]))
    {
      ContentReads(x, node, BINDINGS, depth, b, sofar);
    }
  }

  lemma Yielded(x: string, ns: seq<Node>, depth: nat, b: string, sofar: Inner)
    requires Yields(x, ns, depth)
    ensures Content(x + b, BINDINGS, depth, sofar)
         == Content(b, BINDINGS, depth, sofar.(children := sofar.children + ns))
  {
  }

  function Extended(sofar: Inner, ns: seq<Node>): Inner {
    sofar.(children := sofar.children + ns)
  }

  lemma ExtendedTwice(sofar: Inner, ns: seq<Node>, ms: seq<Node>)
    ensures Extended(Extended(sofar, ns), ms) == Extended(sofar, ns + ms)
  {
    assert sofar.children + ns + ms == sofar.children + (ns + ms);
  }

  lemma YieldsThen(x: string, ns: seq<Node>, y: string, ms: seq<Node>, depth: nat, b: string, sofar: Inner)
    requires Yields(x, ns, depth) && Yields(y, ms, depth)
    ensures Content(x + (y + b), BINDINGS, depth, sofar) == Content(b, BINDINGS, depth, Extended(sofar, ns + ms))
  {
    Yielded(x, ns, depth, y + b, sofar);
    Yielded(y, ms, depth, b, Extended(sofar, ns));
    ExtendedTwice(sofar, ns, ms);
  }

  lemma YieldsBoth(x: string, ns: seq<Node>, y: string, ms: seq<Node>, depth: nat)
    requires Yields(x, ns, depth) && Yields(y, ms, depth)
    ensures Yields(x + y, ns + ms, depth)
  {
    forall b: string, sofar: Inner
      ensures Content(x + y + b, BINDINGS, depth, sofar)
           == Content(b, BINDINGS, depth, sofar.(children := sofar.children + (ns + ms)))
    {
      YieldsThen(x, ns, y, ms, depth, b, sofar);
      assert x + y + b == x + (y + b);
    }
  }

  lemma {:induction false} YieldsList(pieces: seq<string>, nodes: seq<Node>, depth: nat)
    requires |pieces| == |nodes| && forall i :: 0 <= i < |pieces| ==> Reads(pieces[i], nodes[i], BINDINGS, depth)
    ensures Yields(Concatenated(pieces), nodes, depth)
  {
    if |pieces| == 0 {
      YieldsNothing(depth);
    } else {
      var n := |pieces| - 1;
      YieldsList(pieces[..n], nodes[..n], depth);
      YieldsOne(pieces[n], nodes[n], depth);
      YieldsBoth(Concatenated(pieces[..n]), nodes[..n], pieces[n], [nodes[n]], depth);
      assert nodes[..n] + [nodes[n]] == nodes;
    }
  }

  lemma YieldsHold(x: string, nodes: seq<Node>, depth: nat)
    requires Yields(x, nodes, depth)
    ensures Holds(x, Inner("", nodes), BINDINGS, depth)
  {
    var empty := Inner("", []);
    assert empty.children + nodes == nodes;
    forall b: string | "</" <= b ensures Content(x + b, BINDINGS, depth, empty) == Ok(Inner("", nodes), b) {
      ContentEnds(b, BINDINGS, depth, Inner("", nodes));
    }
  }

  lemma ListHolds(pieces: seq<string>, nodes: seq<Node>, depth: nat)
    requires |pieces| == |nodes| && forall i :: 0 <= i < |pieces| ==> Reads(pieces[i], nodes[i], BINDINGS, depth)
    ensures Holds(Concatenated(pieces), Inner("", nodes), BINDINGS, depth)
  {
    YieldsList(pieces, nodes, depth);
    YieldsHold(Concatenated(pieces), nodes, depth);
  }

  lemma OneHolds(x: string, node: Node, depth: nat)
    requires Reads(x, node, BINDINGS, depth)
    ensures Holds(x, Inner("", [node]), BINDINGS, depth)
  {
    YieldsOne(x, node, depth);
    YieldsHold(x, [node], depth);
  }

  lemma TwoHold(x: string, node: Node, x': string, node': Node, depth: nat)
    requires Reads(x, node, BINDINGS, depth) && Reads(x', node', BINDINGS, depth)
    ensures Holds(x + x', Inner("", [node, node']), BINDINGS, depth)
  {
    YieldsOne(x, node, depth);
    YieldsOne(x', node', depth);
    YieldsBoth(x, [node], x', [node'], depth);
    assert [node] + [node'] == [node, node'];
    YieldsHold(x + x', [node, node'], depth);
  }

  // -------------------------------------------------------------- the root element

  // Text that an attribute carries unchanged.
  predicate Verbatim(v: string) {
    forall i :: 0 <= i < |v| ==> v[i] != '"' && v[i] != '<' && v[i] != '&' && !Whitespace(v[i])
  }

  lemma {:induction false} ValueParses(v: string, b: string)
    requires Verbatim(v)
    ensures AttributeCharacters(v + ("\"" + b), '"') == Ok(v, b)
  {
    var s := v + ("\"" + b);
    if |v| == 0 {
      assert s == "\"" + b && s[1..] == b;
    } else {
      ValueParses(v[1..], b);
      assert s[1..] == v[1..] + ("\"" + b) && v == [v[0]] + v[1..];
    }
  }

  lemma {:induction false} DeclarationParses(v: string, b: string)
    requires forall i :: 0 <= i < |v| ==> NameCharacter(v[i])
    ensures DeclarationCharacters(v + ("\"" + b), '"') == Ok(v, b)
  {
    var s := v + ("\"" + b);
    if |v| == 0 {
      assert s == "\"" + b && s[1..] == b;
    } else {
      DeclarationParses(v[1..], b);
      assert s[1..] == v[1..] + ("\"" + b) && v == [v[0]] + v[1..];
    }
  }

  // name="value"
  function Assigned(name: string, v: string, b: string): string {
    name + ("=\"" + (v + ("\"" + b)))
  }

  lemma AssignmentParses(name: string, v: string, b: string, declaration: bool)
    requires Name(name)
    requires if declaration then forall i :: 0 <= i < |v| ==> NameCharacter(v[i]) else Verbatim(v)
    ensures Assignment(Assigned(name, v, b), declaration) == Ok(Attribute(QName("", name), v), b)
  {
    var value := v + ("\"" + b);
    var sign := "=\"" + value;
    NameParses(name, sign);
    assert sign[1..] == "\"" + value && ("\"" + value)[1..] == value;
    if declaration { DeclarationParses(v, b); } else { ValueParses(v, b); }
  }

  lemma NamespaceVerbatim()
    ensures Verbatim(S3_NAMESPACE)
    ensures S3_NAMESPACE != XML_NAMESPACE && S3_NAMESPACE != XMLNS_NAMESPACE
  {
    assert S3_NAMESPACE[7] == 's' && XML_NAMESPACE[7] == 'w' && XMLNS_NAMESPACE[7] == 'w';
  }

  const XMLNS := Attribute(QName("", "xmlns"), S3_NAMESPACE)

  lemma RootTagOpens(name: string)
    ensures Open(PREDECLARED, Tag(QName("", name), [XMLNS], false)) == Some(Scope(BINDINGS, S3_NAMESPACE))
  {
    NamespaceVerbatim();
    var attributes, none: seq<Attribute> := [XMLNS], [];
    assert attributes[1..] == none && Declares(XMLNS) == Some("") && LegalBinding("", S3_NAMESPACE);
    assert Declared(BINDINGS, none) == Some(BINDINGS);
    assert Declared(PREDECLARED, attributes) == Declared(BINDINGS, none);
    assert ValidAttributes(BINDINGS, none, []);
    assert ValidAttributes(BINDINGS, attributes, []);
    assert BINDINGS[|BINDINGS| - 1] == Binding("", S3_NAMESPACE);
  }

  lemma RootAttributes(b: string)
    ensures Attributes(" " + Assigned("xmlns", S3_NAMESPACE, ">" + b), []) == Ok(TagEnd([XMLNS], false), b)
  {
    var rest := ">" + b;
    var attribute := Assigned("xmlns", S3_NAMESPACE, rest);
    var s := " " + attribute;
    NamespaceVerbatim();
    AssignmentParses("xmlns", S3_NAMESPACE, rest, false);
    assert attribute[0] == 'x';
    SpaceSkipped(attribute);
    assert [] + [XMLNS] == [XMLNS];
    TagEnds(b, [XMLNS]);
    assert !Used([], XMLNS.name);
  }

  lemma RootTagParses(name: string, b: string)
    requires Name(name)
    ensures StartTag(RootOpening(name) + b) == Ok(Tag(QName("", name), [XMLNS], false), b)
  {
    var after := " " + Assigned("xmlns", S3_NAMESPACE, ">" + b);
    var s := RootOpening(name) + b;
    assert s == "<" + (name + after);
    assert s[1..] == name + after;
    NameParses(name, after);
    RootAttributes(b);
  }

  lemma RootReads(name: string, x: string, inner: Inner)
    requires Name(name) && Holds(x, inner, BINDINGS, 1)
    ensures Element(Root(name, x), PREDECLARED, 0) == Ok(Node(name, S3_NAMESPACE, inner.text, inner.children), "")
  {
    var rest := x + (Closing(name) + "");
    assert Closing(name) + "" == Closing(name);
    assert Root(name, x) == RootOpening(name) + rest;
    RootTagParses(name, rest);
    RootTagOpens(name);
    BodyReads(name, Tag(QName("", name), [XMLNS], false), x, inner, 1, "");
  }

  lemma RootIsTree(name: string, x: string, inner: Inner)
    requires Name(name) && Holds(x, inner, BINDINGS, 1)
    ensures Tree(Root(name, x)) == Some(Node(name, S3_NAMESPACE, inner.text, inner.children))
    ensures Tagged(Root(name, x))
  {
    var s := Root(name, x);
    assert s[0] == '<' && s[1] == name[0];
    TaggedIsElement(s);
    RootReads(name, x, inner);
    assert Outside(s) == Some(s);
  }

  // --------------------------------------------------------------- XML declaration

  function DeclarationTail(b: string): string {
    " " + Assigned("version", "1.0", " " + Assigned("encoding", "UTF-8", "?>" + b))
  }

  lemma DeclarationSkipped(b: string)
    ensures XML_DECLARATION + b == "<?xml" + DeclarationTail(b)
  {
  }

  lemma SpaceSkipped(t: string)
    requires |t| > 0 && !Whitespace(t[0])
    ensures SkipWhitespace(" " + t) == t
  {
    var s := " " + t;
    assert s[1..] == t;
  }

  lemma AttributeStep(name: string, v: string, b: string, sofar: seq<Attribute>)
    requires Name(name) && (forall i :: 0 <= i < |v| ==> NameCharacter(v[i]))
    requires "?>" <= b || (|b| > 0 && Whitespace(b[0]))
    ensures DeclarationAttributes(" " + Assigned(name, v, b), sofar)
         == DeclarationAttributes(b, sofar + [Attribute(QName("", name), v)])
  {
    var attribute := Assigned(name, v, b);
    assert attribute[0] == name[0];
    assert !("?>" <= attribute) by { assert "?>"[0] == '?'; }
    SpaceSkipped(attribute);
    AssignmentParses(name, v, b, true);
  }

  lemma AttributesEnd(b: string, sofar: seq<Attribute>)
    ensures DeclarationAttributes("?>" + b, sofar) == Ok(sofar, b)
  {
    var s := "?>" + b;
    assert SkipWhitespace(s) == s && s[2..] == b;
  }

  const VERSION := Attribute(QName("", "version"), "1.0")
  const ENCODING := Attribute(QName("", "encoding"), "UTF-8")

  lemma VersionStep(b: string)
    requires |b| > 0 && Whitespace(b[0])
    ensures DeclarationAttributes(" " + Assigned("version", "1.0", b), []) == DeclarationAttributes(b, [VERSION])
  {
    AttributeStep("version", "1.0", b, []);
    assert [] + [VERSION] == [VERSION];
  }

  lemma EncodingStep(b: string)
    requires "?>" <= b
    ensures DeclarationAttributes(" " + Assigned("encoding", "UTF-8", b), [VERSION])
         == DeclarationAttributes(b, [VERSION, ENCODING])
  {
    AttributeStep("encoding", "UTF-8", b, [VERSION]);
    assert [VERSION] + [ENCODING] == [VERSION, ENCODING];
  }

  lemma AttributesRead(b: string)
    ensures DeclarationAttributes(DeclarationTail(b), []) == Ok([VERSION, ENCODING], b)
  {
    var end := "?>" + b;
    VersionStep(" " + Assigned("encoding", "UTF-8", end));
    EncodingStep(end);
    AttributesEnd(b, [VERSION, ENCODING]);
  }

  lemma DeclarationAccepted()
    ensures AcceptedDeclaration([VERSION, ENCODING])
  {
    assert Lower("UTF-8") == "utf-8";
  }

  lemma DeclarationOf(s: string, t: string, attributes: seq<Attribute>, b: string)
    requires s == "<?xml" + t && |t| > 0 && Whitespace(t[0])
    requires DeclarationAttributes(t, []) == Ok(attributes, b) && AcceptedDeclaration(attributes)
    ensures "<?xml" <= s && Declaration(s) == Ok(attributes, b)
  {
    assert s[5..] == t;
  }

  lemma DeclarationReads(b: string)
    ensures "<?xml" <= XML_DECLARATION + b && Declaration(XML_DECLARATION + b) == Ok([VERSION, ENCODING], b)
  {
    DeclarationSkipped(b);
    AttributesRead(b);
    DeclarationAccepted();
    DeclarationOf(XML_DECLARATION + b, DeclarationTail(b), [VERSION, ENCODING], b);
  }

  // -------------------------------------------------------------- legal characters

  lemma LegalAppend(a: string, b: string)
    ensures XmlCharacters(a + b) <==> XmlCharacters(a) && XmlCharacters(b)
  {
    var s := a + b;
    if XmlCharacters(s) {
      forall i | 0 <= i < |a| ensures XmlCodepoint(a[i] as int) { assert s[i] == a[i]; }
      forall i | 0 <= i < |b| ensures XmlCodepoint(b[i] as int) { assert s[|a| + i] == b[i]; }
    }
  }

  lemma {:induction false} LegalEscape(text: string)
    ensures XmlCharacters(Escape(text)) <==> XmlCharacters(text)
  {
    if |text| > 0 {
      LegalEscape(text[1..]);
      LegalAppend(EscapeCharacter(text[0]), Escape(text[1..]));
      LegalAppend([text[0]], text[1..]);
      assert [text[0]] + text[1..] == text;
      assert XmlCharacters([text[0]]) <==> XmlCodepoint(text[0] as int);
    }
  }

  lemma {:induction false} LegalConcatenated(pieces: seq<string>)
    ensures XmlCharacters(Concatenated(pieces)) <==> forall i :: 0 <= i < |pieces| ==> XmlCharacters(pieces[i])
  {
    if |pieces| > 0 {
      var n := |pieces| - 1;
      LegalConcatenated(pieces[..n]);
      LegalAppend(Concatenated(pieces[..n]), pieces[n]);
      assert forall i :: 0 <= i < n ==> pieces[..n][i] == pieces[i];
    }
  }

  lemma LegalName(name: string)
    requires Name(name)
    ensures XmlCharacters(Opening(name)) && XmlCharacters(Closing(name)) && XmlCharacters(RootOpening(name))
  {
    NamespaceVerbatim();
    LegalNamespace();
    LegalAppend("<" + name, " xmlns=\"" + S3_NAMESPACE + "\">");
    LegalAppend(" xmlns=\"", S3_NAMESPACE);
    LegalAppend(" xmlns=\"" + S3_NAMESPACE, "\">");
    assert RootOpening(name) == ("<" + name) + (" xmlns=\"" + S3_NAMESPACE + "\">");
  }

  lemma LegalNamespace()
    ensures XmlCharacters(S3_NAMESPACE)
  {
  }

  lemma LegalDeclaration()
    ensures XmlCharacters(XML_DECLARATION)
  {
  }

  lemma LegalBranch(name: string, x: string)
    requires Name(name)
    ensures XmlCharacters(Branch(name, x)) <==> XmlCharacters(x)
    ensures XmlCharacters(Root(name, x)) <==> XmlCharacters(x)
  {
    LegalName(name);
    LegalAppend(Opening(name) + x, Closing(name));
    LegalAppend(Opening(name), x);
    LegalAppend(RootOpening(name) + x, Closing(name));
    LegalAppend(RootOpening(name), x);
  }

  // --------------------------------------------------------------------- round trips

  function TextNode(name: string, text: string): Node {
    Node(name, S3_NAMESPACE, text, [])
  }

  function DeleteNode(key: string): Node {
    Node("Object", S3_NAMESPACE, "", [TextNode("Key", key)])
  }

  function CompleteNode(index: nat, etag: string): Node {
    Node("Part", S3_NAMESPACE, "", [TextNode("ETag", etag), TextNode("PartNumber", Decimal(index + 1))])
  }

  function DeleteNodes(keys: seq<string>): seq<Node> {
    seq(|keys|, i requires 0 <= i < |keys| => DeleteNode(keys[i]))
  }

  function CompleteNodes(etags: seq<string>): seq<Node> {
    seq(|etags|, i requires 0 <= i < |etags| => CompleteNode(i, etags[i]))
  }

  function DeleteTree(keys: seq<string>): Node {
    Node("Delete", S3_NAMESPACE, "", DeleteNodes(keys) + [TextNode("Quiet", "true")])
  }

  function CompleteTree(etags: seq<string>): Node {
    Node("CompleteMultipartUpload", S3_NAMESPACE, "", CompleteNodes(etags))
  }

  predicate AllLegal(texts: seq<string>) {
    forall i :: 0 <= i < |texts| ==> XmlCharacters(texts[i])
  }

  lemma Names()
    ensures Name("Object") && Name("Key") && Name("Quiet") && Name("Delete")
    ensures Name("Part") && Name("ETag") && Name("PartNumber") && Name("CompleteMultipartUpload")
  {
  }

  lemma DeleteEntryReads(key: string)
    ensures Reads(DeleteEntry(key), DeleteNode(key), BINDINGS, 1)
  {
    Names();
    LeafReads("Key", key, 2);
    OneHolds(Leaf("Key", key), TextNode("Key", key), 2);
    BranchReads("Object", Leaf("Key", key), Inner("", [TextNode("Key", key)]), 1);
  }

  lemma CompleteEntryReads(index: nat, etag: string)
    ensures Reads(CompleteEntry(index, etag), CompleteNode(index, etag), BINDINGS, 1)
  {
    Names();
    var number := Decimal(index + 1);
    LeafReads("ETag", etag, 2);
    LeafReads("PartNumber", number, 2);
    TwoHold(Leaf("ETag", etag), TextNode("ETag", etag), Leaf("PartNumber", number), TextNode("PartNumber", number), 2);
    BranchReads("Part", Leaf("ETag", etag) + Leaf("PartNumber", number),
                Inner("", CompleteNode(index, etag).children), 1);
  }

  lemma DeleteInnerHolds(keys: seq<string>)
    ensures Holds(Concatenated(DeleteEntries(keys)) + Leaf("Quiet", "true"), Inner("", DeleteTree(keys).children),
                  BINDINGS, 1)
  {
    Names();
    var pieces := DeleteEntries(keys) + [Leaf("Quiet", "true")];
    forall i | 0 <= i < |keys| ensures Reads(pieces[i], DeleteTree(keys).children[i], BINDINGS, 1) {
      DeleteEntryReads(keys[i]);
    }
    LeafReads("Quiet", "true", 1);
    ListHolds(pieces, DeleteTree(keys).children, 1);
    assert pieces[..|keys|] == DeleteEntries(keys);
  }

  lemma CompleteInnerHolds(etags: seq<string>)
    ensures Holds(Concatenated(CompleteEntries(etags)), Inner("", CompleteNodes(etags)), BINDINGS, 1)
  {
    forall i | 0 <= i < |etags| ensures Reads(CompleteEntries(etags)[i], CompleteNodes(etags)[i], BINDINGS, 1) {
      CompleteEntryReads(i, etags[i]);
    }
    ListHolds(CompleteEntries(etags), CompleteNodes(etags), 1);
  }

  lemma LegalLeaf(name: string, text: string)
    requires Name(name)
    ensures XmlCharacters(Leaf(name, text)) <==> XmlCharacters(text)
  {
    LegalBranch(name, Escape(text));
    LegalEscape(text);
  }

  lemma LegalDecimal(n: nat)
    ensures XmlCharacters(Decimal(n))
  {
    DecimalPlain(n);
  }

  lemma LegalDelete(keys: seq<string>)
    ensures XmlCharacters(DeleteRequest(keys)) <==> AllLegal(keys)
  {
    Names();
    var entries := DeleteEntries(keys);
    forall i | 0 <= i < |keys| ensures XmlCharacters(entries[i]) <==> XmlCharacters(keys[i]) {
      LegalLeaf("Key", keys[i]);
      LegalBranch("Object", Leaf("Key", keys[i]));
    }
    LegalConcatenated(entries);
    LegalLeaf("Quiet", "true");
    LegalAppend(Concatenated(entries), Leaf("Quiet", "true"));
    LegalBranch("Delete", Concatenated(entries) + Leaf("Quiet", "true"));
    LegalDeclaration();
    LegalAppend(XML_DECLARATION, Root("Delete", Concatenated(entries) + Leaf("Quiet", "true")));
  }

  lemma LegalComplete(etags: seq<string>)
    ensures XmlCharacters(CompleteRequest(etags)) <==> AllLegal(etags)
  {
    Names();
    var entries := CompleteEntries(etags);
    forall i | 0 <= i < |etags| ensures XmlCharacters(entries[i]) <==> XmlCharacters(etags[i]) {
      LegalLeaf("ETag", etags[i]);
      LegalDecimal(i + 1);
      LegalLeaf("PartNumber", Decimal(i + 1));
      LegalAppend(Leaf("ETag", etags[i]), Leaf("PartNumber", Decimal(i + 1)));
      LegalBranch("Part", Leaf("ETag", etags[i]) + Leaf("PartNumber", Decimal(i + 1)));
    }
    LegalConcatenated(entries);
    LegalBranch("CompleteMultipartUpload", Concatenated(entries));
  }

  lemma WithDeclaration(b: string)
    ensures WithoutPreamble(XML_DECLARATION + b) == Some(b)
  {
    DeclarationReads(b);
    assert (XML_DECLARATION + b)[0] == '<' && BOM[0] != '<';
  }

  lemma WithoutDeclaration(s: string)
    requires Tagged(s)
    ensures WithoutPreamble(s) == Some(s)
  {
    assert BOM[0] != '<' && "<?xml"[1] == '?';
  }

  // A written delete request is read back, if all its keys are legal: one entry for
  // each key, in order, with exactly its text.
  lemma DeleteRoundTrip(keys: seq<string>)
    ensures ParseDocument(DeleteRequest(keys)) == if AllLegal(keys) then Some(DeleteTree(keys)) else None
  {
    Names();
    var x := Concatenated(DeleteEntries(keys)) + Leaf("Quiet", "true");
    LegalDelete(keys);
    DeleteInnerHolds(keys);
    RootIsTree("Delete", x, Inner("", DeleteTree(keys).children));
    WithDeclaration(Root("Delete", x));
    ReaderIsRecursive(DeleteRequest(keys));
  }

  // A written completion request is read back, if all its ETags are legal: part
  // numbers 1 to n, each with its ETag.
  lemma CompleteRoundTrip(etags: seq<string>)
    ensures ParseDocument(CompleteRequest(etags)) == if AllLegal(etags) then Some(CompleteTree(etags)) else None
  {
    Names();
    LegalComplete(etags);
    CompleteInnerHolds(etags);
    RootIsTree("CompleteMultipartUpload", Concatenated(CompleteEntries(etags)), Inner("", CompleteNodes(etags)));
    WithoutDeclaration(CompleteRequest(etags));
    ReaderIsRecursive(CompleteRequest(etags));
  }

  // What a number's digits stand for.
  function Value(digits: string): nat
    requires forall i :: 0 <= i < |digits| ==> '0' <= digits[i] <= '9'
  {
    if |digits| == 0 then 0
    else 10 * Value(digits[..|digits| - 1]) + (digits[|digits| - 1] as int - '0' as int)
  }

  lemma {:induction false} DecimalRoundTrip(n: nat)
    ensures (forall i :: 0 <= i < |Decimal(n)| ==> '0' <= Decimal(n)[i] <= '9') && Value(Decimal(n)) == n
  {
    DecimalPlain(n);
    if n < 10 {
      assert Decimal(n)[..0] == "";
    } else {
      DecimalRoundTrip(n / 10);
      assert Decimal(n)[..|Decimal(n)| - 1] == Decimal(n / 10);
    }
  }

  // The completion of an upload lists its parts as the server numbers them.
  lemma ManifestNumbersParts(etags: seq<string>, i: nat)
    requires AllLegal(etags) && i < |etags|
    ensures var tree := ParseDocument(CompleteRequest(etags));
      && tree.Some? && |tree.value.children| == |etags|
      && var part := tree.value.children[i];
        && |part.children| == 2 && part.children[0].text == etags[i]
        && (forall j :: 0 <= j < |part.children[1].text| ==> '0' <= part.children[1].text[j] <= '9')
        && Value(part.children[1].text) == i + 1
  {
    CompleteRoundTrip(etags);
    DecimalRoundTrip(i + 1);
  }
}
