// Namespaces as a pass of their own: a document is its elements as written, and
// naming them is looking up each prefix in what the elements on the path from the
// root declare. Reading a document does exactly that.
module XmlNamespaces {
  import opened Common
  import opened XmlSyntax
  import opened XmlDocument
  import opened XmlRefinement

  // An element as written.
  datatype Written = Written(tag: Tag, text: string, children: seq<Written>)

  datatype WrittenInner = WrittenInner(text: string, children: seq<Written>)

  function WrittenContent(s: string, depth: nat, sofar: WrittenInner): (p: Parsed<WrittenInner>)
    ensures p.Ok? ==> |p.rest| <= |s| && "</" <= p.rest && sofar.children <= p.value.children
    decreases |s|, 1
  {
    if |s| == 0 then Fail
    else if s[0] != '<' then
      match Text(s)
      case Fail => Fail
      case Ok(text, rest) => WrittenContent(rest, depth, sofar.(text := sofar.text + text))
    else if "<!--" <= s then
      match Comment(s)
      case Fail => Fail
      case Ok(_, rest) => WrittenContent(rest, depth, sofar)
    else if "<![CDATA[" <= s then
      match Cdata(s)
      case Fail => Fail
      case Ok(text, rest) => WrittenContent(rest, depth, sofar.(text := sofar.text + text))
    else if "</" <= s then Ok(sofar, s)
    else if "<!" <= s || "<?" <= s then Fail
    else
      match WrittenElement(s, depth)
      case Fail => Fail
      case Ok(x, rest) => WrittenContent(rest, depth, sofar.(children := sofar.children + [x]))
  }

  function WrittenElement(s: string, depth: nat): (p: Parsed<Written>)
    requires |s| > 0 && s[0] == '<'
    ensures p.Ok? ==> |p.rest| < |s|
    decreases |s|, 0
  {
    if depth >= MAX_DEPTH then Fail
    else
      match StartTag(s)
      case Fail => Fail
      case Ok(tag, rest) =>
        if tag.selfClosing then Ok(Written(tag, "", []), rest) else WrittenBody(rest, tag, depth + 1)
  }

  function WrittenBody(s: string, tag: Tag, depth: nat): (p: Parsed<Written>)
    ensures p.Ok? ==> |p.rest| < |s|
    decreases |s|, 2
  {
    match WrittenContent(s, depth, WrittenInner("", []))
    case Fail => Fail
    case Ok(inner, rest) => WrittenEnded(rest, tag, inner)
  }

  function WrittenEnded(s: string, tag: Tag, inner: WrittenInner): (p: Parsed<Written>)
    requires "</" <= s
    ensures p.Ok? ==> |p.rest| < |s|
  {
    match EndTag(s)
    case Fail => Fail
    case Ok(closing, rest) =>
      if closing != tag.name then Fail else Ok(Written(tag, inner.text, inner.children), rest)
  }

  // The root element as written.
  function WrittenDocument(input: string): Option<Written> {
    if !XmlCharacters(input) || WithoutPreamble(input).None? then None
    else
      match Outside(WithoutPreamble(input).value)
      case None => None
      case Some(start) =>
        if |start| == 0 || Markup(start) then None
        else
          match WrittenElement(start, 0)
          case Fail => None
          case Ok(root, rest) => if Outside(rest) == Some("") then Some(root) else None
  }

  // ------------------------------------------------------------------------ naming

  // The element with its namespaces, if all its prefixes are declared.
  function Named(bindings: seq<Binding>, x: Written): Option<Node>
    decreases x
  {
    match Open(bindings, x.tag)
    case None => None
    case Some(scope) =>
      match NamedAll(scope.bindings, x.children)
      case None => None
      case Some(children) => Some(Node(x.tag.name.local, scope.uri, x.text, children))
  }

  function NamedAll(bindings: seq<Binding>, xs: seq<Written>): Option<seq<Node>>
    decreases xs
  {
    if |xs| == 0 then Some([])
    else
      match (NamedAll(bindings, xs[..|xs| - 1]), Named(bindings, xs[|xs| - 1]))
      case (Some(nodes), Some(node)) => Some(nodes + [node])
      case _ => None
  }

  lemma NamedNext(bindings: seq<Binding>, xs: seq<Written>, x: Written)
    ensures NamedAll(bindings, xs + [x]) ==
      if NamedAll(bindings, xs).Some? && Named(bindings, x).Some?
      then Some(NamedAll(bindings, xs).value + [Named(bindings, x).value]) else None
  {
    assert (xs + [x])[..|xs|] == xs;
  }

  lemma {:induction false} NamedPrefix(bindings: seq<Binding>, xs: seq<Written>, ys: seq<Written>)
    requires xs <= ys && NamedAll(bindings, ys).Some?
    ensures NamedAll(bindings, xs).Some?
    decreases |ys|
  {
    if |xs| < |ys| {
      NamedPrefix(bindings, xs, ys[..|ys| - 1]);
    } else {
      assert xs == ys;
    }
  }

  lemma NamedLast(bindings: seq<Binding>, xs: seq<Written>)
    requires |xs| > 0 && NamedAll(bindings, xs).Some?
    ensures var n := |xs| - 1;
      && NamedAll(bindings, xs[..n]).Some? && Named(bindings, xs[n]).Some?
      && NamedAll(bindings, xs).value == NamedAll(bindings, xs[..n]).value + [Named(bindings, xs[n]).value]
  {
  }

  // The same as a property of positions.
  ghost predicate Each(bindings: seq<Binding>, xs: seq<Written>, nodes: seq<Node>) {
    |nodes| == |xs| && forall i :: 0 <= i < |xs| ==> Named(bindings, xs[i]) == Some(nodes[i])
  }

  lemma EachNext(bindings: seq<Binding>, init: seq<Written>, before: seq<Node>, x: Written, node: Node)
    requires Each(bindings, init, before) && Named(bindings, x) == Some(node)
    ensures Each(bindings, init + [x], before + [node])
  {
  }

  lemma {:induction false} NamedEach(bindings: seq<Binding>, xs: seq<Written>)
    requires NamedAll(bindings, xs).Some?
    ensures Each(bindings, xs, NamedAll(bindings, xs).value)
    decreases |xs|
  {
    if |xs| > 0 {
      var init, x := xs[..|xs| - 1], xs[|xs| - 1];
      NamedLast(bindings, xs);
      NamedEach(bindings, init);
      EachNext(bindings, init, NamedAll(bindings, init).value, x, Named(bindings, x).value);
      assert init + [x] == xs;
    }
  }

  // ------------------------------------------------- reading is writing, then naming

  function NamedParse(bindings: seq<Binding>, p: Parsed<Written>): Parsed<Node> {
    match p
    case Fail => Fail
    case Ok(x, rest) => if Named(bindings, x).Some? then Ok(Named(bindings, x).value, rest) else Fail
  }

  function NamedInner(bindings: seq<Binding>, p: Parsed<WrittenInner>): Parsed<Inner> {
    match p
    case Fail => Fail
    case Ok(inner, rest) =>
      var children := NamedAll(bindings, inner.children);
      if children.Some? then Ok(Inner(inner.text, children.value), rest) else Fail
  }

  ghost predicate Names(bindings: seq<Binding>, sofar: WrittenInner, inner: Inner) {
    inner.text == sofar.text && NamedAll(bindings, sofar.children) == Some(inner.children)
  }

  // An element whose names cannot be resolved makes its parent fail, wherever the
  // parent ends.
  lemma UnnamedFails(s: string, bindings: seq<Binding>, depth: nat, sofar: WrittenInner)
    requires NamedAll(bindings, sofar.children).None?
    ensures NamedInner(bindings, WrittenContent(s, depth, sofar)).Fail?
  {
    var p := WrittenContent(s, depth, sofar);
    if p.Ok? && NamedAll(bindings, p.value.children).Some? {
      NamedPrefix(bindings, sofar.children, p.value.children);
      assert false;
    }
  }

  // Character data, in whatever form.
  predicate DataFirst(s: string) {
    |s| > 0 && (s[0] != '<' || "<!--" <= s || "<![CDATA[" <= s)
  }

  function FirstData(s: string): (p: Parsed<string>)
    requires DataFirst(s)
    ensures p.Ok? ==> |p.rest| < |s|
  {
    if s[0] != '<' then Text(s)
    else if "<!--" <= s then
      match Comment(s)
      case Fail => Fail
      case Ok(_, rest) => Ok("", rest)
    else Cdata(s)
  }

  lemma DataUnfolds(s: string, bindings: seq<Binding>, depth: nat, sofar: WrittenInner, inner: Inner)
    requires DataFirst(s)
    ensures Content(s, bindings, depth, inner) ==
      match FirstData(s) {
        case Fail => Fail
        case Ok(text, rest) => Content(rest, bindings, depth, inner.(text := inner.text + text))
      }
    ensures WrittenContent(s, depth, sofar) ==
      match FirstData(s) {
        case Fail => Fail
        case Ok(text, rest) => WrittenContent(rest, depth, sofar.(text := sofar.text + text))
      }
  {
    assert inner.text + "" == inner.text && sofar.text + "" == sofar.text;
  }

  lemma DataIsNamed(s: string, bindings: seq<Binding>, depth: nat, sofar: WrittenInner, inner: Inner)
    requires Names(bindings, sofar, inner) && DataFirst(s)
    ensures Content(s, bindings, depth, inner) == NamedInner(bindings, WrittenContent(s, depth, sofar))
    decreases |s|, 0, 2
  {
    DataUnfolds(s, bindings, depth, sofar, inner);
    match FirstData(s)
    case Fail =>
    case Ok(text, rest) =>
      ContentIsNamed(rest, bindings, depth, sofar.(text := sofar.text + text), inner.(text := inner.text + text));
  }

  lemma EndUnfolds(s: string, bindings: seq<Binding>, depth: nat, sofar: WrittenInner, inner: Inner)
    requires !DataFirst(s) && !ElementFirst(s)
    ensures Content(s, bindings, depth, inner) == if "</" <= s then Ok(inner, s) else Fail
    ensures WrittenContent(s, depth, sofar) == if "</" <= s then Ok(sofar, s) else Fail
  {
  }

  lemma {:induction false} ContentIsNamed(s: string, bindings: seq<Binding>, depth: nat, sofar: WrittenInner,
                                          inner: Inner)
    requires Names(bindings, sofar, inner)
    ensures Content(s, bindings, depth, inner) == NamedInner(bindings, WrittenContent(s, depth, sofar))
    decreases |s|, 1
  {
    if DataFirst(s) {
      DataIsNamed(s, bindings, depth, sofar, inner);
    } else if ElementFirst(s) {
      ChildIsNamed(s, bindings, depth, sofar, inner);
    } else {
      EndUnfolds(s, bindings, depth, sofar, inner);
    }
  }

  predicate ElementFirst(s: string) {
    |s| > 0 && s[0] == '<' && !("<!--" <= s) && !Markup(s)
  }

  lemma ChildUnfolds(s: string, bindings: seq<Binding>, depth: nat, sofar: WrittenInner, inner: Inner)
    requires ElementFirst(s)
    ensures Content(s, bindings, depth, inner) ==
      match Element(s, bindings, depth) {
        case Fail => Fail
        case Ok(node, rest) => Content(rest, bindings, depth, inner.(children := inner.children + [node]))
      }
    ensures WrittenContent(s, depth, sofar) ==
      match WrittenElement(s, depth) {
        case Fail => Fail
        case Ok(x, rest) => WrittenContent(rest, depth, sofar.(children := sofar.children + [x]))
      }
  {
  }

  lemma ChildIsNamed(s: string, bindings: seq<Binding>, depth: nat, sofar: WrittenInner, inner: Inner)
    requires Names(bindings, sofar, inner) && ElementFirst(s)
    ensures Content(s, bindings, depth, inner) == NamedInner(bindings, WrittenContent(s, depth, sofar))
    decreases |s|, 0, 2
  {
    ChildUnfolds(s, bindings, depth, sofar, inner);
    ElementIsNamed(s, bindings, depth);
    match WrittenElement(s, depth)
    case Fail =>
    case Ok(x, rest) =>
      var sofar1 := sofar.(children := sofar.children + [x]);
      NamedNext(bindings, sofar.children, x);
      match Named(bindings, x)
      case None => UnnamedFails(rest, bindings, depth, sofar1);
      case Some(node) =>
        ContentIsNamed(rest, bindings, depth, sofar1, inner.(children := inner.children + [node]));
  }

  lemma BodyIsNamed(s: string, bindings: seq<Binding>, tag: Tag, scope: Scope, depth: nat)
    requires Open(bindings, tag) == Some(scope)
    ensures Body(s, tag, scope, depth) == NamedParse(bindings, WrittenBody(s, tag, depth))
    decreases |s|, 2
  {
    ContentIsNamed(s, scope.bindings, depth, WrittenInner("", []), Inner("", []));
  }

  lemma BodyUnnamed(s: string, bindings: seq<Binding>, tag: Tag, depth: nat)
    requires Open(bindings, tag).None?
    ensures NamedParse(bindings, WrittenBody(s, tag, depth)).Fail?
  {
  }

  lemma ElementUnfolds(s: string, bindings: seq<Binding>, depth: nat, tag: Tag, rest: string)
    requires |s| > 0 && s[0] == '<' && depth < MAX_DEPTH && StartTag(s) == Ok(tag, rest)
    ensures Element(s, bindings, depth) ==
      match Open(bindings, tag) {
        case None => Fail
        case Some(scope) =>
          if tag.selfClosing then Ok(Node(tag.name.local, scope.uri, "", []), rest)
          else Body(rest, tag, scope, depth + 1)
      }
    ensures WrittenElement(s, depth) ==
      if tag.selfClosing then Ok(Written(tag, "", []), rest) else WrittenBody(rest, tag, depth + 1)
  {
  }

  lemma EmptyNamed(bindings: seq<Binding>, tag: Tag)
    ensures Named(bindings, Written(tag, "", [])) ==
      match Open(bindings, tag) {
        case None => None
        case Some(scope) => Some(Node(tag.name.local, scope.uri, "", []))
      }
  {
    var none: seq<Written> := [];
    assert Written(tag, "", none).children == none;
  }

  predicate Tagged(s: string, depth: nat, tag: Tag, rest: string) {
    |s| > 0 && s[0] == '<' && depth < MAX_DEPTH && StartTag(s) == Ok(tag, rest)
  }

  lemma SelfClosedIsNamed(s: string, bindings: seq<Binding>, depth: nat, tag: Tag, rest: string)
    requires Tagged(s, depth, tag, rest) && tag.selfClosing
    ensures Element(s, bindings, depth) == NamedParse(bindings, WrittenElement(s, depth))
  {
    ElementUnfolds(s, bindings, depth, tag, rest);
    EmptyNamed(bindings, tag);
  }

  lemma OpenIsNamed(s: string, bindings: seq<Binding>, depth: nat, tag: Tag, rest: string)
    requires Tagged(s, depth, tag, rest) && !tag.selfClosing
    ensures Element(s, bindings, depth) == NamedParse(bindings, WrittenElement(s, depth))
    decreases |s|, 0, 0
  {
    ElementUnfolds(s, bindings, depth, tag, rest);
    var body := WrittenBody(rest, tag, depth + 1);
    assert WrittenElement(s, depth) == body;
    match Open(bindings, tag)
    case None => BodyUnnamed(rest, bindings, tag, depth + 1);
    case Some(scope) =>
      assert Element(s, bindings, depth) == Body(rest, tag, scope, depth + 1);
      BodyIsNamed(rest, bindings, tag, scope, depth + 1);
  }

  lemma {:induction false} ElementIsNamed(s: string, bindings: seq<Binding>, depth: nat)
    requires |s| > 0 && s[0] == '<'
    ensures Element(s, bindings, depth) == NamedParse(bindings, WrittenElement(s, depth))
    decreases |s|, 0, 1
  {
    if depth < MAX_DEPTH && StartTag(s).Ok? {
      var tag, rest := StartTag(s).value, StartTag(s).rest;
      if tag.selfClosing {
        SelfClosedIsNamed(s, bindings, depth, tag, rest);
      } else {
        OpenIsNamed(s, bindings, depth, tag, rest);
      }
    }
  }

  // Reading a document is reading it as written and then naming its elements.
  lemma ReadingIsNaming(input: string)
    ensures ParseDocument(input) ==
      match WrittenDocument(input) {
        case None => None
        case Some(x) => Named(PREDECLARED, x)
      }
  {
    ReaderIsRecursive(input);
    if XmlCharacters(input) && WithoutPreamble(input).Some? {
      match Outside(WithoutPreamble(input).value)
      case None =>
      case Some(start) => if |start| > 0 && !Markup(start) { ElementIsNamed(start, PREDECLARED, 0); }
    }
  }

  // ------------------------------------------------------------------------- paths

  // The element at a path of child positions.
  function WrittenAt(x: Written, path: seq<nat>): Option<Written> {
    if |path| == 0 then Some(x)
    else if path[0] < |x.children| then WrittenAt(x.children[path[0]], path[1..])
    else None
  }

  function NodeAt(node: Node, path: seq<nat>): Option<Node> {
    if |path| == 0 then Some(node)
    else if path[0] < |node.children| then NodeAt(node.children[path[0]], path[1..])
    else None
  }

  // What the elements on the path declare, from the root to the element itself.
  function Along(x: Written, path: seq<nat>): seq<Binding>
    requires WrittenAt(x, path).Some?
  {
    Declarations(x.tag.attributes) + if |path| == 0 then [] else Along(x.children[path[0]], path[1..])
  }

  predicate AllLegal(bindings: seq<Binding>) {
    forall i :: 0 <= i < |bindings| ==> LegalBinding(bindings[i].prefix, bindings[i].uri)
  }

  // What naming makes of one element and the bindings on its path.
  predicate NamedBy(bindings: seq<Binding>, element: Written, node: Node) {
    && node.local == element.tag.name.local && node.text == element.text
    && |node.children| == |element.children|
    && Resolve(bindings, element.tag.name, false) == Some(node.uri)
  }

  // The element itself, and how its children are named.
  lemma NamedHere(bindings: seq<Binding>, x: Written)
    requires Named(bindings, x).Some?
    ensures var inner := bindings + Declarations(x.tag.attributes);
      && AllLegal(Declarations(x.tag.attributes))
      && NamedBy(inner, x, Named(bindings, x).value)
      && NamedAll(inner, x.children) == Some(Named(bindings, x).value.children)
  {
    DeclaredExactly(bindings, x.tag.attributes);
    var scope := Open(bindings, x.tag).value;
    NamedEach(scope.bindings, x.children);
  }

  lemma Appended(a: seq<Binding>, b: seq<Binding>, c: seq<Binding>)
    ensures a + (b + c) == (a + b) + c
  {
  }

  lemma {:induction false} NamedAt(bindings: seq<Binding>, x: Written, path: seq<nat>)
    requires Named(bindings, x).Some?
    ensures WrittenAt(x, path).Some? <==> NodeAt(Named(bindings, x).value, path).Some?
    ensures WrittenAt(x, path).Some? ==>
      && AllLegal(Along(x, path))
      && NamedBy(bindings + Along(x, path), WrittenAt(x, path).value, NodeAt(Named(bindings, x).value, path).value)
    decreases |path|
  {
    NamedHere(bindings, x);
    var own := Declarations(x.tag.attributes);
    if |path| == 0 {
      assert own + [] == own;
    } else if path[0] < |x.children| {
      var child := x.children[path[0]];
      NamedEach(bindings + own, x.children);
      NamedAt(bindings + own, child, path[1..]);
      if WrittenAt(child, path[1..]).Some? {
        Appended(bindings, own, Along(child, path[1..]));
      }
    }
  }

  // Innermost binding of `prefix` in `bindings`, if there is one; only an element
  // without prefix can do without.
  ghost predicate Binds(bindings: seq<Binding>, prefix: string, uri: string) {
    if exists i :: 0 <= i < |bindings| && bindings[i].prefix == prefix
    then exists i: nat :: InnermostAt(bindings, Binding(prefix, uri), i)
    else prefix == "" && uri == ""
  }

  // Every node of an accepted document stands where an element was written, and its
  // URI is the innermost binding of that element's prefix among the predeclared one
  // and those that the elements from the root to it declare.
  lemma NodeNamespaces(input: string, path: seq<nat>)
    requires ParseDocument(input).Some?
    ensures WrittenDocument(input).Some?
    ensures var x, root := WrittenDocument(input).value, ParseDocument(input).value;
      && (WrittenAt(x, path).Some? <==> NodeAt(root, path).Some?)
      && (NodeAt(root, path).Some? ==>
            var element, node := WrittenAt(x, path).value, NodeAt(root, path).value;
            && node.local == element.tag.name.local && node.text == element.text
            && |node.children| == |element.children|
            && Binds(PREDECLARED + Along(x, path), element.tag.name.prefix, node.uri))
  {
    ReadingIsNaming(input);
    NamedAt(PREDECLARED, WrittenDocument(input).value, path);
  }

  // The prefix xml means its own namespace everywhere, declared or not.
  lemma XmlPrefix(input: string, path: seq<nat>)
    requires ParseDocument(input).Some? && WrittenDocument(input).Some?
    requires WrittenAt(WrittenDocument(input).value, path).Some?
    requires WrittenAt(WrittenDocument(input).value, path).value.tag.name.prefix == "xml"
    ensures NodeAt(ParseDocument(input).value, path).Some?
    ensures NodeAt(ParseDocument(input).value, path).value.uri == XML_NAMESPACE
  {
    var x := WrittenDocument(input).value;
    ReadingIsNaming(input);
    NamedAt(PREDECLARED, x, path);
    var bindings := PREDECLARED + Along(x, path);
    assert bindings[0] == PREDECLARED[0];
    var i: nat :| InnermostAt(bindings, Binding("xml", NodeAt(ParseDocument(input).value, path).value.uri), i);
    if i > 0 { assert bindings[i] == Along(x, path)[i - 1]; }
  }
}
