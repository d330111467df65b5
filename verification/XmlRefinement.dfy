// The stack machine of S3XMLReader accepts the documents of the recursive
// definition and builds their trees.
module XmlRefinement {
  import opened Common
  import opened XmlSyntax
  import opened XmlDocument

  // The machine with the top element finished: what is left to do once its end tag
  // has been read.
  function Finish(r: Reader, p: Parsed<Inner>): Option<Node>
    requires Scoped(r) && |r.elements| > 0 && (p.Ok? ==> "</" <= p.rest)
  {
    match p
    case Fail => None
    case Ok(inner, rest) =>
      var r1 := WithTop(r, Top(r).(text := inner.text, children := inner.children)).(rest := rest);
      match StepEnd(r1)
      case None => None
      case Some(r2) => Loop(r2)
  }

  function InnerOf(r: Reader): Inner
    requires |r.elements| > 0
  {
    Inner(Top(r).text, Top(r).children)
  }

  function ContentOf(r: Reader): (p: Parsed<Inner>)
    requires |r.elements| > 0
    ensures p.Ok? ==> |p.rest| <= |r.rest| && "</" <= p.rest
  {
    Content(r.rest, r.namespaces, |r.elements|, InnerOf(r))
  }

  // `r'` is `r` further on in the content of the same element.
  predicate Further(r: Reader, r': Reader) {
    && |r.elements| > 0 && |r'.elements| == |r.elements|
    && r' == WithTop(r, Top(r).(text := Top(r').text, children := Top(r').children)).(rest := r'.rest)
  }

  lemma FinishFurther(r: Reader, r': Reader, p: Parsed<Inner>)
    requires Scoped(r) && Scoped(r') && Further(r, r') && (p.Ok? ==> "</" <= p.rest)
    ensures Finish(r, p) == Finish(r', p)
  {
    if p.Ok? {
      var f := Top(r).(text := p.value.text, children := p.value.children);
      assert WithTop(r, f).(rest := p.rest) == WithTop(r', f).(rest := p.rest);
    }
  }

  // A child has been read.
  function WithChild(r: Reader, node: Node, rest: string): (r': Reader)
    requires |r.elements| > 0
    ensures Scoped(r) ==> Scoped(r')
    ensures Further(r, r') && r'.rest == rest && r'.namespaces == r.namespaces
    ensures InnerOf(r') == InnerOf(r).(children := InnerOf(r).children + [node])
  {
    WithTop(r, Top(r).(children := Top(r).children + [node])).(rest := rest)
  }

  function Filled(r: Reader, inner: Inner, rest: string): (r': Reader)
    requires |r.elements| > 0
    ensures Scoped(r) ==> Scoped(r')
  {
    WithTop(r, Top(r).(text := inner.text, children := inner.children)).(rest := rest)
  }

  // Its frame is gone then, and so are its bindings.
  lemma ChildClosed(r: Reader, tag: Tag, scope: Scope, inner: Inner, rest: string, after: string)
    requires Scoped(r) && 0 < |r.elements| < MAX_DEPTH && r.namespaces <= scope.bindings
    ensures var node := Node(tag.name.local, scope.uri, inner.text, inner.children);
      Close(Filled(Push(r, tag, scope), inner, rest).(rest := after)) == WithChild(r, node, after)
  {
    var full := Filled(Push(r, tag, scope), inner, rest);
    assert full.elements[..|full.elements| - 1] == r.elements;
    assert full.namespaces[..|r.namespaces|] == r.namespaces;
  }

  lemma SelfClosed(r: Reader, tag: Tag, scope: Scope, rest: string)
    requires Scoped(r) && 0 < |r.elements| < MAX_DEPTH && r.namespaces <= scope.bindings
    ensures Close(Push(r.(rest := rest), tag, scope)) == WithChild(r, Node(tag.name.local, scope.uri, "", []), rest)
  {
    ChildClosed(r, tag, scope, Inner("", []), rest, rest);
    var pushed := Push(r, tag, scope);
    assert Filled(pushed, Inner("", []), rest) == Push(r.(rest := rest), tag, scope);
  }

  // Finishing the child is reading its end tag and going on in the parent.
  lemma FinishChild(r: Reader, tag: Tag, scope: Scope, rest: string, p: Parsed<Inner>)
    requires Scoped(r) && 0 < |r.elements| < MAX_DEPTH && r.namespaces <= scope.bindings
    requires p.Ok? ==> "</" <= p.rest
    ensures Finish(Push(r.(rest := rest), tag, scope), p) ==
      match p {
        case Fail => None
        case Ok(inner, end) =>
          match Ended(end, tag.name, scope.uri, inner) {
            case Fail => None
            case Ok(node, after) => Loop(WithChild(r, node, after))
          }
      }
  {
    if p.Ok? {
      var full := Filled(Push(r.(rest := rest), tag, scope), p.value, p.rest);
      assert full == Filled(Push(r, tag, scope), p.value, p.rest);
      EndCloses(full);
      var ended := Ended(p.rest, tag.name, scope.uri, p.value);
      if ended.Ok? { ChildClosed(r, tag, scope, p.value, p.rest, ended.rest); }
    }
  }

  ghost predicate Simulated(r: Reader)
    requires Scoped(r) && |r.elements| > 0
  {
    Loop(r) == Finish(r, ContentOf(r))
  }

  lemma Continues(r: Reader, r': Reader)
    requires Scoped(r) && Scoped(r') && Further(r, r') && ContentOf(r') == ContentOf(r)
    requires Simulated(r') && Loop(r) == Loop(r')
    ensures Simulated(r)
  {
    FinishFurther(r, r', ContentOf(r));
  }

  // A start tag inside an element: what either side makes of it.
  predicate Starts(r: Reader) {
    Scoped(r) && |r.elements| > 0 && |r.rest| > 0 && r.rest[0] == '<' && !("<!--" <= r.rest) && !Markup(r.rest)
  }

  predicate Opens(r: Reader, tag: Tag, rest: string, scope: Scope) {
    && |r.elements| < MAX_DEPTH && |r.rest| > 0 && r.rest[0] == '<'
    && StartTag(r.rest) == Ok(tag, rest) && Open(r.namespaces, tag) == Some(scope)
  }

  lemma StartFails(r: Reader)
    requires Starts(r)
    requires |r.elements| >= MAX_DEPTH || StartTag(r.rest).Fail? || Open(r.namespaces, StartTag(r.rest).value).None?
    ensures Simulated(r)
  {
    assert Step(r) == StepStart(r) == None;
    assert Element(r.rest, r.namespaces, |r.elements|).Fail?;
    assert ContentOf(r).Fail?;
  }

  lemma LoopStarts(r: Reader, tag: Tag, rest: string, scope: Scope)
    requires Starts(r) && Opens(r, tag, rest, scope)
    ensures var pushed := Push(r.(rest := rest), tag, scope);
      Loop(r) == Loop(if tag.selfClosing then Close(pushed) else pushed)
  {
    assert Step(r) == StepStart(r);
  }

  lemma ElementStarts(r: Reader, tag: Tag, rest: string, scope: Scope)
    requires Starts(r) && Opens(r, tag, rest, scope)
    ensures Element(r.rest, r.namespaces, |r.elements|)
      == if tag.selfClosing then Ok(Node(tag.name.local, scope.uri, "", []), rest)
         else Body(rest, tag, scope, |r.elements| + 1)
  {
  }

  lemma ContentStarts(r: Reader)
    requires Starts(r)
    ensures var element := Element(r.rest, r.namespaces, |r.elements|);
      ContentOf(r) == if element.Fail? then Fail else ContentOf(WithChild(r, element.value, element.rest))
  {
  }

  lemma SimulatesChild(r: Reader, tag: Tag, rest: string, scope: Scope)
    requires Starts(r) && Opens(r, tag, rest, scope)
    ensures Simulated(r)
    decreases |r.rest|, 0
  {
    LoopStarts(r, tag, rest, scope);
    ElementStarts(r, tag, rest, scope);
    ContentStarts(r);
    if tag.selfClosing {
      SelfClosed(r, tag, scope, rest);
      var next := WithChild(r, Node(tag.name.local, scope.uri, "", []), rest);
      Simulates(next);
      Continues(r, next);
    } else {
      var pushed := Push(r.(rest := rest), tag, scope);
      Simulates(pushed);
      FinishChild(r, tag, scope, rest, ContentOf(pushed));
      var body := Body(rest, tag, scope, |r.elements| + 1);
      if body.Ok? {
        var next := WithChild(r, body.value, body.rest);
        Simulates(next);
        Continues(r, next);
      }
    }
  }

  // Anything else inside an element, with more of its content to come.
  predicate Continued(r: Reader) {
    && Scoped(r) && |r.elements| > 0 && |r.rest| > 0
    && (r.rest[0] != '<' || "<!--" <= r.rest || "<![CDATA[" <= r.rest)
  }

  lemma DataSteps(r: Reader)
    requires Continued(r)
    ensures match Step(r)
      case None => ContentOf(r) == Fail
      case Some(next) => Further(r, next) && ContentOf(next) == ContentOf(r)
  {
  }

  lemma SimulatesData(r: Reader)
    requires Continued(r)
    ensures Simulated(r)
    decreases |r.rest|, 0
  {
    DataSteps(r);
    if Step(r).Some? {
      Simulates(Step(r).value);
      Continues(r, Step(r).value);
    }
  }

  lemma EndTagOnly(s: string)
    requires "</" <= s
    ensures s[0] == '<' && !("<!--" <= s) && !("<![CDATA[" <= s)
  {
    assert "</"[0] == '<' && "</"[1] == '/' && "<!--"[1] == '!' && "<![CDATA["[1] == '!';
  }

  // The machine at an end tag.
  function AfterEnd(r: Reader): Option<Node>
    requires Scoped(r) && "</" <= r.rest
  {
    match StepEnd(r)
    case None => None
    case Some(next) => Loop(next)
  }

  lemma EndLoops(r: Reader)
    requires Scoped(r) && |r.elements| > 0 && "</" <= r.rest
    ensures Loop(r) == AfterEnd(r) && ContentOf(r) == Ok(InnerOf(r), r.rest)
  {
    EndTagOnly(r.rest);
    assert Step(r) == StepEnd(r);
  }

  lemma EndFinishes(r: Reader)
    requires Scoped(r) && |r.elements| > 0 && "</" <= r.rest
    ensures Finish(r, Ok(InnerOf(r), r.rest)) == AfterEnd(r)
  {
    assert Filled(r, InnerOf(r), r.rest) == r;
  }

  lemma SimulatesEnd(r: Reader)
    requires Scoped(r) && |r.elements| > 0 && "</" <= r.rest
    ensures Simulated(r)
  {
    EndLoops(r);
    EndFinishes(r);
  }

  lemma SimulatesRefused(r: Reader)
    requires Scoped(r) && |r.elements| > 0
    requires |r.rest| > 0 ==> r.rest[0] == '<' && !("<!--" <= r.rest) && !("<![CDATA[" <= r.rest)
    requires |r.rest| > 0 ==> !("</" <= r.rest) && ("<!" <= r.rest || "<?" <= r.rest)
    ensures Simulated(r)
  {
    assert ContentOf(r) == Fail;
    if |r.rest| > 0 { assert Step(r) == None; }
  }

  lemma SimulatesElement(r: Reader)
    requires Starts(r)
    ensures Simulated(r)
    decreases |r.rest|, 1
  {
    if |r.elements| < MAX_DEPTH && StartTag(r.rest).Ok? && Open(r.namespaces, StartTag(r.rest).value).Some? {
      var Ok(tag, rest) := StartTag(r.rest);
      SimulatesChild(r, tag, rest, Open(r.namespaces, tag).value);
    } else {
      StartFails(r);
    }
  }

  // An open element takes the machine through exactly its content.
  lemma {:induction false} Simulates(r: Reader)
    requires Scoped(r) && |r.elements| > 0
    ensures Simulated(r)
    decreases |r.rest|, 2
  {
    if |r.rest| == 0 {
      SimulatesRefused(r);
    } else if r.rest[0] != '<' || "<!--" <= r.rest || "<![CDATA[" <= r.rest {
      SimulatesData(r);
    } else if "</" <= r.rest {
      SimulatesEnd(r);
    } else if "<!" <= r.rest || "<?" <= r.rest {
      SimulatesRefused(r);
    } else {
      SimulatesElement(r);
    }
  }

  // ------------------------------------------------------------- outside the root

  function Closed(root: Node, rest: string): (r: Reader)
    ensures Scoped(r)
  {
    Reader(rest, true, true, Some(root), PREDECLARED, [])
  }

  lemma {:induction false} LoopClosed(root: Node, rest: string)
    ensures Loop(Closed(root, rest)) == if Outside(rest) == Some("") then Some(root) else None
    decreases |rest|
  {
    if |rest| > 0 {
      var r := Closed(root, rest);
      if rest[0] != '<' {
        var end := Find(rest, '<');
        if forall i :: 0 <= i < end ==> Whitespace(rest[i]) {
          LoopClosed(root, rest[end..]);
          assert Step(r) == Some(Closed(root, rest[end..]));
        }
      } else if "<!--" <= rest {
        if Comment(rest).Ok? { LoopClosed(root, Comment(rest).rest); }
      } else {
        assert Step(r) == None;
      }
    }
  }

  // A full element at its end tag.
  lemma EndCloses(r: Reader)
    requires Scoped(r) && |r.elements| > 0 && "</" <= r.rest
    ensures AfterEnd(r) ==
      match Ended(r.rest, Top(r).name, Top(r).uri, InnerOf(r)) {
        case Fail => None
        case Ok(_, after) => Loop(Close(r.(rest := after)))
      }
  {
  }

  lemma FinishRoot(tag: Tag, scope: Scope, rest: string, p: Parsed<Inner>)
    requires PREDECLARED <= scope.bindings && (p.Ok? ==> "</" <= p.rest)
    ensures Finish(Push(Begin(rest), tag, scope), p) ==
      match p {
        case Fail => None
        case Ok(inner, end) =>
          match Ended(end, tag.name, scope.uri, inner) {
            case Fail => None
            case Ok(node, after) => Loop(Closed(node, after))
          }
      }
  {
    if p.Ok? {
      EndCloses(Filled(Push(Begin(rest), tag, scope), p.value, p.rest));
      var ended := Ended(p.rest, tag.name, scope.uri, p.value);
      if ended.Ok? { RootClosed(tag, scope, p.value, rest, p.rest, ended.rest); }
    }
  }

  lemma RootClosed(tag: Tag, scope: Scope, inner: Inner, rest: string, end: string, after: string)
    requires PREDECLARED <= scope.bindings
    ensures var node := Node(tag.name.local, scope.uri, inner.text, inner.children);
      Close(Filled(Push(Begin(rest), tag, scope), inner, end).(rest := after)) == Closed(node, after)
  {
    var full := Filled(Push(Begin(rest), tag, scope), inner, end);
    assert |full.elements| == 1;
    assert full.namespaces[..|PREDECLARED|] == PREDECLARED;
  }

  predicate Rooted(s: string) {
    |s| > 0 && s[0] == '<' && !("<!--" <= s) && !Markup(s)
  }

  // What is left after the root element.
  function AfterRoot(p: Parsed<Node>): Option<Node> {
    match p
    case Fail => None
    case Ok(root, rest) => if Outside(rest) == Some("") then Some(root) else None
  }

  lemma RootStarts(s: string, tag: Tag, rest: string, scope: Scope)
    requires Rooted(s) && StartTag(s) == Ok(tag, rest) && Open(PREDECLARED, tag) == Some(scope)
    ensures var pushed := Push(Begin(rest), tag, scope);
      Loop(Begin(s)) == Loop(if tag.selfClosing then Close(pushed) else pushed)
    ensures Element(s, PREDECLARED, 0)
      == if tag.selfClosing then Ok(Node(tag.name.local, scope.uri, "", []), rest) else Body(rest, tag, scope, 1)
  {
    assert Begin(s).(rest := rest) == Begin(rest);
    assert Step(Begin(s)) == StepStart(Begin(s));
  }

  lemma RootFails(s: string)
    requires Rooted(s) && (StartTag(s).Fail? || Open(PREDECLARED, StartTag(s).value).None?)
    ensures Loop(Begin(s)) == None && Element(s, PREDECLARED, 0).Fail?
  {
    assert Step(Begin(s)) == StepStart(Begin(s)) == None;
  }

  lemma RootEmpty(tag: Tag, scope: Scope, rest: string)
    requires PREDECLARED <= scope.bindings
    ensures var root := Node(tag.name.local, scope.uri, "", []);
      Loop(Close(Push(Begin(rest), tag, scope))) == AfterRoot(Ok(root, rest))
  {
    RootClosed(tag, scope, Inner("", []), rest, rest, rest);
    var pushed := Push(Begin(rest), tag, scope);
    assert Filled(pushed, Inner("", []), rest) == pushed;
    LoopClosed(Node(tag.name.local, scope.uri, "", []), rest);
  }

  lemma RootBody(tag: Tag, scope: Scope, rest: string)
    requires PREDECLARED <= scope.bindings
    ensures Loop(Push(Begin(rest), tag, scope)) == AfterRoot(Body(rest, tag, scope, 1))
  {
    var pushed := Push(Begin(rest), tag, scope);
    Simulates(pushed);
    FinishRoot(tag, scope, rest, ContentOf(pushed));
    var body := Body(rest, tag, scope, 1);
    if body.Ok? { LoopClosed(body.value, body.rest); }
  }

  lemma LoopRoot(s: string)
    requires Rooted(s)
    ensures Loop(Begin(s)) == AfterRoot(Element(s, PREDECLARED, 0))
  {
    if StartTag(s).Ok? && Open(PREDECLARED, StartTag(s).value).Some? {
      var Ok(tag, rest) := StartTag(s);
      var scope := Open(PREDECLARED, tag).value;
      RootStarts(s, tag, rest, scope);
      if tag.selfClosing { RootEmpty(tag, scope, rest); } else { RootBody(tag, scope, rest); }
    } else {
      RootFails(s);
    }
  }

  lemma {:induction false} LoopBegin(s: string)
    ensures Loop(Begin(s)) == Tree(s)
    decreases |s|
  {
    if |s| > 0 {
      var r := Begin(s);
      if s[0] != '<' {
        var end := Find(s, '<');
        if forall i :: 0 <= i < end ==> Whitespace(s[i]) {
          LoopBegin(s[end..]);
          assert Step(r) == Some(Begin(s[end..]));
        }
      } else if "<!--" <= s {
        if Comment(s).Ok? { LoopBegin(Comment(s).rest); }
      } else if Markup(s) {
        assert Step(r) == None;
      } else {
        LoopRoot(s);
      }
    }
  }

  // The reader accepts exactly the recursively defined documents, with their trees:
  // start and end tags are paired, at most MAX_DEPTH elements are nested, and the
  // bindings of an element are those of its parent again once it is closed.
  lemma ReaderIsRecursive(input: string)
    ensures ParseDocument(input) ==
      if !XmlCharacters(input) || WithoutPreamble(input).None? then None
      else Tree(WithoutPreamble(input).value)
  {
    if WithoutPreamble(input).Some? { LoopBegin(WithoutPreamble(input).value); }
  }

  // ---------------------------------------------------- namespaces and nesting depth

  // The bindings that attributes declare, in order.
  function Declarations(attributes: seq<Attribute>): seq<Binding> {
    if |attributes| == 0 then []
    else
      var rest := Declarations(attributes[1..]);
      match Declares(attributes[0])
      case None => rest
      case Some(prefix) => [Binding(prefix, attributes[0].value)] + rest
  }

  lemma {:induction false} DeclaredExactly(bindings: seq<Binding>, attributes: seq<Attribute>)
    ensures var declared := Declarations(attributes);
      Declared(bindings, attributes) ==
        if forall i :: 0 <= i < |declared| ==> LegalBinding(declared[i].prefix, declared[i].uri)
        then Some(bindings + declared) else None
    decreases |attributes|
  {
    if |attributes| == 0 {
      assert bindings + [] == bindings;
    } else {
      var rest := Declarations(attributes[1..]);
      match Declares(attributes[0])
      case None => DeclaredExactly(bindings, attributes[1..]);
      case Some(prefix) =>
        var b := Binding(prefix, attributes[0].value);
        DeclaredExactly(bindings + [b], attributes[1..]);
        assert bindings + ([b] + rest) == bindings + [b] + rest;
        assert ([b] + rest)[0] == b;
        assert forall i :: 0 <= i < |rest| ==> ([b] + rest)[i + 1] == rest[i];
    }
  }

  // An element's URI is the innermost binding of its prefix, its own declarations
  // included; only an element without prefix can do without one.
  lemma NamespaceIsInnermost(bindings: seq<Binding>, tag: Tag)
    requires Open(bindings, tag).Some?
    ensures var scope := Open(bindings, tag).value;
      && scope.bindings == bindings + Declarations(tag.attributes)
      && if exists i :: 0 <= i < |scope.bindings| && scope.bindings[i].prefix == tag.name.prefix
         then exists i: nat :: InnermostAt(scope.bindings, Binding(tag.name.prefix, scope.uri), i)
         else tag.name.prefix == "" && scope.uri == ""
  {
    DeclaredExactly(bindings, tag.attributes);
  }

  function Depth(node: Node): nat {
    1 + DepthOf(node.children)
  }

  function DepthOf(nodes: seq<Node>): nat {
    if |nodes| == 0 then 0
    else
      var last, rest := Depth(nodes[|nodes| - 1]), DepthOf(nodes[..|nodes| - 1]);
      if last > rest then last else rest
  }

  lemma DepthNext(nodes: seq<Node>, node: Node)
    ensures DepthOf(nodes + [node]) == if Depth(node) > DepthOf(nodes) then Depth(node) else DepthOf(nodes)
  {
    assert (nodes + [node])[..|nodes|] == nodes;
  }

  lemma {:induction false} ElementDepth(s: string, bindings: seq<Binding>, depth: nat)
    requires |s| > 0 && s[0] == '<' && Element(s, bindings, depth).Ok?
    ensures depth + Depth(Element(s, bindings, depth).value) <= MAX_DEPTH
    decreases |s|, 0
  {
    var Ok(tag, rest) := StartTag(s);
    var scope := Open(bindings, tag).value;
    if !tag.selfClosing {
      ContentDepth(rest, scope.bindings, depth + 1, Inner("", []));
      assert Content(rest, scope.bindings, depth + 1, Inner("", [])).Ok?;
    }
  }

  lemma {:induction false} ContentDepth(s: string, bindings: seq<Binding>, depth: nat, sofar: Inner)
    requires depth + DepthOf(sofar.children) <= MAX_DEPTH
    ensures Content(s, bindings, depth, sofar).Ok? ==>
      depth + DepthOf(Content(s, bindings, depth, sofar).value.children) <= MAX_DEPTH
    decreases |s|, 1
  {
    if |s| == 0 {
    } else if s[0] != '<' {
      if Text(s).Ok? { ContentDepth(Text(s).rest, bindings, depth, sofar.(text := sofar.text + Text(s).value)); }
    } else if "<!--" <= s {
      if Comment(s).Ok? { ContentDepth(Comment(s).rest, bindings, depth, sofar); }
    } else if "<![CDATA[" <= s {
      if Cdata(s).Ok? { ContentDepth(Cdata(s).rest, bindings, depth, sofar.(text := sofar.text + Cdata(s).value)); }
    } else if !Markup(s) && Element(s, bindings, depth).Ok? {
      var Ok(node, rest) := Element(s, bindings, depth);
      ElementDepth(s, bindings, depth);
      DepthNext(sofar.children, node);
      ContentDepth(rest, bindings, depth, sofar.(children := sofar.children + [node]));
    }
  }

  // No accepted document nests deeper than the limit.
  lemma AcceptedDepth(input: string)
    ensures ParseDocument(input).Some? ==> Depth(ParseDocument(input).value) <= MAX_DEPTH
  {
    ReaderIsRecursive(input);
    if ParseDocument(input).Some? {
      var start := Outside(WithoutPreamble(input).value).value;
      ElementDepth(start, PREDECLARED, 0);
    }
  }
}
