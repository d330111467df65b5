// The structural half of S3XMLReader: its stack machine over open elements and
// namespace bindings, and a recursive definition of the documents it accepts, in
// which bindings are lexically scoped and tags are paired by construction. The two
// are proved equal on every input.
module XmlDocument {
  import opened Common
  import opened XmlSyntax

  datatype Node = Node(local: string, uri: string, text: string, children: seq<Node>)

  datatype Binding = Binding(prefix: string, uri: string)

  // An open element; `scope` is the number of bindings before it.
  datatype Frame = Frame(name: QName, uri: string, text: string, scope: nat, children: seq<Node>)

  const MAX_DEPTH: nat := 256
  const XML_NAMESPACE := "http://www.w3.org/XML/1998/namespace"
  const XMLNS_NAMESPACE := "http://www.w3.org/2000/xmlns/"

  // ------------------------------------------------------------------ namespaces

  // The binding that is there before any element declares one.
  const PREDECLARED: seq<Binding> := [Binding("xml", XML_NAMESPACE)]

  // The binding that an attribute declares, if any.
  function Declares(a: Attribute): Option<string> {
    if a.name.prefix == "" && a.name.local == "xmlns" then Some("")
    else if a.name.prefix == "xmlns" then Some(a.name.local)
    else None
  }

  predicate LegalBinding(prefix: string, uri: string) {
    && prefix != "xmlns" && uri != XMLNS_NAMESPACE
    && (if prefix == "xml" then uri == XML_NAMESPACE else uri != XML_NAMESPACE && (prefix == "" || uri != ""))
  }

  function Declared(bindings: seq<Binding>, attributes: seq<Attribute>): (r: Option<seq<Binding>>)
    ensures r.Some? ==> bindings <= r.value
    decreases |attributes|
  {
    if |attributes| == 0 then Some(bindings)
    else
      match Declares(attributes[0])
      case None => Declared(bindings, attributes[1..])
      case Some(prefix) =>
        if !LegalBinding(prefix, attributes[0].value) then None
        else Declared(bindings + [Binding(prefix, attributes[0].value)], attributes[1..])
  }

  ghost predicate InnermostAt(bindings: seq<Binding>, b: Binding, i: nat) {
    && i < |bindings| && bindings[i] == b
    && forall j :: i < j < |bindings| ==> bindings[j].prefix != b.prefix
  }

  // The URI of the innermost binding of `prefix`.
  function Innermost(bindings: seq<Binding>, prefix: string): (uri: Option<string>)
    ensures uri.Some? <==> exists i :: 0 <= i < |bindings| && bindings[i].prefix == prefix
    ensures uri.Some? ==> exists i: nat :: InnermostAt(bindings, Binding(prefix, uri.value), i)
  {
    if |bindings| == 0 then None
    else
      var last := bindings[|bindings| - 1];
      if last.prefix == prefix then
        assert InnermostAt(bindings, Binding(prefix, last.uri), |bindings| - 1);
        Some(last.uri)
      else
        var rest := bindings[..|bindings| - 1];
        assert forall b, i: nat :: InnermostAt(rest, b, i) && b.prefix == prefix ==> InnermostAt(bindings, b, i);
        Innermost(rest, prefix)
  }

  function Resolve(bindings: seq<Binding>, name: QName, attribute: bool): Option<string> {
    if name.prefix == "xmlns" then None
    else if name.prefix == "" && attribute then Some("")
    else
      var found := Innermost(bindings, name.prefix);
      if found.None? && name.prefix == "" then Some("") else found
  }

  datatype Expanded = Expanded(uri: string, local: string)

  // No two attributes have the same expanded name.
  predicate ValidAttributes(bindings: seq<Binding>, attributes: seq<Attribute>, sofar: seq<Expanded>) {
    |attributes| == 0
    || (var a := attributes[0];
        if Declares(a).Some? then ValidAttributes(bindings, attributes[1..], sofar)
        else
          match Resolve(bindings, a.name, true)
          case None => false
          case Some(uri) =>
            var name := Expanded(uri, a.name.local);
            name !in sofar && ValidAttributes(bindings, attributes[1..], sofar + [name]))
  }

  // The bindings inside an element, and its own URI.
  datatype Scope = Scope(bindings: seq<Binding>, uri: string)

  function Open(bindings: seq<Binding>, tag: Tag): (r: Option<Scope>)
    ensures r.Some? ==> bindings <= r.value.bindings
  {
    match Declared(bindings, tag.attributes)
    case None => None
    case Some(inner) =>
      match Resolve(inner, tag.name, false)
      case None => None
      case Some(uri) => if ValidAttributes(inner, tag.attributes, []) then Some(Scope(inner, uri)) else None
  }

  // --------------------------------------------------------------- stack machine

  datatype Reader = Reader(
    rest: string,
    rootSeen: bool,
    rootClosed: bool,
    root: Option<Node>,
    namespaces: seq<Binding>,
    elements: seq<Frame>)

  function Top(r: Reader): Frame
    requires |r.elements| > 0
  {
    r.elements[|r.elements| - 1]
  }

  function WithTop(r: Reader, f: Frame): Reader
    requires |r.elements| > 0
  {
    r.(elements := r.elements[..|r.elements| - 1] + [f])
  }

  function AppendText(r: Reader, text: string): (r': Reader)
    requires |r.elements| > 0
    ensures Scoped(r) ==> Scoped(r')
  {
    WithTop(r, Top(r).(text := Top(r).text + text))
  }

  function Close(r: Reader): (r': Reader)
    requires |r.elements| > 0 && Top(r).scope <= |r.namespaces|
    ensures r'.rest == r.rest
    ensures Scoped(r) ==> Scoped(r')
  {
    var f := Top(r);
    var node := Node(f.name.local, f.uri, f.text, f.children);
    var popped := r.(elements := r.elements[..|r.elements| - 1], namespaces := r.namespaces[..f.scope]);
    if |popped.elements| == 0 then popped.(root := Some(node), rootClosed := true)
    else
      var parent := Top(popped);
      WithTop(popped, parent.(children := parent.children + [node]))
  }

  // Bindings but the predeclared one belong to open elements, inner ones after outer
  // ones.
  predicate Scoped(r: Reader) {
    && (forall i :: 0 <= i < |r.elements| ==> r.elements[i].scope <= |r.namespaces|)
    && (forall i, j :: 0 <= i < j < |r.elements| ==> r.elements[i].scope <= r.elements[j].scope)
    && |r.elements| <= MAX_DEPTH
    && PREDECLARED <= r.namespaces
    && (|r.elements| == 0 ==> r.namespaces == PREDECLARED)
    && (|r.elements| > 0 ==> r.elements[0].scope == |PREDECLARED| && !r.rootClosed)
    && (r.rootSeen <==> |r.elements| > 0 || r.rootClosed)
    && (r.rootClosed <==> r.root.Some?)
  }

  function StepText(r: Reader): (s: Option<Reader>)
    requires |r.rest| > 0 && r.rest[0] != '<'
    ensures s.Some? ==> |s.value.rest| < |r.rest| && (Scoped(r) ==> Scoped(s.value))
  {
    if |r.elements| == 0 then
      var end := Find(r.rest, '<');
      if forall i :: 0 <= i < end ==> Whitespace(r.rest[i]) then Some(r.(rest := r.rest[end..])) else None
    else
      match Text(r.rest)
      case Fail => None
      case Ok(text, rest) => Some(AppendText(r, text).(rest := rest))
  }

  function StepCdata(r: Reader): (s: Option<Reader>)
    requires "<![CDATA[" <= r.rest
    ensures s.Some? ==> |s.value.rest| < |r.rest| && (Scoped(r) ==> Scoped(s.value))
  {
    if |r.elements| == 0 then None
    else
      match Cdata(r.rest)
      case Fail => None
      case Ok(text, rest) => Some(AppendText(r, text).(rest := rest))
  }

  function StepEnd(r: Reader): (s: Option<Reader>)
    requires "</" <= r.rest && Scoped(r)
    ensures s.Some? ==> |s.value.rest| < |r.rest| && Scoped(s.value)
  {
    if |r.elements| == 0 then None
    else
      match EndTag(r.rest)
      case Fail => None
      case Ok(name, rest) => if Top(r).name != name then None else Some(Close(r.(rest := rest)))
  }

  function Push(r: Reader, tag: Tag, scope: Scope): (r': Reader)
    requires Scoped(r) && !r.rootClosed && |r.elements| < MAX_DEPTH && r.namespaces <= scope.bindings
    ensures Scoped(r')
  {
    var frame := Frame(tag.name, scope.uri, "", |r.namespaces|, []);
    r.(rootSeen := true, namespaces := scope.bindings, elements := r.elements + [frame])
  }

  function StepStart(r: Reader): (s: Option<Reader>)
    requires |r.rest| > 0 && r.rest[0] == '<' && Scoped(r)
    ensures s.Some? ==> |s.value.rest| < |r.rest| && Scoped(s.value)
  {
    if r.rootClosed || |r.elements| >= MAX_DEPTH then None
    else
      match StartTag(r.rest)
      case Fail => None
      case Ok(tag, rest) =>
        match Open(r.namespaces, tag)
        case None => None
        case Some(scope) =>
          if |r.elements| == 0 && r.rootSeen then None
          else
            var pushed := Push(r.(rest := rest), tag, scope);
            Some(if tag.selfClosing then Close(pushed) else pushed)
  }

  // One round of the loop in ParseDocument.
  function Step(r: Reader): (s: Option<Reader>)
    requires |r.rest| > 0 && Scoped(r)
    ensures s.Some? ==> |s.value.rest| < |r.rest| && Scoped(s.value)
  {
    if r.rest[0] != '<' then StepText(r)
    else if "<!--" <= r.rest then
      match Comment(r.rest)
      case Fail => None
      case Ok(_, rest) => Some(r.(rest := rest))
    else if "<![CDATA[" <= r.rest then StepCdata(r)
    else if "</" <= r.rest then StepEnd(r)
    else if "<!" <= r.rest || "<?" <= r.rest then None
    else StepStart(r)
  }

  function Loop(r: Reader): Option<Node>
    requires Scoped(r)
    decreases |r.rest|
  {
    if |r.rest| == 0 then if r.rootSeen && r.rootClosed && |r.elements| == 0 then r.root else None
    else
      match Step(r)
      case None => None
      case Some(next) => Loop(next)
  }

  const BOM := "\U{FEFF}"

  function Begin(rest: string): Reader {
    Reader(rest, false, false, None, PREDECLARED, [])
  }

  function WithoutPreamble(input: string): Option<string> {
    var body := if BOM <= input then input[1..] else input;
    if "<?xml" <= body then
      match Declaration(body)
      case Fail => None
      case Ok(_, rest) => Some(rest)
    else Some(body)
  }

  function ParseDocument(input: string): Option<Node> {
    if !XmlCharacters(input) then None
    else
      match WithoutPreamble(input)
      case None => None
      case Some(body) => Loop(Begin(body))
  }

  // -------------------------------------------------------- recursive definition

  datatype Inner = Inner(text: string, children: seq<Node>)

  // Character data, comments and elements up to an end tag.
  function Content(s: string, bindings: seq<Binding>, depth: nat, sofar: Inner): (p: Parsed<Inner>)
    ensures p.Ok? ==> |p.rest| <= |s| && "</" <= p.rest
    decreases |s|, 1
  {
    if |s| == 0 then Fail
    else if s[0] != '<' then
      match Text(s)
      case Fail => Fail
      case Ok(text, rest) => Content(rest, bindings, depth, sofar.(text := sofar.text + text))
    else if "<!--" <= s then
      match Comment(s)
      case Fail => Fail
      case Ok(_, rest) => Content(rest, bindings, depth, sofar)
    else if "<![CDATA[" <= s then
      match Cdata(s)
      case Fail => Fail
      case Ok(text, rest) => Content(rest, bindings, depth, sofar.(text := sofar.text + text))
    else if "</" <= s then Ok(sofar, s)
    else if "<!" <= s || "<?" <= s then Fail
    else
      match Element(s, bindings, depth)
      case Fail => Fail
      case Ok(node, rest) => Content(rest, bindings, depth, sofar.(children := sofar.children + [node]))
  }

  // An element inside `depth` others; its bindings end with it.
  function Element(s: string, bindings: seq<Binding>, depth: nat): (p: Parsed<Node>)
    requires |s| > 0 && s[0] == '<'
    ensures p.Ok? ==> |p.rest| < |s|
    decreases |s|, 0
  {
    if depth >= MAX_DEPTH then Fail
    else
      match StartTag(s)
      case Fail => Fail
      case Ok(tag, rest) =>
        match Open(bindings, tag)
        case None => Fail
        case Some(scope) =>
          if tag.selfClosing then Ok(Node(tag.name.local, scope.uri, "", []), rest)
          else Body(rest, tag, scope, depth + 1)
  }

  function Body(s: string, tag: Tag, scope: Scope, depth: nat): (p: Parsed<Node>)
    ensures p.Ok? ==> |p.rest| < |s|
    decreases |s|, 2
  {
    match Content(s, scope.bindings, depth, Inner("", []))
    case Fail => Fail
    case Ok(inner, rest) => Ended(rest, tag.name, scope.uri, inner)
  }

  // The end tag that belongs to a start tag.
  function Ended(s: string, name: QName, uri: string, inner: Inner): (p: Parsed<Node>)
    requires "</" <= s
    ensures p.Ok? ==> |p.rest| < |s|
  {
    match EndTag(s)
    case Fail => Fail
    case Ok(closing, rest) =>
      if closing != name then Fail else Ok(Node(name.local, uri, inner.text, inner.children), rest)
  }

  // White space and comments outside the root element.
  function Outside(s: string): (rest: Option<string>)
    ensures rest.Some? ==> |rest.value| <= |s| && (|rest.value| > 0 ==> rest.value[0] == '<')
    decreases |s|
  {
    if |s| == 0 then Some(s)
    else if s[0] != '<' then
      var end := Find(s, '<');
      if forall i :: 0 <= i < end ==> Whitespace(s[i]) then Outside(s[end..]) else None
    else if "<!--" <= s then
      match Comment(s)
      case Fail => None
      case Ok(_, rest) => Outside(rest)
    else Some(s)
  }

  predicate Markup(s: string) {
    "<![CDATA[" <= s || "</" <= s || "<!" <= s || "<?" <= s
  }

  // Nothing but one root element.
  function Tree(s: string): Option<Node> {
    match Outside(s)
    case None => None
    case Some(start) =>
      if |start| == 0 || Markup(start) then None
      else
        match Element(start, PREDECLARED, 0)
        case Fail => None
        case Ok(root, rest) => if Outside(rest) == Some("") then Some(root) else None
  }
}
