// S3XMLReader itself: a cursor over the input and two stacks. Each method is
// proved to do what XmlSyntax and XmlDocument say of the input it has left.
module XmlReader {
  import opened Common
  import opened D = XmlDocument
  import S = XmlSyntax

  // `text` in front of what is still to be read.
  function After(text: string, p: S.Parsed<string>): S.Parsed<string> {
    match p
    case Fail => S.Fail
    case Ok(value, rest) => S.Ok(text + value, rest)
  }

  lemma AfterPrepend(text: string, c: char, p: S.Parsed<string>)
    ensures After(text, S.Prepend(c, p)) == After(text + [c], p)
  {
    if p.Ok? { assert text + ([c] + p.value) == (text + [c]) + p.value; }
  }

  lemma AfterNothing(p: S.Parsed<string>)
    ensures After("", p) == p
  {
    if p.Ok? { assert "" + p.value == p.value; }
  }

  // Digits of a character reference; 32 bits suffice for the sum.
  method ParseCodepoint(digits: string, base: nat) returns (codepoint: Option<nat>)
    requires base == 10 || base == 16
    ensures codepoint == S.Codepoint(digits, base, 0)
  {
    var n: nat := 0;
    for i := 0 to |digits|
      invariant n <= 0x10FFFF
      invariant S.Codepoint(digits[i..], base, n) == S.Codepoint(digits, base, 0)
    {
      assert digits[i..][0] == digits[i] && digits[i..][1..] == digits[i + 1..];
      var digit := S.Digit(digits[i], base);
      if digit.None? || n > (0x10FFFF - digit.value) / base {
        return None;
      }
      S.NoOverflow(n, base, digit.value);
      n := n * base + digit.value;
    }
    return Some(n);
  }

  // The character that a reference between '&' and ';' stands for.
  method DecodeReference(reference: string) returns (c: Option<char>)
    ensures c == S.Entity(reference)
  {
    if reference == "lt" { return Some('<'); }
    if reference == "gt" { return Some('>'); }
    if reference == "amp" { return Some('&'); }
    if reference == "apos" { return Some('\''); }
    if reference == "quot" { return Some('"'); }
    if |reference| == 0 || reference[0] != '#' {
      return None;
    }
    var base, from := 10, 1;
    if |reference| > 1 && reference[1] == 'x' {
      base, from := 16, 2;
    }
    if from == |reference| {
      return None;
    }
    var codepoint := ParseCodepoint(reference[from..], base);
    if codepoint.None? || !S.XmlCodepoint(codepoint.value) {
      return None;
    }
    return Some(codepoint.value as char);
  }

  method HasAttribute(attributes: seq<S.Attribute>, name: S.QName) returns (found: bool)
    ensures found == S.Used(attributes, name)
  {
    for i := 0 to |attributes|
      invariant !S.Used(attributes[..i], name)
    {
      if attributes[i].name == name {
        return true;
      }
      assert attributes[..i + 1] == attributes[..i] + [attributes[i]];
    }
    assert attributes[..|attributes|] == attributes;
    return false;
  }

  lemma InnermostStep(bindings: seq<Binding>, i: nat, prefix: string)
    requires 0 < i <= |bindings|
    ensures Innermost(bindings[..i], prefix)
      == if bindings[i - 1].prefix == prefix then Some(bindings[i - 1].uri) else Innermost(bindings[..i - 1], prefix)
  {
    assert bindings[..i][..i - 1] == bindings[..i - 1];
  }

  class S3XMLReader {
    const input: string
    var position: nat
    var rootSeen: bool
    var rootClosed: bool
    var root: Option<Node>
    var namespaces: seq<Binding>
    var elements: seq<Frame>

    predicate Valid()
      reads this
    {
      position <= |input|
    }

    function Rest(): string
      requires Valid()
      reads this
    {
      input[position..]
    }

    // The stack machine's state.
    function View(): Reader
      requires Valid()
      reads this
    {
      Reader(Rest(), rootSeen, rootClosed, root, namespaces, elements)
    }

    constructor (input: string)
      ensures Valid() && Untouched() && this.input == input
    {
      this.input, position := input, 0;
      rootSeen, rootClosed, root, namespaces, elements := false, false, None, PREDECLARED, [];
    }

    predicate HasPrefix(prefix: string)
      requires Valid()
      reads this
    {
      position + |prefix| <= |input| && input[position..position + |prefix|] == prefix
    }

    lemma PrefixOfRest(prefix: string)
      requires Valid()
      ensures HasPrefix(prefix) <==> prefix <= Rest()
    {
      if prefix <= Rest() {
        assert Rest()[..|prefix|] == input[position..position + |prefix|];
      }
    }

    method Advance(n: nat)
      requires position + n <= |input|
      modifies this`position
      ensures Valid() && Rest() == old(Rest())[n..] && position == old(position) + n
    {
      position := position + n;
    }

    method SkipWhitespace()
      requires Valid()
      modifies this`position
      ensures Valid() && Rest() == S.SkipWhitespace(old(Rest()))
    {
      while position < |input| && S.Whitespace(input[position])
        invariant Valid() && S.SkipWhitespace(Rest()) == S.SkipWhitespace(old(Rest()))
        decreases |input| - position
      {
        Advance(1);
      }
    }

    // The runs of name characters that ParseQualifiedName reads.
    method ParseSimpleName() returns (ok: bool, name: string)
      requires Valid()
      modifies this`position
      ensures Valid() && ok == S.SimpleName(old(Rest())).Ok?
      ensures ok ==> S.SimpleName(old(Rest())) == S.Ok(name, Rest())
    {
      if position >= |input| || !S.NameStart(input[position]) {
        return false, "";
      }
      var begin := position;
      Advance(1);
      while position < |input| && S.NameCharacter(input[position])
        invariant Valid() && begin < position
        invariant S.NameLength(old(Rest())) == position - begin + S.NameLength(Rest())
        decreases |input| - position
      {
        Advance(1);
      }
      assert old(Rest())[..position - begin] == input[begin..position];
      assert old(Rest())[position - begin..] == Rest();
      return true, input[begin..position];
    }

    method ParseQualifiedName() returns (ok: bool, name: S.QName)
      requires Valid()
      modifies this`position
      ensures Valid() && ok == S.QualifiedName(old(Rest())).Ok?
      ensures ok ==> S.QualifiedName(old(Rest())) == S.Ok(name, Rest())
    {
      name := S.QName("", "");
      var first;
      ok, first := ParseSimpleName();
      if ok {
        ok, name := ParseAfterPrefix(first);
      }
    }

    // ParseQualifiedName once the first part has been read.
    method ParseAfterPrefix(first: string) returns (ok: bool, name: S.QName)
      requires Valid()
      modifies this`position
      ensures Valid() && ok == S.QualifiedTail(first, old(Rest())).Ok?
      ensures ok ==> S.QualifiedTail(first, old(Rest())) == S.Ok(name, Rest())
    {
      if position >= |input| || input[position] != ':' {
        return true, S.QName("", first);
      }
      Advance(1);
      var local;
      ok, local := ParseSimpleName();
      name := S.QName(first, local);
      ok := ok && (position >= |input| || input[position] != ':');
    }

    method ParseReference() returns (ok: bool, c: char)
      requires Valid()
      modifies this`position
      ensures Valid() && position >= old(position) && ok == S.Reference(old(Rest())).Ok?
      ensures ok ==> S.Reference(old(Rest())) == S.Ok(c, Rest())
    {
      c := ' ';
      if position >= |input| || input[position] != '&' {
        return false, c;
      }
      var length := S.Find(input[position + 1..], ';');
      assert Rest()[1..] == input[position + 1..];
      if position + 1 + length == |input| {
        return false, c;
      }
      var reference := input[position + 1..position + 1 + length];
      assert Rest()[1..1 + length] == reference;
      Advance(length + 2);
      var decoded := DecodeReference(reference);
      if decoded.None? {
        return false, c;
      }
      return true, decoded.value;
    }

    method ParseAttributeValue() returns (ok: bool, value: string)
      requires Valid()
      modifies this`position
      ensures Valid() && ok == S.AttributeValue(old(Rest())).Ok?
      ensures ok ==> S.AttributeValue(old(Rest())) == S.Ok(value, Rest())
    {
      value := "";
      if position >= |input| || (input[position] != '\'' && input[position] != '"') {
        return false, value;
      }
      var quote := input[position];
      Advance(1);
      ghost var all := S.AttributeCharacters(Rest(), quote);
      AfterNothing(all);
      while position < |input| && input[position] != quote
        invariant Valid() && all == After(value, S.AttributeCharacters(Rest(), quote))
        decreases |input| - position
      {
        if input[position] == '<' {
          return false, value;
        }
        if input[position] == '&' {
          var c;
          ok, c := ParseReference();
          if !ok {
            return;
          }
          AfterPrepend(value, c, S.AttributeCharacters(Rest(), quote));
          value := value + [c];
          continue;
        }
        var c := if S.Whitespace(input[position]) then ' ' else input[position];
        Advance(1);
        AfterPrepend(value, c, S.AttributeCharacters(Rest(), quote));
        value := value + [c];
      }
      if position >= |input| {
        return false, value;
      }
      assert value + "" == value;
      Advance(1);
      return true, value;
    }

    method ParseDeclarationValue() returns (ok: bool, value: string)
      requires Valid()
      modifies this`position
      ensures Valid() && ok == S.DeclarationValue(old(Rest())).Ok?
      ensures ok ==> S.DeclarationValue(old(Rest())) == S.Ok(value, Rest())
    {
      value := "";
      if position >= |input| || (input[position] != '\'' && input[position] != '"') {
        return false, value;
      }
      var quote := input[position];
      Advance(1);
      ghost var all := S.DeclarationCharacters(Rest(), quote);
      AfterNothing(all);
      while position < |input| && input[position] != quote
        invariant Valid() && all == After(value, S.DeclarationCharacters(Rest(), quote))
        decreases |input| - position
      {
        if input[position] == '<' || input[position] == '&' || !S.NameCharacter(input[position]) {
          return false, value;
        }
        var c := input[position];
        Advance(1);
        AfterPrepend(value, c, S.DeclarationCharacters(Rest(), quote));
        value := value + [c];
      }
      if position >= |input| {
        return false, value;
      }
      assert value + "" == value;
      Advance(1);
      return true, value;
    }

    // The equals sign between the name and the value of an attribute.
    method SkipEquals() returns (ok: bool)
      requires Valid()
      modifies this`position
      ensures var sign := S.SkipWhitespace(old(Rest()));
        && Valid() && ok == (|sign| > 0 && sign[0] == '=')
        && (ok ==> Rest() == S.SkipWhitespace(sign[1..]))
    {
      SkipWhitespace();
      if position >= |input| || input[position] != '=' {
        return false;
      }
      Advance(1);
      SkipWhitespace();
      return true;
    }

    // An attribute of a tag or of the XML declaration, from its name to its value.
    method ParseAssignment(declaration: bool) returns (ok: bool, attribute: S.Attribute)
      requires Valid()
      modifies this`position
      ensures Valid() && ok == S.Assignment(old(Rest()), declaration).Ok?
      ensures ok ==> S.Assignment(old(Rest()), declaration) == S.Ok(attribute, Rest())
    {
      attribute := S.Attribute(S.QName("", ""), "");
      var name, value;
      ok, name := ParseQualifiedName();
      if !ok {
        return;
      }
      ok := SkipEquals();
      if !ok {
        return;
      }
      if declaration {
        ok, value := ParseDeclarationValue();
      } else {
        ok, value := ParseAttributeValue();
      }
      return ok, S.Attribute(name, value);
    }

    // ValidateCharacters, on code points.
    method ValidateCharacters() returns (ok: bool)
      ensures ok == S.XmlCharacters(input)
    {
      for i := 0 to |input|
        invariant S.XmlCharacters(input[..i])
      {
        if !S.XmlCodepoint(input[i] as int) {
          return false;
        }
      }
      return true;
    }

    method ParseXMLDeclaration() returns (ok: bool)
      requires Valid() && "<?xml" <= Rest()
      modifies this`position
      ensures Valid() && ok == S.Declaration(old(Rest())).Ok?
      ensures ok ==> S.Declaration(old(Rest())).rest == Rest()
    {
      Advance(5);
      if position >= |input| || !S.Whitespace(input[position]) {
        return false;
      }
      var attributes: seq<S.Attribute> := [];
      ghost var all := S.DeclarationAttributes(Rest(), []);
      while true
        invariant Valid() && all == S.DeclarationAttributes(Rest(), attributes)
        decreases |input| - position
      {
        SkipWhitespace();
        PrefixOfRest("?>");
        if HasPrefix("?>") {
          Advance(2);
          break;
        }
        var attribute;
        ok, attribute := ParseAssignment(true);
        if !ok {
          return;
        }
        if attribute.name.prefix != "" {
          return false;
        }
        PrefixOfRest("?>");
        if !HasPrefix("?>") && (position >= |input| || !S.Whitespace(input[position])) {
          return false;
        }
        attributes := attributes + [attribute];
      }
      return AcceptedDeclaration(attributes);
    }

    static predicate AcceptedDeclaration(attributes: seq<S.Attribute>) {
      S.AcceptedDeclaration(attributes)
    }

    method ParseComment() returns (ok: bool)
      requires Valid() && "<!--" <= Rest()
      modifies this`position
      ensures Valid() && ok == S.Comment(old(Rest())).Ok?
      ensures ok ==> S.Comment(old(Rest())).rest == Rest()
    {
      Advance(4);
      var end := S.FindText(Rest(), "-->");
      if end == |Rest()| {
        return false;
      }
      var invalid := S.FindText(Rest(), "--");
      if invalid != end {
        return false;
      }
      Advance(end + 3);
      return true;
    }

    // Appends to the text of the innermost open element.
    method AppendToTop(text: string)
      requires Valid() && |elements| > 0
      modifies this`elements
      ensures View() == AppendText(old(View()), text)
    {
      var frame := elements[|elements| - 1];
      elements := elements[..|elements| - 1] + [frame.(text := frame.text + text)];
    }

    method ParseCDATA() returns (ok: bool)
      requires Valid() && "<![CDATA[" <= Rest()
      modifies this`position, this`elements
      ensures Valid() && ok == StepCdata(old(View())).Some?
      ensures ok ==> StepCdata(old(View())).value == View()
    {
      if |elements| == 0 {
        return false;
      }
      Advance(9);
      var end := S.FindText(Rest(), "]]>");
      if end == |Rest()| {
        return false;
      }
      var text := Rest()[..end];
      Advance(end + 3);
      AppendToTop(text);
      return true;
    }

    method ParseCharacter() returns (ok: bool, c: char)
      requires Valid() && position < |input|
      modifies this`position
      ensures Valid() && position >= old(position) && ok == S.NextCharacter(old(Rest())).Ok?
      ensures ok ==> S.NextCharacter(old(Rest())) == S.Ok(c, Rest())
    {
      c := input[position];
      if c == '&' {
        ok, c := ParseReference();
      } else {
        Advance(1);
        ok := true;
      }
    }

    // The loop of ParseText inside an element.
    method ParseCharacters(length: nat) returns (ok: bool, text: string)
      requires Valid() && length <= |Rest()|
      modifies this`position
      ensures Valid() && ok == S.TextCharacters(old(Rest()), length).Ok?
      ensures ok ==> S.TextCharacters(old(Rest()), length) == S.Ok(text, Rest())
    {
      text := "";
      var end := position + length;
      ghost var all := S.TextCharacters(Rest(), length);
      AfterNothing(all);
      while position < end
        invariant Valid() && position <= end <= |input|
        invariant all == After(text, S.TextCharacters(Rest(), end - position))
        decreases end - position
      {
        var c;
        ok, c := ParseCharacter();
        if !ok || position > end {
          return false, text;
        }
        AfterPrepend(text, c, S.TextCharacters(Rest(), end - position));
        text := text + [c];
      }
      assert text + "" == text;
      return true, text;
    }

    // The loop of ParseText outside the root element.
    method SkipBlank(length: nat) returns (ok: bool)
      requires Valid() && length <= |Rest()|
      modifies this`position
      ensures Valid() && ok == forall i :: 0 <= i < length ==> S.Whitespace(old(Rest())[i])
      ensures ok ==> Rest() == old(Rest())[length..]
    {
      ghost var before := Rest();
      for i := 0 to length
        invariant Valid() && position == old(position) + i
        invariant forall j :: 0 <= j < i ==> S.Whitespace(before[j])
      {
        assert before[i] == input[position];
        if !S.Whitespace(input[position]) {
          return false;
        }
        position := position + 1;
      }
      return true;
    }

    method ParseRun() returns (ok: bool, text: string)
      requires Valid() && |Rest()| > 0 && Rest()[0] != '<'
      modifies this`position
      ensures Valid() && ok == S.Text(old(Rest())).Ok?
      ensures ok ==> S.Text(old(Rest())) == S.Ok(text, Rest())
    {
      var length := S.Find(Rest(), '<');
      if S.FindText(Rest(), "]]>") < length {
        return false, "";
      }
      ok, text := ParseCharacters(length);
    }

    method ParseText() returns (ok: bool)
      requires Valid() && |Rest()| > 0 && Rest()[0] != '<'
      modifies this`position, this`elements
      ensures Valid() && ok == StepText(old(View())).Some?
      ensures ok ==> StepText(old(View())).value == View()
    {
      if |elements| == 0 {
        ok := SkipBlank(S.Find(Rest(), '<'));
        return;
      }
      var text;
      ok, text := ParseRun();
      if ok {
        AppendToTop(text);
      }
    }

    // ------------------------------------------------------------------ namespaces

    method ApplyNamespaceDeclarations(attributes: seq<S.Attribute>) returns (ok: bool)
      requires Valid()
      modifies this`namespaces
      ensures ok == Declared(old(namespaces), attributes).Some?
      ensures ok ==> Declared(old(namespaces), attributes) == Some(namespaces)
    {
      for i := 0 to |attributes|
        invariant Declared(namespaces, attributes[i..]) == Declared(old(namespaces), attributes)
      {
        var attribute := attributes[i];
        assert attributes[i..][1..] == attributes[i + 1..];
        var prefix;
        if attribute.name.prefix == "" && attribute.name.local == "xmlns" {
          prefix := "";
        } else if attribute.name.prefix == "xmlns" {
          prefix := attribute.name.local;
        } else {
          continue;
        }
        if prefix == "xmlns" || attribute.value == XMLNS_NAMESPACE {
          return false;
        }
        if prefix == "xml" {
          if attribute.value != XML_NAMESPACE {
            return false;
          }
        } else if attribute.value == XML_NAMESPACE || (prefix != "" && attribute.value == "") {
          return false;
        }
        namespaces := namespaces + [Binding(prefix, attribute.value)];
      }
      return true;
    }

    // None when the name cannot be resolved.
    method ResolveNamespace(name: S.QName, attribute: bool) returns (uri: Option<string>)
      ensures uri == Resolve(namespaces, name, attribute)
    {
      if name.prefix == "xmlns" {
        return None;
      }
      if name.prefix == "" && attribute {
        return Some("");
      }
      uri := FindBinding(name.prefix);
      if uri.None? && name.prefix == "" {
        return Some("");
      }
    }

    // The loop of ResolveNamespace, from the innermost binding outwards.
    method FindBinding(prefix: string) returns (uri: Option<string>)
      ensures uri == Innermost(namespaces, prefix)
    {
      var i := |namespaces|;
      assert namespaces[..i] == namespaces;
      while i > 0
        invariant 0 <= i <= |namespaces|
        invariant Innermost(namespaces[..i], prefix) == Innermost(namespaces, prefix)
      {
        InnermostStep(namespaces, i, prefix);
        i := i - 1;
        if namespaces[i].prefix == prefix {
          return Some(namespaces[i].uri);
        }
      }
      return None;
    }

    method ValidateAttributes(attributes: seq<S.Attribute>) returns (ok: bool)
      ensures ok == ValidAttributes(namespaces, attributes, [])
    {
      var expanded: seq<Expanded> := [];
      for i := 0 to |attributes|
        invariant ValidAttributes(namespaces, attributes[i..], expanded) == ValidAttributes(namespaces, attributes, [])
      {
        var attribute := attributes[i];
        assert attributes[i..][1..] == attributes[i + 1..];
        if (attribute.name.prefix == "" && attribute.name.local == "xmlns") || attribute.name.prefix == "xmlns" {
          continue;
        }
        var uri := ResolveNamespace(attribute.name, true);
        if uri.None? {
          return false;
        }
        var name := Expanded(uri.value, attribute.name.local);
        if name in expanded {
          return false;
        }
        expanded := expanded + [name];
      }
      return true;
    }

    // -------------------------------------------------------------------- elements

    method CloseElement()
      requires Valid() && |elements| > 0 && elements[|elements| - 1].scope <= |namespaces|
      modifies this`elements, this`namespaces, this`root, this`rootClosed
      ensures View() == Close(old(View()))
    {
      var frame := elements[|elements| - 1];
      elements := elements[..|elements| - 1];
      namespaces := namespaces[..frame.scope];
      var node := Node(frame.name.local, frame.uri, frame.text, frame.children);
      if |elements| == 0 {
        root := Some(node);
        rootClosed := true;
        return;
      }
      var parent := elements[|elements| - 1];
      elements := elements[..|elements| - 1] + [parent.(children := parent.children + [node])];
    }

    // The loop of ParseStartElement over the attributes of a tag.
    method ParseAttributes() returns (ok: bool, attributes: seq<S.Attribute>, selfClosing: bool)
      requires Valid()
      modifies this`position
      ensures Valid() && ok == S.Attributes(old(Rest()), []).Ok?
      ensures ok ==> S.Attributes(old(Rest()), []) == S.Ok(S.TagEnd(attributes, selfClosing), Rest())
    {
      attributes, selfClosing := [], false;
      ghost var all := S.Attributes(Rest(), []);
      while true
        invariant Valid() && all == S.Attributes(Rest(), attributes)
        decreases |input| - position
      {
        if position >= |input| {
          return false, attributes, false;
        }
        if input[position] == '>' {
          Advance(1);
          return true, attributes, false;
        }
        PrefixOfRest("/>");
        if HasPrefix("/>") {
          Advance(2);
          return true, attributes, true;
        }
        if !S.Whitespace(input[position]) {
          return false, attributes, false;
        }
        SkipWhitespace();
        if position >= |input| || input[position] == '>' || input[position] == '/' {
          continue;
        }
        var attribute;
        ok, attribute := ParseAssignment(false);
        if !ok {
          return;
        }
        var duplicate := HasAttribute(attributes, attribute.name);
        if duplicate {
          return false, attributes, false;
        }
        attributes := attributes + [attribute];
      }
    }

    method ParseTag() returns (ok: bool, tag: S.Tag)
      requires Valid() && |Rest()| > 0 && Rest()[0] == '<'
      modifies this`position
      ensures Valid() && ok == S.StartTag(old(Rest())).Ok?
      ensures ok ==> S.StartTag(old(Rest())) == S.Ok(tag, Rest())
    {
      Advance(1);
      tag := S.Tag(S.QName("", ""), [], false);
      var name, attributes, selfClosing;
      ok, name := ParseQualifiedName();
      if !ok || name.prefix == "xmlns" {
        return false, tag;
      }
      ok, attributes, selfClosing := ParseAttributes();
      return ok, S.Tag(name, attributes, selfClosing);
    }

    // Declares the bindings of a tag and resolves its name; restores the stack when
    // that fails.
    method OpenScope(tag: S.Tag) returns (ok: bool, uri: string)
      requires Valid()
      modifies this`namespaces
      ensures ok == Open(old(namespaces), tag).Some?
      ensures ok ==> Open(old(namespaces), tag) == Some(Scope(namespaces, uri))
      ensures !ok ==> namespaces == old(namespaces)
    {
      var before := namespaces;
      ok := ApplyNamespaceDeclarations(tag.attributes);
      if !ok {
        namespaces := before;
        return false, "";
      }
      var resolved := ResolveNamespace(tag.name, false);
      ok := false;
      if resolved.Some? {
        ok := ValidateAttributes(tag.attributes);
      }
      if !ok {
        namespaces := before;
        return false, "";
      }
      return true, resolved.value;
    }

    method OpenElement(tag: S.Tag) returns (ok: bool)
      requires Valid() && Scoped(View()) && !rootClosed && |elements| < MAX_DEPTH
      modifies this`namespaces, this`elements, this`rootSeen
      ensures Valid() && ok == Open(old(namespaces), tag).Some?
      ensures ok ==> View() == Push(old(View()), tag, Open(old(namespaces), tag).value)
    {
      var uri;
      var count := |namespaces|;
      ok, uri := OpenScope(tag);
      if !ok {
        return;
      }
      if |elements| == 0 {
        assert !rootSeen; // a second root is refused as soon as the first has been closed
        rootSeen := true;
      }
      elements := elements + [Frame(tag.name, uri, "", count, [])];
    }

    method ParseStartElement() returns (ok: bool)
      requires Valid() && |Rest()| > 0 && Rest()[0] == '<' && Scoped(View())
      modifies this
      ensures Valid() && ok == StepStart(old(View())).Some?
      ensures ok ==> StepStart(old(View())).value == View()
    {
      if rootClosed || |elements| >= MAX_DEPTH {
        return false;
      }
      var tag;
      ok, tag := ParseTag();
      if ok {
        ok := OpenElement(tag);
      }
      if ok && tag.selfClosing {
        CloseElement();
      }
    }

    method ParseClosingTag() returns (ok: bool, name: S.QName)
      requires Valid() && "</" <= Rest()
      modifies this`position
      ensures Valid() && ok == S.EndTag(old(Rest())).Ok?
      ensures ok ==> S.EndTag(old(Rest())) == S.Ok(name, Rest())
    {
      Advance(2);
      ok, name := ParseQualifiedName();
      if !ok {
        return;
      }
      SkipWhitespace();
      if position >= |input| || input[position] != '>' {
        return false, name;
      }
      Advance(1);
    }

    lemma EndSteps(r: Reader, name: S.QName, rest: string)
      requires "</" <= r.rest && Scoped(r) && |r.elements| > 0
      requires S.EndTag(r.rest) == S.Ok(name, rest) && Top(r).name == name
      ensures StepEnd(r) == Some(Close(r.(rest := rest)))
    {
    }

    method ParseEndElement() returns (ok: bool)
      requires Valid() && "</" <= Rest() && Scoped(View())
      modifies this
      ensures Valid() && ok == StepEnd(old(View())).Some?
      ensures ok ==> StepEnd(old(View())).value == View()
    {
      if |elements| == 0 {
        return false;
      }
      ghost var r := View();
      var name;
      ok, name := ParseClosingTag();
      if !ok || elements[|elements| - 1].name != name {
        return false;
      }
      EndSteps(r, name, Rest());
      assert View() == r.(rest := Rest());
      CloseElement();
    }

    // One round of the loop in ParseDocument.
    method ParseNext() returns (ok: bool)
      requires Valid() && |Rest()| > 0 && Scoped(View())
      modifies this
      ensures Valid() && ok == Step(old(View())).Some?
      ensures ok ==> Step(old(View())).value == View()
    {
      if input[position] != '<' {
        ok := ParseText();
        return;
      }
      PrefixOfRest("<!--");
      PrefixOfRest("<![CDATA[");
      PrefixOfRest("</");
      PrefixOfRest("<!");
      PrefixOfRest("<?");
      if HasPrefix("<!--") {
        ok := ParseComment();
      } else if HasPrefix("<![CDATA[") {
        ok := ParseCDATA();
      } else if HasPrefix("</") {
        ok := ParseEndElement();
      } else if HasPrefix("<!") || HasPrefix("<?") {
        ok := false;
      } else {
        ok := ParseStartElement();
      }
    }

    // The byte order mark and the XML declaration.
    method ParsePreamble() returns (ok: bool)
      requires position == 0
      modifies this`position
      ensures Valid() && ok == WithoutPreamble(input).Some?
      ensures ok ==> WithoutPreamble(input) == Some(Rest())
    {
      assert Rest() == input;
      PrefixOfRest(BOM);
      if HasPrefix(BOM) {
        Advance(1);
      }
      PrefixOfRest("<?xml");
      if HasPrefix("<?xml") {
        ok := ParseXMLDeclaration();
        return;
      }
      return true;
    }

    lemma LoopUnfolds(r: Reader)
      requires Scoped(r) && |r.rest| > 0
      ensures Loop(r) == if Step(r).Some? then Loop(Step(r).value) else None
    {
    }

    lemma LoopEnds(r: Reader)
      requires Scoped(r) && |r.rest| == 0
      ensures Loop(r) == if r.rootSeen && r.rootClosed && |r.elements| == 0 then r.root else None
    {
    }

    // The loop of ParseDocument and its final checks.
    method ParseBody() returns (ok: bool)
      requires Valid() && Scoped(View())
      modifies this
      ensures Valid() && ok == Loop(old(View())).Some?
      ensures ok ==> Loop(old(View())) == root
    {
      ghost var result := Loop(View());
      while position < |input|
        invariant Valid() && Scoped(View()) && Loop(View()) == result
        decreases |input| - position
      {
        LoopUnfolds(View());
        ok := ParseNext();
        if !ok {
          return;
        }
      }
      LoopEnds(View());
      return rootSeen && rootClosed && |elements| == 0;
    }

    lemma Accepts(body: string)
      requires S.XmlCharacters(input) && WithoutPreamble(input) == Some(body)
      ensures D.ParseDocument(input) == Loop(Begin(body))
    {
    }

    lemma Rejects()
      requires !S.XmlCharacters(input) || WithoutPreamble(input).None?
      ensures D.ParseDocument(input) == None
    {
    }

    // Nothing read yet.
    predicate Untouched()
      reads this
    {
      position == 0 && !rootSeen && !rootClosed && root.None? && namespaces == PREDECLARED && |elements| == 0
    }

    method ParseDocument() returns (ok: bool)
      requires Untouched()
      modifies this
      ensures Valid() && ok == D.ParseDocument(input).Some?
      ensures ok ==> D.ParseDocument(input) == root
    {
      ok := ValidateCharacters();
      if !ok {
        Rejects();
        return;
      }
      ok := ParsePreamble();
      if !ok {
        Rejects();
        return;
      }
      Accepts(Rest());
      ok := ParseBody();
    }
  }
}
