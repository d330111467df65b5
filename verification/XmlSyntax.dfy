// The lexical half of S3XMLReader, as functions on what is left of the input: each
// either fails or returns a value and the rest.
module XmlSyntax {
  import opened Common

  datatype Parsed<+T> = Fail | Ok(value: T, rest: string)

  datatype QName = QName(prefix: string, local: string)

  datatype Attribute = Attribute(name: QName, value: string)

  datatype Tag = Tag(name: QName, attributes: seq<Attribute>, selfClosing: bool)

  predicate Whitespace(c: char) {
    c == ' ' || c == '\t' || c == '\r' || c == '\n'
  }

  predicate NameStart(c: char) {
    'A' <= c <= 'Z' || 'a' <= c <= 'z' || c == '_'
  }

  predicate NameCharacter(c: char) {
    NameStart(c) || '0' <= c <= '9' || c == '.' || c == '-'
  }

  // Section 2.2 of XML 1.0.
  predicate XmlCodepoint(n: nat) {
    || n == 0x9 || n == 0xA || n == 0xD
    || 0x20 <= n <= 0xD7FF || 0xE000 <= n <= 0xFFFD || 0x10000 <= n <= 0x10FFFF
  }

  predicate XmlCharacters(s: string) {
    forall i :: 0 <= i < |s| ==> XmlCodepoint(s[i] as int)
  }

  // ------------------------------------------------------------------- searching

  function Find(s: string, c: char): (i: nat)
    ensures i <= |s| && (i < |s| ==> s[i] == c)
    ensures forall j :: 0 <= j < i ==> s[j] != c
  {
    if |s| == 0 || s[0] == c then 0 else 1 + Find(s[1..], c)
  }

  predicate Occurs(s: string, i: nat, text: string) {
    i + |text| <= |s| && s[i..i + |text|] == text
  }

  // First occurrence, or the length of `s`.
  function FindText(s: string, text: string): (i: nat)
    requires |text| > 0
    ensures i <= |s| && (i < |s| ==> Occurs(s, i, text))
    ensures forall j :: 0 <= j < i ==> !Occurs(s, j, text)
    decreases |s|
  {
    if |s| == 0 || text <= s then 0
    else
      var i := FindText(s[1..], text);
      assert i < |s| - 1 ==> s[1..][i..i + |text|] == s[i + 1..i + 1 + |text|];
      assert forall j :: 0 < j <= |s| && Occurs(s, j, text) ==> Occurs(s[1..], j - 1, text) by {
        forall j | 0 < j <= |s| && Occurs(s, j, text) ensures Occurs(s[1..], j - 1, text) {
          assert s[1..][j - 1..j - 1 + |text|] == s[j..j + |text|];
        }
      }
      1 + i
  }

  // ----------------------------------------------------------------------- names

  function SkipWhitespace(s: string): (rest: string)
    ensures |rest| <= |s| && (|rest| > 0 ==> !Whitespace(rest[0]))
    ensures |s| > 0 && Whitespace(s[0]) ==> |rest| < |s|
    ensures |s| > 0 && !Whitespace(s[0]) ==> rest == s
  {
    if |s| > 0 && Whitespace(s[0]) then SkipWhitespace(s[1..]) else s
  }

  function NameLength(s: string): (n: nat)
    ensures n <= |s| && (n < |s| ==> !NameCharacter(s[n]))
    ensures forall i :: 0 <= i < n ==> NameCharacter(s[i])
  {
    if |s| > 0 && NameCharacter(s[0]) then 1 + NameLength(s[1..]) else 0
  }

  function SimpleName(s: string): (p: Parsed<string>)
    ensures p.Ok? ==> |p.rest| < |s| && s == p.value + p.rest
    ensures p.Ok? ==> |p.rest| > 0 ==> !NameCharacter(p.rest[0])
  {
    if |s| == 0 || !NameStart(s[0]) then Fail
    else
      var n := NameLength(s);
      Ok(s[..n], s[n..])
  }

  // A name whose first part has been read.
  function QualifiedTail(first: string, rest: string): (p: Parsed<QName>)
    ensures p.Ok? ==> |p.rest| <= |rest|
  {
    if |rest| == 0 || rest[0] != ':' then Ok(QName("", first), rest)
    else
      match SimpleName(rest[1..])
      case Fail => Fail
      case Ok(local, after) => if |after| > 0 && after[0] == ':' then Fail else Ok(QName(first, local), after)
  }

  function QualifiedName(s: string): (p: Parsed<QName>)
    ensures p.Ok? ==> |p.rest| < |s|
  {
    match SimpleName(s)
    case Fail => Fail
    case Ok(first, rest) => QualifiedTail(first, rest)
  }

  // ------------------------------------------------------------------ references

  function Digit(c: char, base: nat): Option<nat> {
    if '0' <= c <= '9' then Some(c as int - '0' as int)
    else if base == 16 && 'a' <= c <= 'f' then Some(c as int - 'a' as int + 10)
    else if base == 16 && 'A' <= c <= 'F' then Some(c as int - 'A' as int + 10)
    else None
  }

  // The guard keeps the sum below the last code point, so 32 bits suffice.
  function Codepoint(digits: string, base: nat, sofar: nat): (n: Option<nat>)
    requires base == 10 || base == 16
    ensures n.Some? && sofar <= 0x10FFFF ==> n.value <= 0x10FFFF
  {
    if |digits| == 0 then Some(sofar)
    else
      match Digit(digits[0], base)
      case None => None
      case Some(digit) =>
        if sofar > (0x10FFFF - digit) / base then None
        else
          var next := sofar * base + digit;
          assert next <= 0x10FFFF by { NoOverflow(sofar, base, digit); }
          Codepoint(digits[1..], base, next)
  }

  lemma NoOverflow(sofar: nat, base: nat, digit: nat)
    requires (base == 10 || base == 16) && digit < 16 && sofar <= (0x10FFFF - digit) / base
    ensures sofar * base + digit <= 0x10FFFF
  {
  }

  function NumericReference(name: string): Option<char> {
    if |name| == 0 || name[0] != '#' then None
    else
      var base := if |name| > 1 && name[1] == 'x' then 16 else 10;
      var digits := if base == 16 then name[2..] else name[1..];
      if |digits| == 0 then None
      else
        match Codepoint(digits, base, 0)
        case None => None
        case Some(n) => if XmlCodepoint(n) then Some(n as char) else None
  }

  function Entity(name: string): Option<char> {
    if name == "lt" then Some('<')
    else if name == "gt" then Some('>')
    else if name == "amp" then Some('&')
    else if name == "apos" then Some('\'')
    else if name == "quot" then Some('"')
    else NumericReference(name)
  }

  function Reference(s: string): (p: Parsed<char>)
    ensures p.Ok? ==> |p.rest| < |s|
  {
    if |s| == 0 || s[0] != '&' then Fail
    else
      var end := Find(s[1..], ';');
      if end == |s[1..]| then Fail
      else
        match Entity(s[1..1 + end])
        case None => Fail
        case Some(c) => Ok(c, s[end + 2..])
  }

  // ---------------------------------------------------------------------- values

  function Prepend(c: char, p: Parsed<string>): Parsed<string> {
    match p
    case Fail => Fail
    case Ok(value, rest) => Ok([c] + value, rest)
  }

  function AttributeCharacters(s: string, quote: char): (p: Parsed<string>)
    ensures p.Ok? ==> |p.rest| < |s|
    decreases |s|
  {
    if |s| == 0 then Fail
    else if s[0] == quote then Ok("", s[1..])
    else if s[0] == '<' then Fail
    else if s[0] == '&' then
      match Reference(s)
      case Fail => Fail
      case Ok(c, rest) => Prepend(c, AttributeCharacters(rest, quote))
    else Prepend(if Whitespace(s[0]) then ' ' else s[0], AttributeCharacters(s[1..], quote))
  }

  predicate Quote(s: string) {
    |s| > 0 && (s[0] == '\'' || s[0] == '"')
  }

  function AttributeValue(s: string): (p: Parsed<string>)
    ensures p.Ok? ==> |p.rest| < |s|
  {
    if !Quote(s) then Fail else AttributeCharacters(s[1..], s[0])
  }

  function DeclarationCharacters(s: string, quote: char): (p: Parsed<string>)
    ensures p.Ok? ==> |p.rest| < |s|
  {
    if |s| == 0 then Fail
    else if s[0] == quote then Ok("", s[1..])
    else if !NameCharacter(s[0]) then Fail
    else Prepend(s[0], DeclarationCharacters(s[1..], quote))
  }

  function DeclarationValue(s: string): (p: Parsed<string>)
    ensures p.Ok? ==> |p.rest| < |s|
  {
    if !Quote(s) then Fail else DeclarationCharacters(s[1..], s[0])
  }

  // `name = value`, with the value read by one of the two functions above.
  function Assignment(s: string, declaration: bool): (p: Parsed<Attribute>)
    ensures p.Ok? ==> |p.rest| < |s|
  {
    match QualifiedName(s)
    case Fail => Fail
    case Ok(name, rest) =>
      var sign := SkipWhitespace(rest);
      if |sign| == 0 || sign[0] != '=' then Fail
      else
        var value := SkipWhitespace(sign[1..]);
        match if declaration then DeclarationValue(value) else AttributeValue(value)
        case Fail => Fail
        case Ok(text, after) => Ok(Attribute(name, text), after)
  }

  // -------------------------------------------------------------- XML declaration

  function DeclarationAttributes(s: string, sofar: seq<Attribute>): (p: Parsed<seq<Attribute>>)
    ensures p.Ok? ==> |p.rest| <= |s|
    decreases |s|
  {
    var t := SkipWhitespace(s);
    if "?>" <= t then Ok(sofar, t[2..])
    else
      match Assignment(t, true)
      case Fail => Fail
      case Ok(attribute, rest) =>
        if attribute.name.prefix != "" then Fail
        else if !("?>" <= rest) && (|rest| == 0 || !Whitespace(rest[0])) then Fail
        else DeclarationAttributes(rest, sofar + [attribute])
  }

  function Lower(s: string): string {
    seq(|s|, i requires 0 <= i < |s| => if 'A' <= s[i] <= 'Z' then (s[i] as int + 32) as char else s[i])
  }

  // Version 1.0, then optionally the encoding, then optionally standalone.
  predicate AcceptedDeclaration(attributes: seq<Attribute>) {
    && |attributes| > 0 && attributes[0].name.local == "version" && attributes[0].value == "1.0"
    && var encoded := |attributes| > 1 && attributes[1].name.local == "encoding";
      var next := if encoded then 2 else 1;
      && (encoded ==> Lower(attributes[1].value) == "utf-8")
      && (|attributes| == next
          || (|attributes| == next + 1 && attributes[next].name.local == "standalone"
              && (attributes[next].value == "yes" || attributes[next].value == "no")))
  }

  function Declaration(s: string): (p: Parsed<seq<Attribute>>)
    requires "<?xml" <= s
    ensures p.Ok? ==> |p.rest| < |s|
  {
    var t := s[5..];
    if |t| == 0 || !Whitespace(t[0]) then Fail
    else
      match DeclarationAttributes(t, [])
      case Fail => Fail
      case Ok(attributes, rest) => if AcceptedDeclaration(attributes) then Ok(attributes, rest) else Fail
  }

  // ------------------------------------------------------ comments, CDATA and text

  function Comment(s: string): (p: Parsed<()>)
    requires "<!--" <= s
    ensures p.Ok? ==> |p.rest| < |s|
  {
    var t := s[4..];
    var end := FindText(t, "-->");
    if end == |t| || FindText(t, "--") != end then Fail else Ok((), t[end + 3..])
  }

  function Cdata(s: string): (p: Parsed<string>)
    requires "<![CDATA[" <= s
    ensures p.Ok? ==> |p.rest| < |s|
  {
    var t := s[9..];
    var end := FindText(t, "]]>");
    if end == |t| then Fail else Ok(t[..end], t[end + 3..])
  }

  function NextCharacter(s: string): (p: Parsed<char>)
    requires |s| > 0
    ensures p.Ok? ==> |p.rest| < |s|
  {
    if s[0] == '&' then Reference(s) else Ok(s[0], s[1..])
  }

  // The next `n` characters; a reference must not reach beyond them.
  function TextCharacters(s: string, n: nat): (p: Parsed<string>)
    requires n <= |s|
    ensures p.Ok? ==> |p.rest| == |s| - n
    decreases n
  {
    if n == 0 then Ok("", s)
    else
      match NextCharacter(s)
      case Fail => Fail
      case Ok(c, rest) =>
        var used := |s| - |rest|;
        if used > n then Fail else Prepend(c, TextCharacters(rest, n - used))
  }

  function Text(s: string): (p: Parsed<string>)
    requires |s| > 0 && s[0] != '<'
    ensures p.Ok? ==> |p.rest| < |s|
  {
    var end := Find(s, '<');
    if FindText(s, "]]>") < end then Fail else TextCharacters(s, end)
  }

  // -------------------------------------------------------------------------- tags

  predicate Used(attributes: seq<Attribute>, name: QName) {
    exists i :: 0 <= i < |attributes| && attributes[i].name == name
  }

  datatype TagEnd = TagEnd(attributes: seq<Attribute>, selfClosing: bool)

  function Attributes(s: string, sofar: seq<Attribute>): (p: Parsed<TagEnd>)
    ensures p.Ok? ==> |p.rest| < |s|
    decreases |s|
  {
    if |s| == 0 then Fail
    else if s[0] == '>' then Ok(TagEnd(sofar, false), s[1..])
    else if "/>" <= s then Ok(TagEnd(sofar, true), s[2..])
    else if !Whitespace(s[0]) then Fail
    else
      var t := SkipWhitespace(s);
      if |t| == 0 || t[0] == '>' || t[0] == '/' then Attributes(t, sofar)
      else
        match Assignment(t, false)
        case Fail => Fail
        case Ok(attribute, rest) =>
          if Used(sofar, attribute.name) then Fail else Attributes(rest, sofar + [attribute])
  }

  function StartTag(s: string): (p: Parsed<Tag>)
    requires |s| > 0 && s[0] == '<'
    ensures p.Ok? ==> |p.rest| < |s|
  {
    match QualifiedName(s[1..])
    case Fail => Fail
    case Ok(name, rest) =>
      if name.prefix == "xmlns" then Fail
      else
        match Attributes(rest, [])
        case Fail => Fail
        case Ok(end, after) => Ok(Tag(name, end.attributes, end.selfClosing), after)
  }

  function EndTag(s: string): (p: Parsed<QName>)
    requires "</" <= s
    ensures p.Ok? ==> |p.rest| < |s|
  {
    match QualifiedName(s[2..])
    case Fail => Fail
    case Ok(name, rest) =>
      var t := SkipWhitespace(rest);
      if |t| == 0 || t[0] != '>' then Fail else Ok(name, t[1..])
  }
}
