// The grammar of the documents that S3XMLReader reads: what may be written, with
// every choice of spelling, and what it says. `XThen(x, b)` is the text of `x`
// followed by `b`.
module XmlGrammar {
  import opened Common
  import opened XmlSyntax
  import opened XmlDocument
  import opened XmlNamespaces

  // --------------------------------------------------- characters, names and spaces

  // Section 2.3 of XML 1.0, by code points; names are confined to ASCII.
  predicate SpaceCharacter(c: char) {
    c as int == 0x20 || c as int == 0x9 || c as int == 0xD || c as int == 0xA
  }

  predicate Letter(c: char) {
    0x41 <= c as int <= 0x5A || 0x61 <= c as int <= 0x7A || c as int == 0x5F
  }

  predicate NamePart(c: char) {
    Letter(c) || 0x30 <= c as int <= 0x39 || c as int == 0x2E || c as int == 0x2D
  }

  predicate Space(s: string) {
    forall i :: 0 <= i < |s| ==> SpaceCharacter(s[i])
  }

  predicate IsName(s: string) {
    |s| > 0 && Letter(s[0]) && forall i :: 0 <= i < |s| ==> NamePart(s[i])
  }

  predicate IsQName(n: QName) {
    (n.prefix == "" || IsName(n.prefix)) && IsName(n.local)
  }

  function QNameThen(n: QName, b: string): string {
    if n.prefix == "" then n.local + b else n.prefix + (":" + (n.local + b))
  }

  // ---------------------------------------------------------------- character data

  predicate DigitIs(c: char, base: nat, d: nat) {
    && d < base
    && (if d < 10 then c as int == 0x30 + d else c as int == 0x41 + (d - 10) || c as int == 0x61 + (d - 10))
  }

  // The digits stand for `n`, most significant first.
  predicate Numeral(digits: string, base: nat, n: nat)
    requires base == 10 || base == 16
  {
    if |digits| == 0 then n == 0
    else DigitIs(digits[|digits| - 1], base, n % base) && Numeral(digits[..|digits| - 1], base, n / base)
  }

  predicate Decimal(name: string, n: nat) {
    |name| > 1 && name[0] == '#' && Numeral(name[1..], 10, n)
  }

  predicate Hexadecimal(name: string, n: nat) {
    |name| > 2 && name[0] == '#' && name[1] == 'x' && Numeral(name[2..], 16, n)
  }

  // Sections 4.1 and 4.6 of XML 1.0.
  predicate Denotes(name: string, c: char) {
    var n := c as int;
    || (name == "lt" && n == 60) || (name == "gt" && n == 62) || (name == "amp" && n == 38)
    || (name == "apos" && n == 39) || (name == "quot" && n == 34)
    || ((Decimal(name, n) || Hexadecimal(name, n)) && XmlCodepoint(n))
  }

  // A character as itself or as a reference.
  datatype Piece = Plain(c: char) | Coded(name: string, c: char)

  function PieceThen(p: Piece, b: string): string {
    match p
    case Plain(c) => [c] + b
    case Coded(name, _) => "&" + (name + (";" + b))
  }

  function PiecesThen(ps: seq<Piece>, b: string): string {
    if |ps| == 0 then b else PieceThen(ps[0], PiecesThen(ps[1..], b))
  }

  // What text says: its characters.
  function Characters(ps: seq<Piece>): string {
    if |ps| == 0 then "" else [ps[0].c] + Characters(ps[1..])
  }

  // What an attribute value says: white space as written counts as a space.
  function ValueOf(ps: seq<Piece>): string {
    if |ps| == 0 then ""
    else [if ps[0].Plain? && SpaceCharacter(ps[0].c) then ' ' else ps[0].c] + ValueOf(ps[1..])
  }

  predicate IsPiece(p: Piece) {
    match p
    case Plain(c) => c != '<' && c != '&'
    case Coded(name, c) => Denotes(name, c)
  }

  predicate ArePieces(ps: seq<Piece>) {
    forall i :: 0 <= i < |ps| ==> IsPiece(ps[i])
  }

  predicate DashesAt(s: string, i: nat) {
    i + 1 < |s| && s[i] == '-' && s[i + 1] == '-'
  }

  predicate SectionEndAt(s: string, i: nat) {
    i + 2 < |s| && s[i] == ']' && s[i + 1] == ']' && s[i + 2] == '>'
  }

  predicate NoSectionEnd(s: string) {
    forall i :: 0 <= i < |s| ==> !SectionEndAt(s, i)
  }

  // Section 2.4 of XML 1.0.
  predicate IsText(ps: seq<Piece>) {
    ArePieces(ps) && NoSectionEnd(PiecesThen(ps, ""))
  }

  // Section 2.5 of XML 1.0: no two dashes, and none at the end.
  predicate IsRemark(text: string) {
    (forall i :: 0 <= i < |text| ==> !DashesAt(text, i)) && (|text| > 0 ==> text[|text| - 1] != '-')
  }

  function RemarkThen(text: string, b: string): string {
    "<!--" + (text + ("-->" + b))
  }

  function SectionThen(text: string, b: string): string {
    "<![CDATA[" + (text + ("]]>" + b))
  }

  // -------------------------------------------------------------------------- tags

  // An attribute and the white space around its parts.
  datatype Assigned = Assigned(before: string, name: QName, left: string, right: string, quote: char,
                               value: seq<Piece>)

  function AssignedThen(a: Assigned, b: string): string {
    a.before + QNameThen(a.name, a.left + ("=" + (a.right + ([a.quote] + PiecesThen(a.value, [a.quote] + b)))))
  }

  function AllAssignedThen(all: seq<Assigned>, b: string): string {
    if |all| == 0 then b else AssignedThen(all[0], AllAssignedThen(all[1..], b))
  }

  predicate IsAssigned(a: Assigned) {
    && |a.before| > 0 && Space(a.before) && IsQName(a.name) && Space(a.left) && Space(a.right)
    && (a.quote == '\'' || a.quote == '"')
    && ArePieces(a.value) && forall i :: 0 <= i < |a.value| ==> a.value[i] != Plain(a.quote)
  }

  predicate AreAssigned(all: seq<Assigned>) {
    forall i :: 0 <= i < |all| ==> IsAssigned(all[i])
  }

  predicate Distinct(all: seq<Assigned>) {
    forall i, j :: 0 <= i < j < |all| ==> all[i].name != all[j].name
  }

  function AttributesOf(all: seq<Assigned>): (r: seq<Attribute>)
    ensures |r| == |all| && forall i :: 0 <= i < |all| ==> r[i] == Attribute(all[i].name, ValueOf(all[i].value))
  {
    if |all| == 0 then [] else [Attribute(all[0].name, ValueOf(all[0].value))] + AttributesOf(all[1..])
  }

  // A tag up to its closing bracket.
  datatype Start = Start(name: QName, attributes: seq<Assigned>, space: string)

  function StartThen(t: Start, selfClosing: bool, b: string): string {
    "<" + QNameThen(t.name, AllAssignedThen(t.attributes, t.space + ((if selfClosing then "/>" else ">") + b)))
  }

  predicate IsStart(t: Start) {
    && IsQName(t.name) && t.name.prefix != "xmlns"
    && AreAssigned(t.attributes) && Distinct(t.attributes) && Space(t.space)
  }

  function TagOf(t: Start, selfClosing: bool): Tag {
    Tag(t.name, AttributesOf(t.attributes), selfClosing)
  }

  function EndThen(name: QName, space: string, b: string): string {
    "</" + QNameThen(name, space + (">" + b))
  }

  // ---------------------------------------------------------------------- elements

  datatype Particle = Section(text: string) | Remark(text: string) | Nested(element: Concrete)

  // Sections 3 and 3.1 of XML 1.0, without processing instructions.
  datatype Concrete =
    | Empty(start: Start)
    | Filled(start: Start, items: Items, space: string)

  datatype Items =
    | Final(chars: seq<Piece>)
    | Before(chars: seq<Piece>, particle: Particle, rest: Items)

  function ConcreteThen(x: Concrete, b: string): (s: string)
    ensures |s| > 0 && s[0] == '<'
    decreases x
  {
    match x
    case Empty(start) => StartThen(start, true, b)
    case Filled(start, items, space) => StartThen(start, false, ItemsThen(items, EndThen(start.name, space, b)))
  }

  function ParticleThen(m: Particle, b: string): (s: string)
    ensures |s| > 0 && s[0] == '<'
    decreases m
  {
    match m
    case Section(text) => SectionThen(text, b)
    case Remark(text) => RemarkThen(text, b)
    case Nested(element) => ConcreteThen(element, b)
  }

  function ItemsThen(items: Items, b: string): string
    decreases items
  {
    match items
    case Final(chars) => PiecesThen(chars, b)
    case Before(chars, particle, rest) => PiecesThen(chars, ParticleThen(particle, ItemsThen(rest, b)))
  }

  predicate IsConcrete(x: Concrete, depth: nat)
    decreases x
  {
    && depth < MAX_DEPTH && IsStart(x.start)
    && (x.Filled? ==> Space(x.space) && AreItems(x.items, depth + 1))
  }

  predicate IsParticle(m: Particle, depth: nat)
    decreases m
  {
    match m
    case Section(text) => NoSectionEnd(text)
    case Remark(text) => IsRemark(text)
    case Nested(element) => IsConcrete(element, depth)
  }

  predicate AreItems(items: Items, depth: nat)
    decreases items
  {
    && IsText(items.chars)
    && (items.Before? ==> IsParticle(items.particle, depth) && AreItems(items.rest, depth))
  }

  // What an element says.
  function Meaning(x: Concrete): Written
    decreases x
  {
    match x
    case Empty(start) => Written(TagOf(start, true), "", [])
    case Filled(start, items, _) => Written(TagOf(start, false), TextIn(items), ChildrenIn(items))
  }

  function TextIn(items: Items): string
    decreases items
  {
    match items
    case Final(chars) => Characters(chars)
    case Before(chars, particle, rest) =>
      Characters(chars) + ((if particle.Section? then particle.text else "") + TextIn(rest))
  }

  function ChildrenIn(items: Items): seq<Written>
    decreases items
  {
    match items
    case Final(_) => []
    case Before(_, particle, rest) =>
      (if particle.Nested? then [Meaning(particle.element)] else []) + ChildrenIn(rest)
  }

  // --------------------------------------------------------------------- documents

  // Comments outside the root element, each behind white space, and more of it.
  datatype Misc = Misc(remarks: seq<(string, string)>, space: string)

  function RemarksThen(remarks: seq<(string, string)>, b: string): string {
    if |remarks| == 0 then b else remarks[0].0 + RemarkThen(remarks[0].1, RemarksThen(remarks[1..], b))
  }

  function MiscThen(m: Misc, b: string): string {
    RemarksThen(m.remarks, m.space + b)
  }

  predicate IsMisc(m: Misc) {
    (forall i :: 0 <= i < |m.remarks| ==> Space(m.remarks[i].0) && IsRemark(m.remarks[i].1)) && Space(m.space)
  }

  datatype Heading = Heading(attributes: seq<Assigned>, space: string)

  function HeadingThen(h: Heading, b: string): string {
    "<?xml" + AllAssignedThen(h.attributes, h.space + ("?>" + b))
  }

  // Version, encoding and standalone, in this order; section 2.8 of XML 1.0.
  predicate HeadingNames(names: seq<string>) {
    || names == ["version"] || names == ["version", "encoding"] || names == ["version", "standalone"]
    || names == ["version", "encoding", "standalone"]
  }

  predicate EitherCase(c: char, lower: char) {
    c == lower || ('a' <= lower <= 'z' && c as int + 0x20 == lower as int)
  }

  predicate HeadingValue(name: string, value: string) {
    || (name == "version" && value == "1.0")
    || (name == "encoding" && |value| == 5 && forall i :: 0 <= i < 5 ==> EitherCase(value[i], "utf-8"[i]))
    || (name == "standalone" && (value == "yes" || value == "no"))
  }

  function LocalNames(all: seq<Attribute>): seq<string> {
    seq(|all|, i requires 0 <= i < |all| => all[i].name.local)
  }

  predicate HeadingValues(all: seq<Attribute>) {
    forall i :: 0 <= i < |all| ==> HeadingValue(all[i].name.local, all[i].value)
  }

  predicate NameCharactersOnly(ps: seq<Piece>) {
    forall i :: 0 <= i < |ps| ==> ps[i].Plain? && NamePart(ps[i].c)
  }

  predicate AreHeadings(all: seq<Assigned>) {
    forall i :: 0 <= i < |all| ==> IsAssigned(all[i]) && all[i].name.prefix == "" && NameCharactersOnly(all[i].value)
  }

  predicate IsHeading(h: Heading) {
    && Space(h.space) && AreHeadings(h.attributes)
    && HeadingNames(LocalNames(AttributesOf(h.attributes))) && HeadingValues(AttributesOf(h.attributes))
  }

  datatype Document = Document(bom: bool, heading: Option<Heading>, before: Misc, root: Concrete, after: Misc)

  function DocumentText(d: Document): string {
    var body := MiscThen(d.before, ConcreteThen(d.root, MiscThen(d.after, "")));
    var headed := if d.heading.Some? then HeadingThen(d.heading.value, body) else body;
    if d.bom then BOM + headed else headed
  }

  predicate IsDocument(d: Document) {
    && (d.heading.Some? ==> IsHeading(d.heading.value))
    && IsMisc(d.before) && IsConcrete(d.root, 0) && IsMisc(d.after)
  }
}
