// Reading names, references, values and tags is the inverse of writing them: what
// is written is read as what it says, and what is read was written that way.
module XmlLexing {
  import opened Common
  import opened XmlSyntax
  import opened XmlDocument
  import opened XmlGrammar

  // --------------------------------------------------------------------- searching

  lemma FoundAt(s: string, c: char, i: nat)
    requires i < |s| && s[i] == c && forall j :: 0 <= j < i ==> s[j] != c
    ensures Find(s, c) == i
  {
  }

  lemma FoundBehind(a: string, c: char, b: string)
    requires c !in a && |b| > 0 && b[0] == c
    ensures Find(a + b, c) == |a| && (a + b)[..|a|] == a && (a + b)[|a|..] == b
  {
    var s := a + b;
    assert s[|a|] == c;
    forall j | 0 <= j < |a| ensures s[j] != c { assert a[j] in a; }
    FoundAt(s, c, |a|);
  }

  lemma TextFoundAt(s: string, text: string, i: nat)
    requires |text| > 0 && Occurs(s, i, text) && forall j :: 0 <= j < i ==> !Occurs(s, j, text)
    ensures FindText(s, text) == i
  {
  }

  // Writing and cutting up again.
  lemma Parts(a: string, b: string)
    ensures (a + b)[..|a|] == a && (a + b)[|a|..] == b
  {
  }

  lemma Behind(c: char, b: string)
    ensures ([c] + b)[0] == c && ([c] + b)[1..] == b
  {
  }

  // ------------------------------------------------------------------ white space

  lemma {:induction false} SpaceWritten(space: string, b: string)
    requires Space(space) && (|b| > 0 ==> !SpaceCharacter(b[0]))
    ensures SkipWhitespace(space + b) == b
  {
    if |space| == 0 {
      assert space + b == b;
    } else {
      SpaceWritten(space[1..], b);
      assert (space + b)[1..] == space[1..] + b;
    }
  }

  lemma {:induction false} SpaceRead(s: string) returns (space: string)
    ensures Space(space) && s == space + SkipWhitespace(s)
  {
    if |s| > 0 && Whitespace(s[0]) {
      var more := SpaceRead(s[1..]);
      space := [s[0]] + more;
      assert s == [s[0]] + s[1..];
    } else {
      space := "";
    }
  }

  // ------------------------------------------------------------------------- names

  predicate Stops(b: string) {
    |b| > 0 ==> !NamePart(b[0]) && b[0] != ':'
  }

  lemma {:induction false} NamePartsWritten(name: string, b: string)
    requires (forall i :: 0 <= i < |name| ==> NamePart(name[i])) && (|b| > 0 ==> !NamePart(b[0]))
    ensures NameLength(name + b) == |name|
  {
    if |name| == 0 {
      assert name + b == b;
    } else {
      NamePartsWritten(name[1..], b);
      assert (name + b)[1..] == name[1..] + b;
    }
  }

  lemma NameWritten(name: string, b: string)
    requires IsName(name) && (|b| > 0 ==> !NamePart(b[0]))
    ensures SimpleName(name + b) == Ok(name, b)
  {
    NamePartsWritten(name, b);
    Parts(name, b);
  }

  lemma NameRead(s: string)
    requires SimpleName(s).Ok?
    ensures IsName(SimpleName(s).value) && s == SimpleName(s).value + SimpleName(s).rest
    ensures |SimpleName(s).rest| > 0 ==> !NamePart(SimpleName(s).rest[0])
  {
    var n := NameLength(s);
    assert n > 0;
    forall i | 0 <= i < n ensures NamePart(s[..n][i]) { assert NameCharacter(s[i]); }
  }

  lemma QNameWritten(n: QName, b: string)
    requires IsQName(n) && Stops(b)
    ensures QualifiedName(QNameThen(n, b)) == Ok(n, b)
  {
    if n.prefix == "" {
      NameWritten(n.local, b);
    } else {
      var local := n.local + b;
      NameWritten(n.prefix, ":" + local);
      NameWritten(n.local, b);
      Behind(':', local);
    }
  }

  lemma QNameRead(s: string)
    requires QualifiedName(s).Ok?
    ensures var p := QualifiedName(s); IsQName(p.value) && Stops(p.rest) && s == QNameThen(p.value, p.rest)
  {
    NameRead(s);
    var first := SimpleName(s);
    if |first.rest| > 0 && first.rest[0] == ':' {
      NameRead(first.rest[1..]);
      assert first.rest == ":" + first.rest[1..];
    }
  }

  lemma QNameStarts(n: QName, b: string)
    requires IsQName(n)
    ensures |QNameThen(n, b)| > 0 && Letter(QNameThen(n, b)[0])
  {
  }

  // -------------------------------------------------------------------- references

  lemma DigitExactly(c: char, base: nat, d: nat)
    requires base == 10 || base == 16
    ensures Digit(c, base) == Some(d) <==> DigitIs(c, base, d)
  {
  }

  lemma {:induction false} CodepointNext(digits: string, c: char, base: nat, sofar: nat)
    requires base == 10 || base == 16
    ensures Codepoint(digits + [c], base, sofar) ==
      match Codepoint(digits, base, sofar) {
        case None => None
        case Some(m) => Codepoint([c], base, m)
      }
    decreases |digits|
  {
    var s := digits + [c];
    if |digits| == 0 {
      assert s == [c];
    } else {
      assert s[0] == digits[0] && s[1..] == digits[1..] + [c];
      var digit := Digit(digits[0], base);
      if digit.Some? && sofar <= (0x10FFFF - digit.value) / base {
        CodepointNext(digits[1..], c, base, sofar * base + digit.value);
      }
    }
  }

  lemma LastDigit(c: char, base: nat, m: nat, n: nat)
    requires (base == 10 || base == 16) && m <= 0x10FFFF
    ensures Codepoint([c], base, m) == Some(n) <==> DigitIs(c, base, n % base) && m == n / base && n <= 0x10FFFF
  {
    var digit := Digit(c, base);
    if digit.Some? {
      DigitExactly(c, base, digit.value);
      assert [c][1..] == "";
      assert Codepoint([c], base, m) ==
        if m > (0x10FFFF - digit.value) / base then None else Some(m * base + digit.value);
      Quotient(base, m, digit.value, n);
    }
    DigitExactly(c, base, n % base);
  }

  lemma Quotient(base: nat, m: nat, d: nat, n: nat)
    requires (base == 10 || base == 16) && d < base
    ensures m * base + d == n <==> d == n % base && m == n / base
    ensures m > (0x10FFFF - d) / base <==> m * base + d > 0x10FFFF
  {
  }

  // Codepoint reads the numerals up to the last code point.
  lemma {:induction false} CodepointExactly(digits: string, base: nat, n: nat)
    requires base == 10 || base == 16
    ensures Codepoint(digits, base, 0) == Some(n) <==> Numeral(digits, base, n) && n <= 0x10FFFF
    decreases |digits|
  {
    if |digits| > 0 {
      var init, last := digits[..|digits| - 1], digits[|digits| - 1];
      assert init + [last] == digits;
      CodepointNext(init, last, base, 0);
      CodepointExactly(init, base, n / base);
      var m := Codepoint(init, base, 0);
      if m.Some? { LastDigit(last, base, m.value, n); }
    }
  }

  lemma {:induction false} NumeralDigits(digits: string, base: nat, n: nat)
    requires (base == 10 || base == 16) && Numeral(digits, base, n)
    ensures ';' !in digits && '<' !in digits && 'x' !in digits
  {
    if |digits| > 0 {
      NumeralDigits(digits[..|digits| - 1], base, n / base);
      assert digits == digits[..|digits| - 1] + [digits[|digits| - 1]];
    }
  }

  lemma NumericExactly(name: string, c: char)
    ensures NumericReference(name) == Some(c) <==>
      (Decimal(name, c as int) || Hexadecimal(name, c as int)) && XmlCodepoint(c as int)
  {
    if |name| > 1 && name[0] == '#' {
      var n := c as int;
      if name[1] == 'x' {
        CodepointExactly(name[2..], 16, n);
        assert name[1..][0] == 'x';
        if Numeral(name[1..], 10, n) { NumeralDigits(name[1..], 10, n); }
      } else {
        CodepointExactly(name[1..], 10, n);
      }
    }
  }

  // A reference names exactly what the standard says.
  lemma EntityExactly(name: string, c: char)
    ensures Entity(name) == Some(c) <==> Denotes(name, c)
  {
    NumericExactly(name, c);
    if name == "lt" || name == "gt" || name == "amp" || name == "apos" || name == "quot" {
      assert name[0] != '#';
    }
  }

  lemma NameInside(name: string, c: char)
    requires Denotes(name, c)
    ensures ';' !in name && '<' !in name
  {
    var n := c as int;
    if Decimal(name, n) {
      NumeralDigits(name[1..], 10, n);
      assert name == [name[0]] + name[1..];
    } else if Hexadecimal(name, n) {
      NumeralDigits(name[2..], 16, n);
      assert name == [name[0]] + [name[1]] + name[2..];
    }
  }

  lemma ReferenceWritten(name: string, c: char, b: string)
    requires Denotes(name, c)
    ensures Reference(PieceThen(Coded(name, c), b)) == Ok(c, b)
  {
    var inner := name + (";" + b);
    var s := "&" + inner;
    EntityExactly(name, c);
    NameInside(name, c);
    Behind('&', inner);
    FoundBehind(name, ';', ";" + b);
    assert s[1..1 + |name|] == inner[..|name|];
    assert s[|name| + 2..] == b;
  }

  lemma ReferenceRead(s: string) returns (name: string)
    requires Reference(s).Ok?
    ensures Denotes(name, Reference(s).value) && s == PieceThen(Coded(name, Reference(s).value), Reference(s).rest)
  {
    var end := Find(s[1..], ';');
    name := s[1..1 + end];
    EntityExactly(name, Reference(s).value);
    assert s == "&" + (name + (";" + s[end + 2..]));
  }

  // ------------------------------------------------------------------------ values

  predicate NotQuoted(ps: seq<Piece>, quote: char) {
    forall i :: 0 <= i < |ps| ==> ps[i] != Plain(quote)
  }

  lemma PieceRead(p: Piece, b: string)
    requires IsPiece(p)
    ensures PieceThen(p, b)[0] != '<' && NextCharacter(PieceThen(p, b)) == Ok(p.c, b)
  {
    if p.Coded? { ReferenceWritten(p.name, p.c, b); }
  }

  lemma {:induction false} ValueWritten(ps: seq<Piece>, quote: char, b: string)
    requires ArePieces(ps) && NotQuoted(ps, quote) && (quote == '\'' || quote == '"')
    ensures AttributeCharacters(PiecesThen(ps, [quote] + b), quote) == Ok(ValueOf(ps), b)
    decreases |ps|
  {
    if |ps| == 0 {
      Behind(quote, b);
    } else {
      ValueWritten(ps[1..], quote, b);
      PieceRead(ps[0], PiecesThen(ps[1..], [quote] + b));
    }
  }

  lemma {:induction false} ValueRead(s: string, quote: char) returns (ps: seq<Piece>)
    requires AttributeCharacters(s, quote).Ok? && (quote == '\'' || quote == '"')
    ensures var p := AttributeCharacters(s, quote);
      && ArePieces(ps) && NotQuoted(ps, quote) && p.value == ValueOf(ps)
      && s == PiecesThen(ps, [quote] + p.rest)
    decreases |s|
  {
    assert s == [s[0]] + s[1..];
    if s[0] == quote {
      ps := [];
    } else if s[0] == '&' {
      var name := ReferenceRead(s);
      var more := ValueRead(Reference(s).rest, quote);
      ps := [Coded(name, Reference(s).value)] + more;
    } else {
      var more := ValueRead(s[1..], quote);
      ps := [Plain(s[0])] + more;
    }
  }

  lemma {:induction false} PlainWritten(ps: seq<Piece>, quote: char, b: string)
    requires NameCharactersOnly(ps) && (quote == '\'' || quote == '"')
    ensures DeclarationCharacters(PiecesThen(ps, [quote] + b), quote) == Ok(ValueOf(ps), b)
    decreases |ps|
  {
    if |ps| == 0 {
      Behind(quote, b);
    } else {
      PlainWritten(ps[1..], quote, b);
      Behind(ps[0].c, PiecesThen(ps[1..], [quote] + b));
    }
  }

  lemma {:induction false} PlainRead(s: string, quote: char) returns (ps: seq<Piece>)
    requires DeclarationCharacters(s, quote).Ok? && (quote == '\'' || quote == '"')
    ensures var p := DeclarationCharacters(s, quote);
      && ArePieces(ps) && NotQuoted(ps, quote) && NameCharactersOnly(ps) && p.value == ValueOf(ps)
      && s == PiecesThen(ps, [quote] + p.rest)
    decreases |s|
  {
    assert s == [s[0]] + s[1..];
    if s[0] == quote {
      ps := [];
    } else {
      var more := PlainRead(s[1..], quote);
      ps := [Plain(s[0])] + more;
    }
  }

  // -------------------------------------------------------------------- attributes

  function QuotedThen(a: Assigned, b: string): string {
    [a.quote] + PiecesThen(a.value, [a.quote] + b)
  }

  // What is assigned, without the white space before it.
  function TrimmedThen(a: Assigned, b: string): string {
    QNameThen(a.name, a.left + ("=" + (a.right + QuotedThen(a, b))))
  }

  predicate Assignable(a: Assigned, declaration: bool) {
    IsAssigned(a) && (declaration ==> NameCharactersOnly(a.value))
  }

  lemma SpaceStops(space: string, b: string)
    requires Space(space) && Stops(b)
    ensures Stops(space + b)
  {
    if |space| > 0 { assert (space + b)[0] == space[0]; }
  }

  lemma QuotedWritten(a: Assigned, declaration: bool, b: string)
    requires Assignable(a, declaration)
    ensures (if declaration then DeclarationValue(QuotedThen(a, b)) else AttributeValue(QuotedThen(a, b)))
         == Ok(ValueOf(a.value), b)
  {
    Behind(a.quote, PiecesThen(a.value, [a.quote] + b));
    if declaration { PlainWritten(a.value, a.quote, b); } else { ValueWritten(a.value, a.quote, b); }
  }

  lemma AssignmentWritten(a: Assigned, declaration: bool, b: string)
    requires Assignable(a, declaration)
    ensures Assignment(TrimmedThen(a, b), declaration) == Ok(Attribute(a.name, ValueOf(a.value)), b)
  {
    var value := a.right + QuotedThen(a, b);
    var sign := "=" + value;
    SpaceStops(a.left, sign);
    QNameWritten(a.name, a.left + sign);
    SpaceWritten(a.left, sign);
    SpaceWritten(a.right, QuotedThen(a, b));
    Behind('=', value);
    QuotedWritten(a, declaration, b);
  }

  lemma QuotedRead(s: string, declaration: bool) returns (quote: char, ps: seq<Piece>)
    requires (if declaration then DeclarationValue(s) else AttributeValue(s)).Ok?
    ensures var p := if declaration then DeclarationValue(s) else AttributeValue(s);
      && (quote == '\'' || quote == '"') && ArePieces(ps) && NotQuoted(ps, quote)
      && (declaration ==> NameCharactersOnly(ps))
      && p.value == ValueOf(ps) && s == [quote] + PiecesThen(ps, [quote] + p.rest)
  {
    quote := s[0];
    if declaration { ps := PlainRead(s[1..], quote); } else { ps := ValueRead(s[1..], quote); }
    assert s == [s[0]] + s[1..];
  }

  // Where the parts of an assignment begin.
  lemma AssignmentParts(s: string, declaration: bool)
    requires Assignment(s, declaration).Ok?
    ensures QualifiedName(s).Ok?
    ensures var sign := SkipWhitespace(QualifiedName(s).rest);
      && |sign| > 0 && sign[0] == '='
      && var value := SkipWhitespace(sign[1..]);
        && var quoted := if declaration then DeclarationValue(value) else AttributeValue(value);
          && quoted.Ok?
          && Assignment(s, declaration) == Ok(Attribute(QualifiedName(s).value, quoted.value), quoted.rest)
  {
  }

  lemma AssignmentRead(s: string, declaration: bool, before: string) returns (a: Assigned)
    requires Assignment(s, declaration).Ok? && |before| > 0 && Space(before)
    ensures var p := Assignment(s, declaration);
      && Assignable(a, declaration) && a.before == before && s == TrimmedThen(a, p.rest)
      && p.value == Attribute(a.name, ValueOf(a.value))
  {
    AssignmentParts(s, declaration);
    QNameRead(s);
    var name := QualifiedName(s);
    var sign := SkipWhitespace(name.rest);
    var left := SpaceRead(name.rest);
    var right := SpaceRead(sign[1..]);
    var quote, ps := QuotedRead(SkipWhitespace(sign[1..]), declaration);
    a := Assigned(before, name.value, left, right, quote, ps);
    AssignmentIs(a, sign, Assignment(s, declaration).rest);
  }

  lemma AssignmentIs(a: Assigned, sign: string, b: string)
    requires |sign| > 0 && sign[0] == '=' && sign[1..] == a.right + QuotedThen(a, b)
    ensures TrimmedThen(a, b) == QNameThen(a.name, a.left + sign)
  {
    assert sign == "=" + sign[1..];
  }

  // White space, the end of a tag, or the end of the declaration.
  lemma AssignedStops(all: seq<Assigned>, b: string)
    requires AreAssigned(all) && Stops(b)
    ensures Stops(AllAssignedThen(all, b))
  {
    if |all| > 0 {
      var a := all[0];
      assert AssignedThen(a, AllAssignedThen(all[1..], b))[0] == a.before[0];
    }
  }

  lemma TrimmedStarts(a: Assigned, b: string)
    requires IsAssigned(a)
    ensures |TrimmedThen(a, b)| > 0 && Letter(TrimmedThen(a, b)[0])
    ensures AssignedThen(a, b) == a.before + TrimmedThen(a, b)
    ensures SkipWhitespace(AssignedThen(a, b)) == TrimmedThen(a, b)
  {
    QNameStarts(a.name, a.left + ("=" + (a.right + QuotedThen(a, b))));
    SpaceWritten(a.before, TrimmedThen(a, b));
  }

  predicate Unused(all: seq<Assigned>, sofar: seq<Attribute>) {
    forall i :: 0 <= i < |all| ==> !Used(sofar, all[i].name)
  }

  lemma UsedNext(sofar: seq<Attribute>, a: Attribute, name: QName)
    ensures Used(sofar + [a], name) <==> Used(sofar, name) || a.name == name
  {
    var next := sofar + [a];
    assert next[|sofar|] == a;
    forall i | 0 <= i < |sofar| ensures next[i] == sofar[i] {}
  }

  lemma UnusedNext(all: seq<Assigned>, sofar: seq<Attribute>, a: Attribute)
    ensures Unused(all, sofar + [a]) <==> Unused(all, sofar) && forall i :: 0 <= i < |all| ==> all[i].name != a.name
  {
    forall i | 0 <= i < |all|
      ensures Used(sofar + [a], all[i].name) <==> Used(sofar, all[i].name) || a.name == all[i].name
    {
      UsedNext(sofar, a, all[i].name);
    }
  }

  lemma AttributesOfFirst(all: seq<Assigned>, sofar: seq<Attribute>)
    requires |all| > 0
    ensures sofar + AttributesOf(all)
         == sofar + [Attribute(all[0].name, ValueOf(all[0].value))] + AttributesOf(all[1..])
  {
  }

  function Bracket(selfClosing: bool): string {
    if selfClosing then "/>" else ">"
  }

  lemma BracketWritten(space: string, selfClosing: bool, sofar: seq<Attribute>, b: string)
    requires Space(space)
    ensures Attributes(space + (Bracket(selfClosing) + b), sofar) == Ok(TagEnd(sofar, selfClosing), b)
  {
    var end := Bracket(selfClosing) + b;
    assert end[|Bracket(selfClosing)|..] == b;
    assert Attributes(end, sofar) == Ok(TagEnd(sofar, selfClosing), b);
    if |space| == 0 {
      assert space + end == end;
    } else {
      assert (space + end)[0] == space[0];
      SpaceWritten(space, end);
    }
  }

  lemma AttributeRound(s: string, t: string, sofar: seq<Attribute>, a: Attribute, b: string)
    requires |s| > 0 && Whitespace(s[0]) && SkipWhitespace(s) == t && |t| > 0 && Letter(t[0])
    requires Assignment(t, false) == Ok(a, b) && !Used(sofar, a.name)
    ensures Attributes(s, sofar) == Attributes(b, sofar + [a])
  {
    assert "/>"[0] == '/';
  }

  lemma AttributeFirst(a: Assigned, sofar: seq<Attribute>, b: string)
    requires IsAssigned(a) && !Used(sofar, a.name)
    ensures Attributes(AssignedThen(a, b), sofar) == Attributes(b, sofar + [Attribute(a.name, ValueOf(a.value))])
  {
    TrimmedStarts(a, b);
    var t := TrimmedThen(a, b);
    var s := a.before + t;
    assert s[0] == a.before[0];
    AssignmentWritten(a, false, b);
    AttributeRound(s, t, sofar, Attribute(a.name, ValueOf(a.value)), b);
  }

  lemma {:induction false} AttributesWritten(all: seq<Assigned>, space: string, selfClosing: bool,
                                             sofar: seq<Attribute>, b: string)
    requires AreAssigned(all) && Distinct(all) && Unused(all, sofar) && Space(space)
    ensures Attributes(AllAssignedThen(all, space + (Bracket(selfClosing) + b)), sofar)
         == Ok(TagEnd(sofar + AttributesOf(all), selfClosing), b)
    decreases |all|
  {
    if |all| == 0 {
      BracketWritten(space, selfClosing, sofar, b);
      assert sofar + AttributesOf(all) == sofar;
    } else {
      var first := Attribute(all[0].name, ValueOf(all[0].value));
      UnusedNext(all[1..], sofar, first);
      AttributesWritten(all[1..], space, selfClosing, sofar + [first], b);
      AttributeFirst(all[0], sofar, AllAssignedThen(all[1..], space + (Bracket(selfClosing) + b)));
      AttributesOfFirst(all, sofar);
    }
  }

  // What the loop over attributes does in one round.
  predicate EndsTag(s: string) {
    |s| > 0 && (s[0] == '>' || "/>" <= s)
  }

  lemma EndRead(s: string, sofar: seq<Attribute>)
    requires EndsTag(s) && Attributes(s, sofar).Ok?
    ensures var p := Attributes(s, sofar);
      s == Bracket(p.value.selfClosing) + p.rest && p.value.attributes == sofar
  {
    assert s[0] == '>' ==> s == ">" + s[1..];
    assert "/>" <= s ==> s == "/>" + s[2..];
  }

  lemma RoundRead(s: string, sofar: seq<Attribute>)
    requires !EndsTag(s) && Attributes(s, sofar).Ok?
    ensures |s| > 0 && Whitespace(s[0]) && |SkipWhitespace(s)| > 0
    ensures var t := SkipWhitespace(s);
      if t[0] == '>' || t[0] == '/' then EndsTag(t) && Attributes(s, sofar) == Attributes(t, sofar)
      else
        && Assignment(t, false).Ok? && !Used(sofar, Assignment(t, false).value.name)
        && Attributes(s, sofar) == Attributes(Assignment(t, false).rest, sofar + [Assignment(t, false).value])
  {
  }

  lemma FirstAssigned(a: Assigned, more: seq<Assigned>, sofar: seq<Attribute>, first: Attribute)
    requires IsAssigned(a) && AreAssigned(more) && Distinct(more) && Unused(more, sofar + [first])
    requires first == Attribute(a.name, ValueOf(a.value)) && !Used(sofar, a.name)
    ensures AreAssigned([a] + more) && Distinct([a] + more) && Unused([a] + more, sofar)
    ensures sofar + AttributesOf([a] + more) == (sofar + [first]) + AttributesOf(more)
  {
    var all := [a] + more;
    UnusedNext(more, sofar, first);
    AttributesOfFirst(all, sofar);
    assert all[1..] == more;
  }

  lemma {:induction false} AttributesRead(s: string, sofar: seq<Attribute>)
    returns (all: seq<Assigned>, space: string)
    requires Attributes(s, sofar).Ok?
    ensures var p := Attributes(s, sofar);
      && AreAssigned(all) && Distinct(all) && Unused(all, sofar) && Space(space)
      && p.value.attributes == sofar + AttributesOf(all)
      && s == AllAssignedThen(all, space + (Bracket(p.value.selfClosing) + p.rest))
    decreases |s|
  {
    if EndsTag(s) {
      all, space := [], "";
      EndRead(s, sofar);
      assert sofar + AttributesOf(all) == sofar;
    } else {
      RoundRead(s, sofar);
      var t := SkipWhitespace(s);
      var before := SpaceRead(s);
      if t[0] == '>' || t[0] == '/' {
        all, space := [], before;
        EndRead(t, sofar);
        assert sofar + AttributesOf(all) == sofar;
      } else {
        var a := AssignmentRead(t, false, before);
        var first, rest := Assignment(t, false).value, Assignment(t, false).rest;
        var more: seq<Assigned>;
        more, space := AttributesRead(rest, sofar + [first]);
        all := [a] + more;
        FirstAssigned(a, more, sofar, first);
        TrimmedStarts(a, rest);
      }
    }
  }

  // -------------------------------------------------------------------------- tags

  lemma BracketStops(space: string, selfClosing: bool, b: string)
    requires Space(space)
    ensures Stops(space + (Bracket(selfClosing) + b))
  {
    assert (Bracket(selfClosing) + b)[0] == Bracket(selfClosing)[0];
    SpaceStops(space, Bracket(selfClosing) + b);
  }

  // A start tag as written is read as what it says, `/>` included.
  lemma StartWritten(t: Start, selfClosing: bool, b: string)
    requires IsStart(t)
    ensures StartTag(StartThen(t, selfClosing, b)) == Ok(TagOf(t, selfClosing), b)
  {
    var end := t.space + (Bracket(selfClosing) + b);
    var rest := AllAssignedThen(t.attributes, end);
    BracketStops(t.space, selfClosing, b);
    AssignedStops(t.attributes, end);
    QNameWritten(t.name, rest);
    Behind('<', QNameThen(t.name, rest));
    AttributesWritten(t.attributes, t.space, selfClosing, [], b);
    assert [] + AttributesOf(t.attributes) == AttributesOf(t.attributes);
  }

  lemma StartRead(s: string) returns (t: Start)
    requires |s| > 0 && s[0] == '<' && StartTag(s).Ok?
    ensures var p := StartTag(s);
      IsStart(t) && s == StartThen(t, p.value.selfClosing, p.rest) && p.value == TagOf(t, p.value.selfClosing)
  {
    QNameRead(s[1..]);
    var name := QualifiedName(s[1..]);
    var all, space := AttributesRead(name.rest, []);
    t := Start(name.value, all, space);
    assert [] + AttributesOf(all) == AttributesOf(all);
    assert s == "<" + s[1..];
  }

  lemma EndWritten(name: QName, space: string, b: string)
    requires IsQName(name) && Space(space)
    ensures "</" <= EndThen(name, space, b) && EndTag(EndThen(name, space, b)) == Ok(name, b)
  {
    var rest := space + (">" + b);
    BracketStops(space, false, b);
    QNameWritten(name, rest);
    SpaceWritten(space, ">" + b);
    Behind('>', b);
    assert ("</" + QNameThen(name, rest))[2..] == QNameThen(name, rest);
  }

  lemma EndTagRead(s: string) returns (space: string)
    requires "</" <= s && EndTag(s).Ok?
    ensures var p := EndTag(s); IsQName(p.value) && Space(space) && s == EndThen(p.value, space, p.rest)
  {
    QNameRead(s[2..]);
    var rest := QualifiedName(s[2..]).rest;
    space := SpaceRead(rest);
    var t := SkipWhitespace(rest);
    assert t == ">" + t[1..];
    assert s == "</" + s[2..];
  }

  // ---------------------------------------------------- comments, sections and text

  lemma DashesOccur(s: string, i: nat)
    ensures Occurs(s, i, "--") <==> DashesAt(s, i)
    ensures Occurs(s, i, "-->") ==> DashesAt(s, i)
  {
    if i + 2 <= |s| { assert s[i..i + 2] == [s[i]] + [s[i + 1]]; }
    if i + 3 <= |s| { assert s[i..i + 3] == [s[i]] + [s[i + 1]] + [s[i + 2]]; }
  }

  lemma SectionEndOccurs(s: string, i: nat)
    ensures Occurs(s, i, "]]>") <==> SectionEndAt(s, i)
  {
    if i + 3 <= |s| { assert s[i..i + 3] == [s[i]] + [s[i + 1]] + [s[i + 2]]; }
  }

  lemma OccursBehind(a: string, text: string, b: string)
    ensures Occurs(a + (text + b), |a|, text) && (a + (text + b))[|a| + |text|..] == b
    ensures (a + (text + b))[..|a|] == a
  {
  }

  lemma RemarkDashes(text: string, b: string)
    requires |b| > 0 && b[0] == '-'
    ensures IsRemark(text) <==> forall i :: 0 <= i < |text| ==> !DashesAt(text + b, i)
  {
    var s := text + b;
    forall i | 0 <= i < |text|
      ensures DashesAt(s, i) <==> DashesAt(text, i) || (i == |text| - 1 && text[i] == '-')
    {
      if i < |text| - 1 { assert s[i] == text[i] && s[i + 1] == text[i + 1]; } else { assert s[i + 1] == b[0]; }
    }
  }

  lemma RemarkWritten(text: string, b: string)
    requires IsRemark(text)
    ensures "<!--" <= RemarkThen(text, b) && Comment(RemarkThen(text, b)) == Ok((), b)
  {
    var t := text + ("-->" + b);
    assert RemarkThen(text, b)[4..] == t;
    RemarkDashes(text, "-->" + b);
    OccursBehind(text, "-->", b);
    forall i: nat ensures (Occurs(t, i, "--") <==> DashesAt(t, i)) && (Occurs(t, i, "-->") ==> DashesAt(t, i)) {
      DashesOccur(t, i);
    }
    TextFoundAt(t, "-->", |text|);
    TextFoundAt(t, "--", |text|);
  }

  lemma RemarkRead(s: string) returns (text: string)
    requires "<!--" <= s && Comment(s).Ok?
    ensures IsRemark(text) && s == RemarkThen(text, Comment(s).rest)
  {
    var t := s[4..];
    var end := FindText(t, "-->");
    text := t[..end];
    var b := t[end + 3..];
    assert t[end..end + 3] == "-->";
    assert t == text + ("-->" + b);
    assert s == "<!--" + t;
    forall i | 0 <= i < |text| ensures !DashesAt(text + ("-->" + b), i) { DashesOccur(t, i); }
    RemarkDashes(text, "-->" + b);
  }

  lemma SectionEnds(text: string, b: string)
    requires |b| > 0 && b[0] != '>' && (|b| > 1 ==> b[1] != '>')
    ensures NoSectionEnd(text) <==> forall i :: 0 <= i < |text| ==> !SectionEndAt(text + b, i)
  {
    var s := text + b;
    forall i | 0 <= i < |text| ensures SectionEndAt(s, i) <==> SectionEndAt(text, i) {
      if i + 2 < |text| {
        assert s[i] == text[i] && s[i + 1] == text[i + 1] && s[i + 2] == text[i + 2];
      } else if i + 2 < |s| {
        assert s[i + 2] == b[i + 2 - |text|];
      }
    }
  }

  lemma SectionWritten(text: string, b: string)
    requires NoSectionEnd(text)
    ensures "<![CDATA[" <= SectionThen(text, b) && Cdata(SectionThen(text, b)) == Ok(text, b)
  {
    var t := text + ("]]>" + b);
    assert SectionThen(text, b)[9..] == t;
    SectionEnds(text, "]]>" + b);
    OccursBehind(text, "]]>", b);
    forall i: nat ensures Occurs(t, i, "]]>") <==> SectionEndAt(t, i) { SectionEndOccurs(t, i); }
    TextFoundAt(t, "]]>", |text|);
  }

  lemma SectionRead(s: string)
    requires "<![CDATA[" <= s && Cdata(s).Ok?
    ensures NoSectionEnd(Cdata(s).value) && s == SectionThen(Cdata(s).value, Cdata(s).rest)
  {
    var t := s[9..];
    var end := FindText(t, "]]>");
    var text, b := t[..end], t[end + 3..];
    assert t[end..end + 3] == "]]>";
    assert t == text + ("]]>" + b);
    assert s == "<![CDATA[" + t;
    forall i | 0 <= i < |text| ensures !SectionEndAt(text + ("]]>" + b), i) { SectionEndOccurs(t, i); }
    SectionEnds(text, "]]>" + b);
  }

  lemma {:induction false} PiecesSplit(ps: seq<Piece>, b: string)
    ensures PiecesThen(ps, b) == PiecesThen(ps, "") + b
    decreases |ps|
  {
    if |ps| > 0 {
      PiecesSplit(ps[1..], b);
      PieceSplit(ps[0], PiecesThen(ps[1..], ""), b);
    }
  }

  lemma PieceSplit(p: Piece, a: string, b: string)
    ensures PieceThen(p, a + b) == PieceThen(p, a) + b
  {
  }

  lemma {:induction false} PiecesInside(ps: seq<Piece>)
    requires ArePieces(ps)
    ensures '<' !in PiecesThen(ps, "")
    decreases |ps|
  {
    if |ps| > 0 {
      PiecesInside(ps[1..]);
      if ps[0].Coded? { NameInside(ps[0].name, ps[0].c); }
    }
  }

  lemma CharacterStep(p: Piece, n: nat, b: string)
    requires IsPiece(p) && n <= |b|
    ensures TextCharacters(PieceThen(p, b), |PieceThen(p, b)| - |b| + n) == Prepend(p.c, TextCharacters(b, n))
  {
    PieceRead(p, b);
  }

  lemma {:induction false} CharactersWritten(ps: seq<Piece>, b: string)
    requires ArePieces(ps)
    ensures |PiecesThen(ps, "")| <= |PiecesThen(ps, b)|
    ensures TextCharacters(PiecesThen(ps, b), |PiecesThen(ps, "")|) == Ok(Characters(ps), b)
    decreases |ps|
  {
    PiecesSplit(ps, b);
    if |ps| > 0 {
      var rest := ps[1..];
      CharactersWritten(rest, b);
      PiecesSplit(rest, b);
      CharacterStep(ps[0], |PiecesThen(rest, "")|, PiecesThen(rest, b));
      PieceSplit(ps[0], PiecesThen(rest, ""), b);
    }
  }

  // The first piece of text, and what is left of it.
  lemma CharacterRead(s: string, n: nat) returns (p: Piece, rest: string, left: nat)
    requires 0 < n <= |s| && TextCharacters(s, n).Ok? && '<' !in s[..n]
    ensures IsPiece(p) && s == PieceThen(p, rest) && left < n && left <= |rest| && |s| - |rest| == n - left
    ensures TextCharacters(s, n) == Prepend(p.c, TextCharacters(rest, left))
    ensures rest[..left] == s[n - left..n] && rest[left..] == s[n..]
  {
    assert s[..n][0] == s[0];
    p := PieceOf(s);
    rest := NextCharacter(s).rest;
    left := n - (|s| - |rest|);
    Cut(s, n - left, n);
  }

  lemma Cut(s: string, i: nat, n: nat)
    requires i <= n <= |s|
    ensures s[i..][..n - i] == s[i..n] && s[i..][n - i..] == s[n..]
  {
  }

  lemma Within(s: string, i: nat, n: nat)
    requires i <= n <= |s| && '<' !in s[..n]
    ensures '<' !in s[i..n]
  {
    assert s[..n][i..] == s[i..n];
  }

  lemma {:induction false} CharactersRead(s: string, n: nat) returns (ps: seq<Piece>)
    requires n <= |s| && TextCharacters(s, n).Ok? && '<' !in s[..n]
    ensures ArePieces(ps) && TextCharacters(s, n) == Ok(Characters(ps), s[n..]) && s == PiecesThen(ps, s[n..])
    decreases n
  {
    if n == 0 {
      ps := [];
    } else {
      var p, rest, left := CharacterRead(s, n);
      Within(s, n - left, n);
      var more := CharactersRead(rest, left);
      ps := [p] + more;
    }
  }

  lemma PieceOf(s: string) returns (p: Piece)
    requires |s| > 0 && s[0] != '<' && NextCharacter(s).Ok?
    ensures IsPiece(p) && p.c == NextCharacter(s).value && s == PieceThen(p, NextCharacter(s).rest)
    ensures NextCharacter(s).rest == s[|s| - |NextCharacter(s).rest|..]
  {
    if s[0] == '&' {
      var name := ReferenceRead(s);
      p := Coded(name, Reference(s).value);
    } else {
      p := Plain(s[0]);
      assert s == [s[0]] + s[1..];
    }
  }

  lemma TextWritten(ps: seq<Piece>, b: string)
    requires IsText(ps) && |ps| > 0 && |b| > 0 && b[0] == '<'
    ensures var s := PiecesThen(ps, b); |s| > 0 && s[0] != '<' && Text(s) == Ok(Characters(ps), b)
  {
    var raw, s := PiecesThen(ps, ""), PiecesThen(ps, b);
    PiecesSplit(ps, b);
    PiecesInside(ps);
    FoundBehind(raw, '<', b);
    PieceRead(ps[0], PiecesThen(ps[1..], b));
    SectionEnds(raw, "<");
    forall i | 0 <= i < |raw| ensures !Occurs(s, i, "]]>") {
      SectionEndOccurs(s, i);
      SectionElsewhere(raw, b, i);
    }
    CharactersWritten(ps, b);
  }

  // A section end before a tag is one in the text before it.
  lemma SectionElsewhere(raw: string, b: string, i: nat)
    requires i < |raw| && |b| > 0 && b[0] == '<'
    ensures SectionEndAt(raw + b, i) ==> SectionEndAt(raw, i)
  {
    assert (raw + b)[|raw|] == '<';
  }

  lemma TextRead(s: string) returns (ps: seq<Piece>)
    requires |s| > 0 && s[0] != '<' && Text(s).Ok?
    ensures IsText(ps) && Text(s).value == Characters(ps) && s == PiecesThen(ps, Text(s).rest)
    ensures |Text(s).rest| > 0 ==> Text(s).rest[0] == '<'
  {
    var end := Find(s, '<');
    ps := CharactersRead(s, end);
    PiecesSplit(ps, s[end..]);
    Parts(s[..end], s[end..]);
    assert PiecesThen(ps, "") == s[..end];
    forall i | 0 <= i < end ensures !SectionEndAt(s[..end], i) {
      SectionEndOccurs(s, i);
      assert SectionEndAt(s[..end], i) ==> SectionEndAt(s, i);
    }
  }
}
