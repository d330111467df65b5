// S3XMLReader reads exactly the documents of the grammar: every document that is
// written by it is read as what it says, and every input that is read was written
// by it.
module XmlExact {
  import opened Common
  import opened XmlSyntax
  import opened XmlDocument
  import opened XmlNamespaces
  import opened XmlGrammar
  import opened XmlLexing

  // ---------------------------------------------------------- what is written is read

  function Plus(sofar: WrittenInner, text: string, children: seq<Written>): WrittenInner {
    WrittenInner(sofar.text + text, sofar.children + children)
  }

  lemma PlusPlus(sofar: WrittenInner, a: string, xs: seq<Written>, b: string, ys: seq<Written>)
    ensures Plus(Plus(sofar, a, xs), b, ys) == Plus(sofar, a + b, xs + ys)
  {
    assert sofar.text + a + b == sofar.text + (a + b);
    assert sofar.children + xs + ys == sofar.children + (xs + ys);
  }

  lemma PlusNothing(sofar: WrittenInner)
    ensures Plus(sofar, "", []) == sofar
  {
  }

  lemma CharsRead(ps: seq<Piece>, b: string, depth: nat, sofar: WrittenInner)
    requires IsText(ps) && |b| > 0 && b[0] == '<'
    ensures WrittenContent(PiecesThen(ps, b), depth, sofar) == WrittenContent(b, depth, Plus(sofar, Characters(ps), []))
  {
    PlusNothing(sofar);
    if |ps| > 0 {
      TextWritten(ps, b);
      assert sofar.children + [] == sofar.children;
    }
  }

  function SaidText(m: Particle): string {
    if m.Section? then m.text else ""
  }

  function SaidChildren(m: Particle): seq<Written> {
    if m.Nested? then [Meaning(m.element)] else []
  }

  lemma ConcreteStarts(x: Concrete, b: string)
    requires IsStart(x.start)
    ensures var s := ConcreteThen(x, b);
      |s| > 1 && s[0] == '<' && Letter(s[1]) && !("<!--" <= s) && !Markup(s) && !("<?xml" <= s)
  {
    var s := ConcreteThen(x, b);
    var rest := s[1..];
    var end := if x.Empty? then b else ItemsThen(x.items, EndThen(x.start.name, x.space, b));
    QNameStarts(x.start.name, AllAssignedThen(x.start.attributes, x.start.space + (Bracket(x.Empty?) + end)));
    assert s[1] == rest[0];
    TagFirst(s);
  }

  lemma TagFirst(s: string)
    requires |s| > 1 && s[0] == '<' && Letter(s[1])
    ensures !("<!--" <= s) && !("<![CDATA[" <= s) && !("</" <= s) && !("<!" <= s) && !("<?" <= s) && !("<?xml" <= s)
  {
    assert "<!--"[1] == '!' && "<![CDATA["[1] == '!' && "<!"[1] == '!';
    assert "</"[1] == '/' && "<?"[1] == '?' && "<?xml"[1] == '?';
  }

  lemma SectionFirst(s: string)
    requires "<![CDATA[" <= s
    ensures !("<!--" <= s)
  {
    assert "<![CDATA["[2] == '[' && "<!--"[2] == '-';
  }

  lemma EndFirst(s: string)
    requires "</" <= s
    ensures !("<!--" <= s) && !("<![CDATA[" <= s)
  {
    assert "</"[1] == '/' && "<!--"[1] == '!' && "<![CDATA["[1] == '!';
  }

  lemma PlusText(sofar: WrittenInner, text: string)
    ensures Plus(sofar, text, []) == sofar.(text := sofar.text + text)
  {
  }

  lemma PlusChild(sofar: WrittenInner, x: Written)
    ensures Plus(sofar, "", [x]) == sofar.(children := sofar.children + [x])
  {
  }

  // A section, a comment or an element inside another.
  lemma ParticleRead(m: Particle, b: string, depth: nat, sofar: WrittenInner)
    requires IsParticle(m, depth)
    requires m.Nested? ==> WrittenElement(ConcreteThen(m.element, b), depth) == Ok(Meaning(m.element), b)
    ensures WrittenContent(ParticleThen(m, b), depth, sofar)
         == WrittenContent(b, depth, Plus(sofar, SaidText(m), SaidChildren(m)))
  {
    match m
    case Section(text) =>
      SectionWritten(text, b);
      SectionFirst(SectionThen(text, b));
      PlusText(sofar, text);
    case Remark(text) =>
      RemarkWritten(text, b);
      PlusNothing(sofar);
    case Nested(element) =>
      ConcreteStarts(element, b);
      PlusChild(sofar, Meaning(element));
  }

  lemma ContentEnd(b: string, depth: nat, sofar: WrittenInner)
    requires "</" <= b
    ensures WrittenContent(b, depth, sofar) == Ok(sofar, b)
  {
    EndFirst(b);
  }

  lemma {:induction false} ItemsRead(items: Items, b: string, depth: nat, sofar: WrittenInner)
    requires AreItems(items, depth) && "</" <= b
    ensures WrittenContent(ItemsThen(items, b), depth, sofar)
         == Ok(Plus(sofar, TextIn(items), ChildrenIn(items)), b)
    decreases items
  {
    match items
    case Final(chars) =>
      CharsRead(chars, b, depth, sofar);
      ContentEnd(b, depth, Plus(sofar, Characters(chars), []));
    case Before(chars, particle, rest) =>
      var behind := ItemsThen(rest, b);
      var first := Plus(sofar, Characters(chars), []);
      if particle.Nested? { ConcreteRead(particle.element, behind, depth); }
      CharsRead(chars, ParticleThen(particle, behind), depth, sofar);
      ParticleRead(particle, behind, depth, first);
      ItemsRead(rest, b, depth, Plus(first, SaidText(particle), SaidChildren(particle)));
      PlusPlus(first, SaidText(particle), SaidChildren(particle), TextIn(rest), ChildrenIn(rest));
      PlusPlus(sofar, Characters(chars), [], SaidText(particle) + TextIn(rest),
               SaidChildren(particle) + ChildrenIn(rest));
      assert [] + (SaidChildren(particle) + ChildrenIn(rest)) == ChildrenIn(items);
  }

  lemma ElementOpens(s: string, tag: Tag, rest: string, depth: nat)
    requires |s| > 0 && s[0] == '<' && StartTag(s) == Ok(tag, rest) && depth < MAX_DEPTH
    ensures WrittenElement(s, depth) ==
      if tag.selfClosing then Ok(Written(tag, "", []), rest) else WrittenBody(rest, tag, depth + 1)
  {
  }

  lemma BodyEnds(s: string, tag: Tag, inner: WrittenInner, end: string, name: QName, b: string, depth: nat)
    requires WrittenContent(s, depth, WrittenInner("", [])) == Ok(inner, end)
    requires "</" <= end && EndTag(end) == Ok(name, b)
    ensures WrittenBody(s, tag, depth) ==
      if name == tag.name then Ok(Written(tag, inner.text, inner.children), b) else Fail
  {
  }

  lemma Inside(items: Items)
    ensures Plus(WrittenInner("", []), TextIn(items), ChildrenIn(items))
         == WrittenInner(TextIn(items), ChildrenIn(items))
  {
  }

  lemma BodyRead(start: Start, items: Items, space: string, b: string, depth: nat)
    requires IsStart(start) && Space(space)
    requires var end := EndThen(start.name, space, b);
      WrittenContent(ItemsThen(items, end), depth, WrittenInner("", []))
        == Ok(Plus(WrittenInner("", []), TextIn(items), ChildrenIn(items)), end)
    ensures WrittenBody(ItemsThen(items, EndThen(start.name, space, b)), TagOf(start, false), depth)
         == Ok(Meaning(Filled(start, items, space)), b)
  {
    var end := EndThen(start.name, space, b);
    EndWritten(start.name, space, b);
    Inside(items);
    BodyEnds(ItemsThen(items, end), TagOf(start, false), WrittenInner(TextIn(items), ChildrenIn(items)), end,
             start.name, b, depth);
  }

  // An element is read as what it says, and nothing beyond it is read.
  lemma {:induction false} ConcreteRead(x: Concrete, b: string, depth: nat)
    requires IsConcrete(x, depth)
    ensures WrittenElement(ConcreteThen(x, b), depth) == Ok(Meaning(x), b)
    decreases x
  {
    match x
    case Empty(start) =>
      StartWritten(start, true, b);
      ElementOpens(ConcreteThen(x, b), TagOf(start, true), b, depth);
    case Filled(start, items, space) =>
      var end := EndThen(start.name, space, b);
      EndWritten(start.name, space, b);
      ItemsRead(items, end, depth + 1, WrittenInner("", []));
      BodyRead(start, items, space, b, depth + 1);
      StartWritten(start, false, ItemsThen(items, end));
      ElementOpens(ConcreteThen(x, b), TagOf(start, false), ItemsThen(items, end), depth);
  }

  // ------------------------------------------------------------ what is read is written

  // Text up to the next tag, which may be none.
  lemma LeadingChars(s: string, depth: nat, sofar: WrittenInner) returns (ps: seq<Piece>, t: string)
    requires WrittenContent(s, depth, sofar).Ok?
    ensures IsText(ps) && s == PiecesThen(ps, t) && |t| <= |s| && |t| > 0 && t[0] == '<'
    ensures WrittenContent(s, depth, sofar) == WrittenContent(t, depth, Plus(sofar, Characters(ps), []))
  {
    if s[0] == '<' {
      ps, t := [], s;
      PlusNothing(sofar);
    } else {
      ps := TextRead(s);
      t := Text(s).rest;
      PlusText(sofar, Characters(ps));
    }
  }

  // One round of reading content.
  lemma LeadingParticle(s: string, depth: nat, sofar: WrittenInner) returns (m: Particle, t: string)
    requires WrittenContent(s, depth, sofar).Ok? && s[0] == '<' && !("</" <= s)
    requires !("<!--" <= s) && !("<![CDATA[" <= s) ==>
      WrittenElement(s, depth).Ok? &&
      exists x: Concrete ::
        IsConcrete(x, depth) && s == ConcreteThen(x, WrittenElement(s, depth).rest)
        && WrittenElement(s, depth).value == Meaning(x)
    ensures IsParticle(m, depth) && s == ParticleThen(m, t) && |t| < |s|
    ensures WrittenContent(s, depth, sofar) == WrittenContent(t, depth, Plus(sofar, SaidText(m), SaidChildren(m)))
  {
    if "<!--" <= s {
      var text := RemarkRead(s);
      m, t := Remark(text), Comment(s).rest;
      PlusNothing(sofar);
    } else if "<![CDATA[" <= s {
      SectionRead(s);
      m, t := Section(Cdata(s).value), Cdata(s).rest;
      PlusText(sofar, Cdata(s).value);
    } else {
      var x: Concrete :| IsConcrete(x, depth) && s == ConcreteThen(x, WrittenElement(s, depth).rest)
                         && WrittenElement(s, depth).value == Meaning(x);
      m, t := Nested(x), WrittenElement(s, depth).rest;
      PlusChild(sofar, Meaning(x));
    }
  }

  lemma ElementNext(s: string, depth: nat, sofar: WrittenInner)
    requires WrittenContent(s, depth, sofar).Ok? && |s| > 0 && s[0] == '<' && !("</" <= s)
    requires !("<!--" <= s) && !("<![CDATA[" <= s)
    ensures WrittenElement(s, depth).Ok?
  {
  }

  lemma {:induction false} ItemsOf(s: string, depth: nat, sofar: WrittenInner) returns (items: Items)
    requires WrittenContent(s, depth, sofar).Ok?
    ensures var p := WrittenContent(s, depth, sofar);
      && AreItems(items, depth) && s == ItemsThen(items, p.rest)
      && p.value == Plus(sofar, TextIn(items), ChildrenIn(items))
    decreases |s|, 1
  {
    var ps, t := LeadingChars(s, depth, sofar);
    var first := Plus(sofar, Characters(ps), []);
    if "</" <= t {
      items := Final(ps);
      ContentEnd(t, depth, first);
    } else {
      if !("<!--" <= t) && !("<![CDATA[" <= t) {
        ElementNext(t, depth, first);
        var x := ConcreteOf(t, depth);
      }
      var m, u := LeadingParticle(t, depth, first);
      var rest := ItemsOf(u, depth, Plus(first, SaidText(m), SaidChildren(m)));
      items := Before(ps, m, rest);
      PlusPlus(first, SaidText(m), SaidChildren(m), TextIn(rest), ChildrenIn(rest));
      PlusPlus(sofar, Characters(ps), [], SaidText(m) + TextIn(rest), SaidChildren(m) + ChildrenIn(rest));
      assert [] + (SaidChildren(m) + ChildrenIn(rest)) == ChildrenIn(items);
    }
  }

  // The content and the end tag of an element that has one.
  lemma BodyParts(s: string, tag: Tag, depth: nat)
    requires WrittenBody(s, tag, depth).Ok?
    ensures WrittenContent(s, depth, WrittenInner("", [])).Ok?
    ensures var content, p := WrittenContent(s, depth, WrittenInner("", [])), WrittenBody(s, tag, depth);
      && "</" <= content.rest && EndTag(content.rest) == Ok(tag.name, p.rest)
      && p.value == Written(tag, content.value.text, content.value.children)
  {
  }

  lemma FilledIs(start: Start, items: Items, space: string, tag: Tag, inner: WrittenInner, x: Written)
    requires tag == TagOf(start, false) && inner == Plus(WrittenInner("", []), TextIn(items), ChildrenIn(items))
    requires x == Written(tag, inner.text, inner.children)
    ensures Meaning(Filled(start, items, space)) == x
  {
    Inside(items);
  }

  lemma {:induction false} ConcreteOf(s: string, depth: nat) returns (x: Concrete)
    requires |s| > 0 && s[0] == '<' && WrittenElement(s, depth).Ok?
    ensures var p := WrittenElement(s, depth);
      IsConcrete(x, depth) && s == ConcreteThen(x, p.rest) && p.value == Meaning(x)
    decreases |s|, 0
  {
    var start := StartRead(s);
    var tag, rest := StartTag(s).value, StartTag(s).rest;
    ElementOpens(s, tag, rest, depth);
    if tag.selfClosing {
      x := Empty(start);
    } else {
      BodyParts(rest, tag, depth + 1);
      var content := WrittenContent(rest, depth + 1, WrittenInner("", []));
      var items := ItemsOf(rest, depth + 1, WrittenInner("", []));
      var space := EndTagRead(content.rest);
      x := Filled(start, items, space);
      FilledIs(start, items, space, tag, content.value, WrittenElement(s, depth).value);
    }
  }

  // ------------------------------------------------------------ outside the root

  predicate Turns(b: string) {
    |b| > 0 ==> b[0] == '<'
  }

  lemma SpaceOutside(space: string, b: string)
    requires Space(space) && Turns(b)
    ensures Outside(space + b) == Outside(b)
  {
    if |space| == 0 {
      assert space + b == b;
    } else {
      var s := space + b;
      assert s[0] == space[0];
      if |b| > 0 { FoundBehind(space, '<', b); } else { assert s == space; }
      assert forall i :: 0 <= i < |space| ==> s[i] == space[i];
      assert s[|space|..] == b;
    }
  }

  predicate Resumes(b: string) {
    |b| > 0 ==> b[0] == '<' && !("<!--" <= b)
  }

  lemma {:induction false} RemarksRead(remarks: seq<(string, string)>, space: string, b: string)
    requires IsMisc(Misc(remarks, space)) && Resumes(b)
    ensures Outside(RemarksThen(remarks, space + b)) == Some(b)
    decreases |remarks|
  {
    if |remarks| == 0 {
      SpaceOutside(space, b);
    } else {
      var rest := RemarksThen(remarks[1..], space + b);
      RemarksRead(remarks[1..], space, b);
      RemarkWritten(remarks[0].1, rest);
      SpaceOutside(remarks[0].0, RemarkThen(remarks[0].1, rest));
    }
  }

  lemma MiscRead(m: Misc, b: string)
    requires IsMisc(m) && Resumes(b)
    ensures Outside(MiscThen(m, b)) == Some(b)
  {
    RemarksRead(m.remarks, m.space, b);
  }

  lemma WithSpace(space: string, m: Misc, b: string) returns (m': Misc)
    requires Space(space) && IsMisc(m)
    ensures IsMisc(m') && MiscThen(m', b) == space + MiscThen(m, b)
  {
    if |m.remarks| == 0 {
      m' := Misc([], space + m.space);
      assert (space + m.space) + b == space + (m.space + b);
    } else {
      var first := (space + m.remarks[0].0, m.remarks[0].1);
      m' := Misc([first] + m.remarks[1..], m.space);
      assert m'.remarks[1..] == m.remarks[1..];
      var rest := RemarkThen(m.remarks[0].1, RemarksThen(m.remarks[1..], m.space + b));
      assert (space + m.remarks[0].0) + rest == space + (m.remarks[0].0 + rest);
    }
  }

  // One round of skipping what is outside the root.
  lemma OutsideSpace(s: string) returns (space: string, t: string)
    requires |s| > 0 && s[0] != '<' && Outside(s).Some?
    ensures Space(space) && s == space + t && |t| < |s| && Outside(s) == Outside(t)
  {
    var end := Find(s, '<');
    space, t := s[..end], s[end..];
    assert forall i :: 0 <= i < end ==> space[i] == s[i];
  }

  lemma OutsideRemark(s: string) returns (text: string, t: string)
    requires "<!--" <= s && Outside(s).Some?
    ensures IsRemark(text) && s == RemarkThen(text, t) && |t| < |s| && Outside(s) == Outside(t)
  {
    assert s[0] == '<';
    text := RemarkRead(s);
    t := Comment(s).rest;
  }

  lemma WithRemark(text: string, m: Misc, b: string) returns (m': Misc)
    requires IsRemark(text) && IsMisc(m)
    ensures IsMisc(m') && MiscThen(m', b) == RemarkThen(text, MiscThen(m, b))
  {
    m' := Misc([("", text)] + m.remarks, m.space);
    assert m'.remarks[1..] == m.remarks;
    Nothing(RemarkThen(text, MiscThen(m, b)));
  }

  lemma Nothing(b: string)
    ensures "" + b == b
  {
  }

  lemma {:induction false} MiscOf(s: string) returns (m: Misc)
    requires Outside(s).Some?
    ensures IsMisc(m) && s == MiscThen(m, Outside(s).value) && Resumes(Outside(s).value)
    decreases |s|
  {
    if |s| > 0 && s[0] != '<' {
      var space, t := OutsideSpace(s);
      var more := MiscOf(t);
      m := WithSpace(space, more, Outside(s).value);
    } else if "<!--" <= s {
      var text, t := OutsideRemark(s);
      var more := MiscOf(t);
      m := WithRemark(text, more, Outside(s).value);
    } else {
      m := Misc([], "");
      Nothing(s);
    }
  }

  // --------------------------------------------------------------- XML declaration

  predicate Separates(b: string) {
    "?>" <= b || (|b| > 0 && SpaceCharacter(b[0]))
  }

  lemma HeadingSeparates(all: seq<Assigned>, space: string, b: string)
    requires AreHeadings(all) && Space(space)
    ensures Separates(AllAssignedThen(all, space + ("?>" + b)))
  {
    if |all| > 0 {
      var a := all[0];
      assert AssignedThen(a, AllAssignedThen(all[1..], space + ("?>" + b)))[0] == a.before[0];
    } else if |space| > 0 {
      assert (space + ("?>" + b))[0] == space[0];
    } else {
      assert space + ("?>" + b) == "?>" + b;
    }
  }

  lemma HeadingFirst(a: Assigned, sofar: seq<Attribute>, b: string)
    requires Assignable(a, true) && a.name.prefix == "" && Separates(b)
    ensures DeclarationAttributes(AssignedThen(a, b), sofar)
         == DeclarationAttributes(b, sofar + [Attribute(a.name, ValueOf(a.value))])
  {
    TrimmedStarts(a, b);
    AssignmentWritten(a, true, b);
    assert "?>"[0] == '?';
  }

  lemma HeadingEnds(space: string, sofar: seq<Attribute>, b: string)
    requires Space(space)
    ensures DeclarationAttributes(space + ("?>" + b), sofar) == Ok(sofar, b)
  {
    var end := "?>" + b;
    assert end[0] == '?' && end[2..] == b;
    SpaceWritten(space, end);
  }

  lemma {:induction false} HeadingsRead(all: seq<Assigned>, space: string, sofar: seq<Attribute>, b: string)
    requires AreHeadings(all) && Space(space)
    ensures DeclarationAttributes(AllAssignedThen(all, space + ("?>" + b)), sofar) == Ok(sofar + AttributesOf(all), b)
    decreases |all|
  {
    if |all| == 0 {
      HeadingEnds(space, sofar, b);
      assert sofar + AttributesOf(all) == sofar;
    } else {
      var first := Attribute(all[0].name, ValueOf(all[0].value));
      HeadingSeparates(all[1..], space, b);
      HeadingsRead(all[1..], space, sofar + [first], b);
      HeadingFirst(all[0], sofar, AllAssignedThen(all[1..], space + ("?>" + b)));
      AttributesOfFirst(all, sofar);
    }
  }

  // One round of reading the declaration.
  lemma HeadingRound(s: string, sofar: seq<Attribute>)
    requires Separates(s) && DeclarationAttributes(s, sofar).Ok? && !("?>" <= SkipWhitespace(s))
    ensures var t := SkipWhitespace(s);
      && |t| < |s| && Assignment(t, true).Ok?
      && var p := Assignment(t, true);
        && p.value.name.prefix == "" && Separates(p.rest)
        && DeclarationAttributes(s, sofar) == DeclarationAttributes(p.rest, sofar + [p.value])
  {
  }

  lemma FirstHeading(a: Assigned, more: seq<Assigned>, sofar: seq<Attribute>, first: Attribute)
    requires Assignable(a, true) && a.name.prefix == "" && AreHeadings(more)
    requires first == Attribute(a.name, ValueOf(a.value))
    ensures AreHeadings([a] + more) && ([a] + more)[1..] == more
    ensures sofar + AttributesOf([a] + more) == (sofar + [first]) + AttributesOf(more)
  {
    assert ([a] + more)[1..] == more;
    AttributesOfFirst([a] + more, sofar);
  }

  lemma {:induction false} HeadingsOf(s: string, sofar: seq<Attribute>)
    returns (all: seq<Assigned>, space: string)
    requires Separates(s) && DeclarationAttributes(s, sofar).Ok?
    ensures var p := DeclarationAttributes(s, sofar);
      && AreHeadings(all) && Space(space) && p.value == sofar + AttributesOf(all)
      && s == AllAssignedThen(all, space + ("?>" + p.rest))
    decreases |s|
  {
    var t := SkipWhitespace(s);
    var before := SpaceRead(s);
    if "?>" <= t {
      all, space := [], before;
      assert t == "?>" + t[2..];
      assert sofar + AttributesOf(all) == sofar;
    } else {
      HeadingRound(s, sofar);
      var a := AssignmentRead(t, true, before);
      var first, rest := Assignment(t, true).value, Assignment(t, true).rest;
      var more: seq<Assigned>;
      more, space := HeadingsOf(rest, sofar + [first]);
      all := [a] + more;
      FirstHeading(a, more, sofar, first);
      TrimmedStarts(a, rest);
    }
  }

  lemma LowerAt(v: string)
    requires |v| == 5
    ensures Lower(v) == "utf-8" <==> forall i :: 0 <= i < 5 ==> EitherCase(v[i], "utf-8"[i])
  {
    var lower := Lower(v);
    assert forall i :: 0 <= i < 5 ==> (lower[i] == "utf-8"[i] <==> EitherCase(v[i], "utf-8"[i]));
    if forall i :: 0 <= i < 5 ==> EitherCase(v[i], "utf-8"[i]) { assert lower == "utf-8"; }
  }

  lemma EncodingExactly(v: string)
    ensures Lower(v) == "utf-8" <==> |v| == 5 && forall i :: 0 <= i < 5 ==> EitherCase(v[i], "utf-8"[i])
  {
    assert |Lower(v)| == |v|;
    if |v| == 5 { LowerAt(v); }
  }

  lemma ValuesApart()
    ensures "version" != "encoding" && "version" != "standalone" && "encoding" != "standalone"
  {
    assert "version"[0] == 'v' && "encoding"[0] == 'e' && "standalone"[0] == 's';
  }

  lemma ValueExactly(value: string)
    ensures HeadingValue("version", value) <==> value == "1.0"
    ensures HeadingValue("encoding", value) <==> Lower(value) == "utf-8"
    ensures HeadingValue("standalone", value) <==> value == "yes" || value == "no"
  {
    ValuesApart();
    EncodingExactly(value);
  }

  lemma NamesExactly(names: seq<string>)
    ensures HeadingNames(names) <==>
      && |names| > 0 && names[0] == "version"
      && var next := if |names| > 1 && names[1] == "encoding" then 2 else 1;
        |names| == next || (|names| == next + 1 && names[next] == "standalone")
  {
    ValuesApart();
    if |names| == 1 { assert names == [names[0]]; }
    if |names| == 2 { assert names == [names[0], names[1]]; }
    if |names| == 3 { assert names == [names[0], names[1], names[2]]; }
  }

  lemma AcceptedExactly(all: seq<Attribute>)
    ensures AcceptedDeclaration(all) <==> HeadingNames(LocalNames(all)) && HeadingValues(all)
  {
    NamesExactly(LocalNames(all));
    forall i | 0 <= i < |all|
      ensures (all[i].name.local == "version" ==>
        (HeadingValue(all[i].name.local, all[i].value) <==> all[i].value == "1.0"))
      ensures (all[i].name.local == "encoding" ==>
        (HeadingValue(all[i].name.local, all[i].value) <==> Lower(all[i].value) == "utf-8"))
      ensures (all[i].name.local == "standalone" ==>
        (HeadingValue(all[i].name.local, all[i].value) <==> all[i].value == "yes" || all[i].value == "no"))
    {
      ValueExactly(all[i].value);
    }
  }

  lemma HeadingRead(h: Heading, b: string)
    requires IsHeading(h)
    ensures "<?xml" <= HeadingThen(h, b) && Declaration(HeadingThen(h, b)) == Ok(AttributesOf(h.attributes), b)
  {
    var rest := AllAssignedThen(h.attributes, h.space + ("?>" + b));
    var none: seq<Attribute> := [];
    assert HeadingThen(h, b)[5..] == rest;
    assert |h.attributes| == |LocalNames(AttributesOf(h.attributes))| > 0;
    assert rest[0] == h.attributes[0].before[0];
    HeadingsRead(h.attributes, h.space, none, b);
    assert none + AttributesOf(h.attributes) == AttributesOf(h.attributes);
    AcceptedExactly(AttributesOf(h.attributes));
  }

  lemma HeadingOf(s: string) returns (h: Heading)
    requires "<?xml" <= s && Declaration(s).Ok?
    ensures IsHeading(h) && s == HeadingThen(h, Declaration(s).rest)
  {
    var none: seq<Attribute> := [];
    var all, space := HeadingsOf(s[5..], none);
    h := Heading(all, space);
    assert none + AttributesOf(all) == AttributesOf(all);
    AcceptedExactly(AttributesOf(all));
    assert s == "<?xml" + s[5..];
  }

  // --------------------------------------------------------------------- documents

  function BodyText(d: Document): string {
    MiscThen(d.before, ConcreteThen(d.root, MiscThen(d.after, "")))
  }

  lemma BodyStarts(before: Misc, x: Concrete, b: string)
    requires IsMisc(before) && IsStart(x.start)
    ensures var s := MiscThen(before, ConcreteThen(x, b));
      |s| > 0 && (s[0] == '<' || SpaceCharacter(s[0])) && !("<?xml" <= s)
  {
    var s := MiscThen(before, ConcreteThen(x, b));
    ConcreteStarts(x, b);
    assert "<?xml"[0] == '<' && "<?xml"[1] == '?' && "<!--"[1] == '!';
    if |before.remarks| > 0 {
      var first, rest := before.remarks[0], RemarksThen(before.remarks[1..], before.space + ConcreteThen(x, b));
      assert s == first.0 + RemarkThen(first.1, rest);
      if |first.0| > 0 { assert s[0] == first.0[0]; } else { assert s == RemarkThen(first.1, rest); }
    } else if |before.space| > 0 {
      assert s[0] == before.space[0];
    } else {
      assert s == ConcreteThen(x, b);
    }
  }

  lemma BomSkipped(bom: bool, headed: string)
    requires |headed| > 0 && (headed[0] == '<' || SpaceCharacter(headed[0]))
    ensures var s := if bom then BOM + headed else headed; (if BOM <= s then s[1..] else s) == headed
  {
    assert BOM[0] as int == 0xFEFF;
  }

  lemma HeadedRead(bom: bool, headed: string, body: string)
    requires |headed| > 0 && (headed[0] == '<' || SpaceCharacter(headed[0]))
    requires if "<?xml" <= headed then Declaration(headed).Ok? && Declaration(headed).rest == body else headed == body
    ensures WithoutPreamble(if bom then BOM + headed else headed) == Some(body)
  {
    BomSkipped(bom, headed);
  }

  lemma PreambleRead(d: Document)
    requires IsDocument(d)
    ensures WithoutPreamble(DocumentText(d)) == Some(BodyText(d))
  {
    var body := BodyText(d);
    if d.heading.Some? {
      HeadingRead(d.heading.value, body);
      HeadedRead(d.bom, HeadingThen(d.heading.value, body), body);
    } else {
      BodyStarts(d.before, d.root, MiscThen(d.after, ""));
      HeadedRead(d.bom, body, body);
    }
  }

  // An element and nothing else.
  lemma RootRead(input: string, body: string, start: string, x: Written, after: string)
    requires XmlCharacters(input) && WithoutPreamble(input) == Some(body) && Outside(body) == Some(start)
    requires |start| > 0 && start[0] == '<' && !Markup(start) && WrittenElement(start, 0) == Ok(x, after)
    requires Outside(after) == Some("")
    ensures WrittenDocument(input) == Some(x)
  {
  }

  lemma {:induction false} DocumentRead(d: Document)
    requires IsDocument(d) && XmlCharacters(DocumentText(d))
    ensures WrittenDocument(DocumentText(d)) == Some(Meaning(d.root))
  {
    var after := MiscThen(d.after, "");
    var start := ConcreteThen(d.root, after);
    PreambleRead(d);
    ConcreteStarts(d.root, after);
    MiscRead(d.before, start);
    ConcreteRead(d.root, after, 0);
    MiscRead(d.after, "");
    RootRead(DocumentText(d), BodyText(d), start, Meaning(d.root), after);
  }

  lemma PreambleOf(input: string) returns (bom: bool, heading: Option<Heading>)
    requires WithoutPreamble(input).Some?
    ensures heading.Some? ==> IsHeading(heading.value)
    ensures var body := WithoutPreamble(input).value;
      var headed := if heading.Some? then HeadingThen(heading.value, body) else body;
      input == if bom then BOM + headed else headed
  {
    bom := BOM <= input;
    var rest := if bom then input[1..] else input;
    assert bom ==> input == BOM + rest;
    heading := None;
    if "<?xml" <= rest {
      var h := HeadingOf(rest);
      heading := Some(h);
    }
  }

  lemma DocumentOf(input: string) returns (d: Document)
    requires WrittenDocument(input).Some?
    ensures IsDocument(d) && DocumentText(d) == input && WrittenDocument(input) == Some(Meaning(d.root))
  {
    var bom, heading := PreambleOf(input);
    var body := WithoutPreamble(input).value;
    var before := MiscOf(body);
    var start := Outside(body).value;
    var root := ConcreteOf(start, 0);
    var after := MiscOf(WrittenElement(start, 0).rest);
    d := Document(bom, heading, before, root, after);
  }

  // ---------------------------------------------------------------------- results

  ghost predicate Writes(d: Document, input: string) {
    IsDocument(d) && DocumentText(d) == input
  }

  // What S3XMLReader accepts: text of legal characters that the grammar can write and
  // whose names resolve. It then builds the tree of what that document says.
  lemma ReaderExactly(input: string, node: Node)
    ensures ParseDocument(input) == Some(node) <==>
      && XmlCharacters(input)
      && exists d: Document :: Writes(d, input) && Named(PREDECLARED, Meaning(d.root)) == Some(node)
  {
    ReadingIsNaming(input);
    if ParseDocument(input) == Some(node) {
      var d := DocumentOf(input);
      assert Writes(d, input);
    }
    if XmlCharacters(input) {
      forall d: Document | Writes(d, input) ensures WrittenDocument(input) == Some(Meaning(d.root)) {
        DocumentRead(d);
      }
    }
  }

  // However a text is taken apart by the grammar, it says the same.
  lemma Unambiguous(d: Document, d': Document)
    requires IsDocument(d) && IsDocument(d') && DocumentText(d) == DocumentText(d')
    requires XmlCharacters(DocumentText(d))
    ensures Meaning(d.root) == Meaning(d'.root)
  {
    DocumentRead(d);
    DocumentRead(d');
  }
}
