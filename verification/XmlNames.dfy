// When the names of a document are in order, by the rules of Namespaces in XML 1.0:
// declared prefixes, legal declarations and distinct attributes at every element. A
// document that the grammar writes is accepted exactly then.
module XmlNames {
  import opened Common
  import opened XmlSyntax
  import opened XmlDocument
  import opened XmlRefinement
  import opened XmlNamespaces
  import opened XmlGrammar
  import opened XmlExact

  predicate DeclaresNamespace(a: Attribute) {
    a.name.prefix == "xmlns" || (a.name.prefix == "" && a.name.local == "xmlns")
  }

  function DeclaredPrefix(a: Attribute): string {
    if a.name.prefix == "" then "" else a.name.local
  }

  // Sections 3 and 5 of Namespaces in XML 1.0.
  predicate MayBind(prefix: string, uri: string) {
    && prefix != "xmlns" && uri != XMLNS_NAMESPACE
    && (prefix == "xml" <==> uri == XML_NAMESPACE)
    && (uri == "" ==> prefix == "")
  }

  predicate Bound(bindings: seq<Binding>, prefix: string) {
    exists i :: 0 <= i < |bindings| && bindings[i].prefix == prefix
  }

  // The namespace of an attribute; one without prefix has none.
  function AttributeUri(bindings: seq<Binding>, a: Attribute): string {
    if a.name.prefix == "" || Innermost(bindings, a.name.prefix).None? then ""
    else Innermost(bindings, a.name.prefix).value
  }

  predicate Resolves(bindings: seq<Binding>, name: QName) {
    name.prefix != "xmlns" && (name.prefix == "" || Bound(bindings, name.prefix))
  }

  predicate SameAttribute(bindings: seq<Binding>, a: Attribute, b: Attribute) {
    a.name.local == b.name.local && AttributeUri(bindings, a) == AttributeUri(bindings, b)
  }

  // Section 6.3 of Namespaces in XML 1.0.
  predicate DistinctAttributes(bindings: seq<Binding>, attributes: seq<Attribute>) {
    && (forall i :: 0 <= i < |attributes| ==>
          DeclaresNamespace(attributes[i]) || Resolves(bindings, attributes[i].name))
    && (forall i, j :: 0 <= i < j < |attributes| ==>
          DeclaresNamespace(attributes[i]) || DeclaresNamespace(attributes[j])
          || !SameAttribute(bindings, attributes[i], attributes[j]))
  }

  predicate LegalDeclarations(attributes: seq<Attribute>) {
    forall i :: 0 <= i < |attributes| && DeclaresNamespace(attributes[i]) ==>
      MayBind(DeclaredPrefix(attributes[i]), attributes[i].value)
  }

  // An element is well named under the bindings inside it.
  predicate WellNamed(inner: seq<Binding>, tag: Tag) {
    && LegalDeclarations(tag.attributes) && Resolves(inner, tag.name)
    && DistinctAttributes(inner, tag.attributes)
  }

  lemma UrisApart()
    ensures XML_NAMESPACE != "" && XML_NAMESPACE != XMLNS_NAMESPACE && XMLNS_NAMESPACE != ""
    ensures "xml" != "" && "xml" != "xmlns"
  {
    assert |XML_NAMESPACE| > |XMLNS_NAMESPACE| > 0;
    assert |"xml"| == 3 && |"xmlns"| == 5;
  }

  lemma MayBindExactly(prefix: string, uri: string)
    ensures LegalBinding(prefix, uri) <==> MayBind(prefix, uri)
  {
    UrisApart();
  }

  lemma ResolvesExactly(bindings: seq<Binding>, name: QName)
    ensures Resolve(bindings, name, false).Some? <==> Resolves(bindings, name)
    ensures Resolve(bindings, name, true).Some? <==> Resolves(bindings, name)
  {
  }

  lemma AttributeUriIs(bindings: seq<Binding>, a: Attribute)
    requires Resolves(bindings, a.name)
    ensures Resolve(bindings, a.name, true) == Some(AttributeUri(bindings, a))
  {
  }

  lemma LegalFirst(b: Binding, later: seq<Binding>)
    ensures AllLegal([b] + later) <==> LegalBinding(b.prefix, b.uri) && AllLegal(later)
  {
    var all := [b] + later;
    assert forall i :: 0 <= i < |later| ==> all[i + 1] == later[i];
    assert all[0] == b;
  }

  lemma DeclarationFirst(attributes: seq<Attribute>)
    requires |attributes| > 0
    ensures LegalDeclarations(attributes) <==>
      && (DeclaresNamespace(attributes[0]) ==> MayBind(DeclaredPrefix(attributes[0]), attributes[0].value))
      && LegalDeclarations(attributes[1..])
  {
    var rest := attributes[1..];
    assert forall i :: 0 <= i < |rest| ==> rest[i] == attributes[i + 1];
    assert forall i :: 0 < i < |attributes| ==> attributes[i] == rest[i - 1];
  }

  lemma {:induction false} LegalExactly(attributes: seq<Attribute>)
    ensures AllLegal(Declarations(attributes)) <==> LegalDeclarations(attributes)
    decreases |attributes|
  {
    if |attributes| > 0 {
      var first, rest := attributes[0], attributes[1..];
      LegalExactly(rest);
      DeclarationFirst(attributes);
      MayBindExactly(DeclaredPrefix(first), first.value);
      LegalFirst(Binding(DeclaredPrefix(first), first.value), Declarations(rest));
    }
  }

  predicate NotAmong(bindings: seq<Binding>, attributes: seq<Attribute>, sofar: seq<Expanded>) {
    forall i :: 0 <= i < |attributes| && !DeclaresNamespace(attributes[i]) ==>
      Expanded(AttributeUri(bindings, attributes[i]), attributes[i].name.local) !in sofar
  }

  lemma NotAmongNext(bindings: seq<Binding>, rest: seq<Attribute>, sofar: seq<Expanded>, x: Expanded)
    ensures NotAmong(bindings, rest, sofar + [x]) <==>
      && NotAmong(bindings, rest, sofar)
      && forall i :: 0 <= i < |rest| && !DeclaresNamespace(rest[i]) ==>
           Expanded(AttributeUri(bindings, rest[i]), rest[i].name.local) != x
  {
  }

  lemma DistinctFirst(bindings: seq<Binding>, attributes: seq<Attribute>)
    requires |attributes| > 0
    ensures var a, rest := attributes[0], attributes[1..];
      DistinctAttributes(bindings, attributes) <==>
        && DistinctAttributes(bindings, rest)
        && (!DeclaresNamespace(a) ==>
              && Resolves(bindings, a.name)
              && forall i :: 0 <= i < |rest| && !DeclaresNamespace(rest[i]) ==> !SameAttribute(bindings, a, rest[i]))
  {
    var a, rest := attributes[0], attributes[1..];
    assert forall i :: 0 <= i < |rest| ==> rest[i] == attributes[i + 1];
    assert forall i :: 0 < i < |attributes| ==> attributes[i] == rest[i - 1];
  }

  lemma {:induction false} DistinctExactly(bindings: seq<Binding>, attributes: seq<Attribute>, sofar: seq<Expanded>)
    ensures ValidAttributes(bindings, attributes, sofar) <==>
      DistinctAttributes(bindings, attributes) && NotAmong(bindings, attributes, sofar)
    decreases |attributes|
  {
    if |attributes| > 0 {
      var a, rest := attributes[0], attributes[1..];
      DistinctFirst(bindings, attributes);
      assert forall i :: 0 < i < |attributes| ==> attributes[i] == rest[i - 1];
      ResolvesExactly(bindings, a.name);
      if DeclaresNamespace(a) {
        DistinctExactly(bindings, rest, sofar);
      } else if Resolves(bindings, a.name) {
        AttributeUriIs(bindings, a);
        var name := Expanded(AttributeUri(bindings, a), a.name.local);
        DistinctExactly(bindings, rest, sofar + [name]);
        NotAmongNext(bindings, rest, sofar, name);
      }
    }
  }

  // An element is opened exactly if it is well named.
  lemma OpensExactly(bindings: seq<Binding>, tag: Tag)
    ensures var inner := bindings + Declarations(tag.attributes);
      Open(bindings, tag).Some? <==> WellNamed(inner, tag)
  {
    var inner := bindings + Declarations(tag.attributes);
    DeclaredExactly(bindings, tag.attributes);
    LegalExactly(tag.attributes);
    ResolvesExactly(inner, tag.name);
    DistinctExactly(inner, tag.attributes, []);
  }

  // Every element at every path.
  ghost predicate AllWellNamed(bindings: seq<Binding>, x: Written) {
    forall path: seq<nat> :: WrittenAt(x, path).Some? ==>
      WellNamed(bindings + Along(x, path), WrittenAt(x, path).value.tag)
  }

  lemma AtChild(bindings: seq<Binding>, x: Written, k: nat, path: seq<nat>)
    requires k < |x.children| && WrittenAt(x.children[k], path).Some?
    ensures WrittenAt(x, [k] + path) == WrittenAt(x.children[k], path)
    ensures bindings + Along(x, [k] + path)
         == (bindings + Declarations(x.tag.attributes)) + Along(x.children[k], path)
  {
    assert ([k] + path)[1..] == path;
    Appended(bindings, Declarations(x.tag.attributes), Along(x.children[k], path));
  }

  lemma AtRoot(bindings: seq<Binding>, x: Written)
    ensures WrittenAt(x, []) == Some(x) && bindings + Along(x, []) == bindings + Declarations(x.tag.attributes)
  {
  }

  lemma AllBelow(bindings: seq<Binding>, x: Written, k: nat)
    requires AllWellNamed(bindings, x) && k < |x.children|
    ensures AllWellNamed(bindings + Declarations(x.tag.attributes), x.children[k])
  {
    forall path: seq<nat> | WrittenAt(x.children[k], path).Some?
      ensures WellNamed((bindings + Declarations(x.tag.attributes)) + Along(x.children[k], path),
                        WrittenAt(x.children[k], path).value.tag)
    {
      AtChild(bindings, x, k, path);
      assert WrittenAt(x, [k] + path).Some?;
    }
  }

  lemma AllFromBelow(bindings: seq<Binding>, x: Written)
    requires WellNamed(bindings + Declarations(x.tag.attributes), x.tag)
    requires forall k :: 0 <= k < |x.children| ==>
      AllWellNamed(bindings + Declarations(x.tag.attributes), x.children[k])
    ensures AllWellNamed(bindings, x)
  {
    forall path: seq<nat> | WrittenAt(x, path).Some?
      ensures WellNamed(bindings + Along(x, path), WrittenAt(x, path).value.tag)
    {
      if |path| == 0 {
        assert path == [];
        AtRoot(bindings, x);
      } else {
        var k, below := path[0], path[1..];
        assert path == [k] + below;
        assert AllWellNamed(bindings + Declarations(x.tag.attributes), x.children[k]);
        AtChild(bindings, x, k, below);
      }
    }
  }

  ghost predicate EachNamed(bindings: seq<Binding>, xs: seq<Written>) {
    forall k :: 0 <= k < |xs| ==> Named(bindings, xs[k]).Some?
  }

  lemma EachLast(bindings: seq<Binding>, xs: seq<Written>)
    requires |xs| > 0
    ensures EachNamed(bindings, xs) <==>
      EachNamed(bindings, xs[..|xs| - 1]) && Named(bindings, xs[|xs| - 1]).Some?
  {
    var init := xs[..|xs| - 1];
    assert forall k :: 0 <= k < |init| ==> init[k] == xs[k];
  }

  lemma {:induction false} NamedAllExactly(bindings: seq<Binding>, xs: seq<Written>)
    ensures NamedAll(bindings, xs).Some? <==> EachNamed(bindings, xs)
    decreases |xs|
  {
    if |xs| > 0 {
      NamedAllExactly(bindings, xs[..|xs| - 1]);
      EachLast(bindings, xs);
    }
  }

  // Naming succeeds exactly if every element is well named.
  lemma {:induction false} NamedExactly(bindings: seq<Binding>, x: Written)
    ensures Named(bindings, x).Some? <==> AllWellNamed(bindings, x)
    decreases x
  {
    var inner := bindings + Declarations(x.tag.attributes);
    OpensExactly(bindings, x.tag);
    AtRoot(bindings, x);
    DeclaredExactly(bindings, x.tag.attributes);
    NamedAllExactly(inner, x.children);
    forall k | 0 <= k < |x.children| ensures Named(inner, x.children[k]).Some? <==> AllWellNamed(inner, x.children[k]) {
      NamedExactly(inner, x.children[k]);
    }
    if AllWellNamed(bindings, x) {
      assert WellNamed(bindings + Along(x, []), WrittenAt(x, []).value.tag);
      forall k | 0 <= k < |x.children| ensures AllWellNamed(inner, x.children[k]) { AllBelow(bindings, x, k); }
    }
    if Named(bindings, x).Some? { AllFromBelow(bindings, x); }
  }

  // What S3XMLReader accepts, without any of its functions: legal characters, a
  // document of the grammar, and good names everywhere in it.
  lemma AcceptsExactly(input: string)
    ensures ParseDocument(input).Some? <==>
      && XmlCharacters(input)
      && exists d: Document :: Writes(d, input) && AllWellNamed(PREDECLARED, Meaning(d.root))
  {
    if ParseDocument(input).Some? {
      ReaderExactly(input, ParseDocument(input).value);
      var d: Document :| Writes(d, input) && Named(PREDECLARED, Meaning(d.root)) == ParseDocument(input);
      NamedExactly(PREDECLARED, Meaning(d.root));
    }
    if XmlCharacters(input) {
      if d: Document :| Writes(d, input) && AllWellNamed(PREDECLARED, Meaning(d.root)) {
        NamedExactly(PREDECLARED, Meaning(d.root));
        ReaderExactly(input, Named(PREDECLARED, Meaning(d.root)).value);
      }
    }
  }
}
