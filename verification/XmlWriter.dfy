// S3XMLWriter, and the proof that S3XMLReader undoes it.
module XmlWriter {
  import opened Common
  import opened XmlSyntax
  import opened XmlDocument
  import opened XmlRefinement

  const S3_NAMESPACE := "http://s3.amazonaws.com/doc/2006-03-01/"

  // ---------------------------------------------------------------- what is written

  function EscapeCharacter(c: char): (e: string)
    ensures |e| > 0
  {
    if c == '&' then "&amp;"
    else if c == '<' then "&lt;"
    else if c == '>' then "&gt;"
    else if c == '\r' then "&#13;"
    else [c]
  }

  function Escape(text: string): string {
    if |text| == 0 then "" else EscapeCharacter(text[0]) + Escape(text[1..])
  }

  function Opening(name: string): string {
    "<" + name + ">"
  }

  function Closing(name: string): string {
    "</" + name + ">"
  }

  function Branch(name: string, inner: string): string {
    Opening(name) + inner + Closing(name)
  }

  function Leaf(name: string, text: string): string {
    Branch(name, Escape(text))
  }

  // Decimal digits, as std::to_string writes them.
  function Decimal(n: nat): string {
    if n < 10 then [('0' as int + n) as char] else Decimal(n / 10) + [('0' as int + n % 10) as char]
  }

  function Concatenated(pieces: seq<string>): string {
    if |pieces| == 0 then "" else Concatenated(pieces[..|pieces| - 1]) + pieces[|pieces| - 1]
  }

  function DeleteEntry(key: string): string {
    Branch("Object", Leaf("Key", key))
  }

  function CompleteEntry(index: nat, etag: string): string {
    Branch("Part", Leaf("ETag", etag) + Leaf("PartNumber", Decimal(index + 1)))
  }

  function DeleteEntries(keys: seq<string>): seq<string> {
    seq(|keys|, i requires 0 <= i < |keys| => DeleteEntry(keys[i]))
  }

  function CompleteEntries(etags: seq<string>): seq<string> {
    seq(|etags|, i requires 0 <= i < |etags| => CompleteEntry(i, etags[i]))
  }

  const XML_DECLARATION := "<?xml version=\"1.0\" encoding=\"UTF-8\"?>"

  function RootOpening(name: string): string {
    "<" + name + " xmlns=\"" + S3_NAMESPACE + "\">"
  }

  function Root(name: string, inner: string): string {
    RootOpening(name) + inner + Closing(name)
  }

  function DeleteRequest(keys: seq<string>): string {
    XML_DECLARATION + Root("Delete", Concatenated(DeleteEntries(keys)) + Leaf("Quiet", "true"))
  }

  function CompleteRequest(etags: seq<string>): string {
    Root("CompleteMultipartUpload", Concatenated(CompleteEntries(etags)))
  }

  // ----------------------------------------------------------------------- methods

  lemma {:induction false} EscapeNext(text: string, c: char)
    ensures Escape(text + [c]) == Escape(text) + EscapeCharacter(c)
  {
    if |text| == 0 {
      assert text + [c] == [c];
      assert Escape([c]) == EscapeCharacter(c) + Escape([c][1..]);
    } else {
      EscapeNext(text[1..], c);
      assert (text + [c])[1..] == text[1..] + [c];
      Grouped(EscapeCharacter(text[0]), Escape(text[1..]), EscapeCharacter(c), Escape(text[1..] + [c]));
    }
  }

  lemma Grouped(a: string, b: string, c: string, bc: string)
    requires bc == b + c
    ensures a + bc == a + b + c
  {
  }

  method EscapeText(text: string) returns (result: string)
    ensures result == Escape(text)
  {
    result := "";
    for i := 0 to |text|
      invariant result == Escape(text[..i])
    {
      EscapeNext(text[..i], text[i]);
      assert text[..i + 1] == text[..i] + [text[i]];
      match text[i]
      case '&' => result := result + "&amp;";
      case '<' => result := result + "&lt;";
      case '>' => result := result + "&gt;";
      case '\r' => result := result + "&#13;";
      case _ => result := result + [text[i]];
    }
    assert text[..|text|] == text;
  }

  lemma ConcatenatedNext(pieces: seq<string>, i: nat)
    requires i < |pieces|
    ensures Concatenated(pieces[..i + 1]) == Concatenated(pieces[..i]) + pieces[i]
  {
    assert pieces[..i + 1][..i] == pieces[..i];
  }

  lemma Nested(a: string, b: string, e: string, c: string, d: string)
    ensures a + (b + e + c) + d == (a + b) + e + (c + d)
  {
  }

  lemma DeleteEntryText(key: string)
    ensures DeleteEntry(key) == "<Object><Key>" + Escape(key) + "</Key></Object>"
  {
    assert Opening("Object") + Opening("Key") == "<Object><Key>";
    assert Closing("Key") + Closing("Object") == "</Key></Object>";
    Nested(Opening("Object"), Opening("Key"), Escape(key), Closing("Key"), Closing("Object"));
  }

  lemma DeleteTail()
    ensures Leaf("Quiet", "true") + Closing("Delete") == "<Quiet>true</Quiet></Delete>"
  {
    EscapePlain("true");
    assert Opening("Quiet") + "true" + Closing("Quiet") == "<Quiet>true</Quiet>";
    assert Closing("Delete") == "</Delete>";
  }

  predicate Plain(c: char) {
    c != '&' && c != '<' && c != '>' && c != '\r'
  }

  lemma {:induction false} EscapePlain(text: string)
    requires forall i :: 0 <= i < |text| ==> Plain(text[i])
    ensures Escape(text) == text
  {
    if |text| > 0 {
      EscapePlain(text[1..]);
      assert [text[0]] + text[1..] == text;
    }
  }

  lemma DeleteRequestEnds(a: string, b: string, c: string, d: string, e: string)
    ensures a + (b + (c + d) + e) == (a + b) + c + (d + e)
  {
  }

  const DELETE_OPENING := XML_DECLARATION + RootOpening("Delete")

  lemma DeleteRequestText(keys: seq<string>)
    ensures DeleteRequest(keys)
      == DELETE_OPENING + Concatenated(DeleteEntries(keys)) + "<Quiet>true</Quiet></Delete>"
  {
    DeleteTail();
    DeleteRequestEnds(XML_DECLARATION, RootOpening("Delete"), Concatenated(DeleteEntries(keys)),
                      Leaf("Quiet", "true"), Closing("Delete"));
  }

  // What one round of the loop appends.
  lemma EntryAppended(opening: string, entries: seq<string>, i: nat)
    requires i < |entries|
    ensures opening + Concatenated(entries[..i + 1]) == opening + Concatenated(entries[..i]) + entries[i]
  {
    ConcatenatedNext(entries, i);
  }

  method WriteDeleteObjectsRequest(keys: seq<string>, begin: nat, end: nat) returns (result: string)
    requires begin <= end <= |keys|
    ensures result == DeleteRequest(keys[begin..end])
  {
    ghost var entries := DeleteEntries(keys[begin..end]);
    result := "<?xml version=\"1.0\" encoding=\"UTF-8\"?>" + ("<Delete xmlns=\"" + S3_NAMESPACE + "\">");
    assert result == DELETE_OPENING + Concatenated(entries[..0]);
    for i := begin to end
      invariant result == DELETE_OPENING + Concatenated(entries[..i - begin])
    {
      var key := EscapeText(keys[i]);
      DeleteEntryText(keys[i]);
      EntryAppended(DELETE_OPENING, entries, i - begin);
      result := result + ("<Object><Key>" + key + "</Key></Object>");
    }
    assert entries[..end - begin] == entries;
    DeleteRequestText(keys[begin..end]);
    result := result + "<Quiet>true</Quiet></Delete>";
  }

  lemma CompleteInner(a: string, b: string, e: string, c: string, d: string, n: string, f: string, g: string)
    ensures a + ((b + e + c) + (d + n + f)) + g == ((((a + b) + e) + (c + d)) + n) + (f + g)
  {
  }

  lemma {:induction false} DecimalPlain(n: nat)
    ensures |Decimal(n)| > 0 && forall i :: 0 <= i < |Decimal(n)| ==> '0' <= Decimal(n)[i] <= '9'
  {
    if n >= 10 { DecimalPlain(n / 10); }
  }

  lemma CompleteTags()
    ensures Opening("Part") + Opening("ETag") == "<Part><ETag>"
    ensures Closing("ETag") + Opening("PartNumber") == "</ETag><PartNumber>"
  {
  }

  lemma CompleteEndTags()
    ensures Closing("PartNumber") + Closing("Part") == "</PartNumber></Part>"
    ensures Closing("CompleteMultipartUpload") == "</CompleteMultipartUpload>"
  {
  }

  lemma CompleteEntryText(index: nat, etag: string)
    ensures CompleteEntry(index, etag)
      == "<Part><ETag>" + Escape(etag) + "</ETag><PartNumber>" + Decimal(index + 1) + "</PartNumber></Part>"
  {
    var number := Decimal(index + 1);
    DecimalPlain(index + 1);
    EscapePlain(number);
    CompleteTags();
    CompleteEndTags();
    CompleteInner(Opening("Part"), Opening("ETag"), Escape(etag), Closing("ETag"),
                  Opening("PartNumber"), number, Closing("PartNumber"), Closing("Part"));
  }

  const COMPLETE_OPENING := RootOpening("CompleteMultipartUpload")

  lemma CompleteOpening(text: string, entries: seq<string>)
    requires text == "<CompleteMultipartUpload xmlns=\"" + S3_NAMESPACE + "\">"
    ensures text == COMPLETE_OPENING + Concatenated(entries[..0])
  {
  }

  lemma CompleteRequestText(etags: seq<string>)
    ensures CompleteRequest(etags)
      == COMPLETE_OPENING + Concatenated(CompleteEntries(etags)) + "</CompleteMultipartUpload>"
  {
    CompleteEndTags();
  }

  method WriteCompleteMultipartUploadRequest(etags: seq<string>) returns (result: string)
    ensures result == CompleteRequest(etags)
  {
    ghost var entries := CompleteEntries(etags);
    result := "<CompleteMultipartUpload xmlns=\"" + S3_NAMESPACE + "\">";
    CompleteOpening(result, entries);
    for i := 0 to |etags|
      invariant result == COMPLETE_OPENING + Concatenated(entries[..i])
    {
      var etag := EscapeText(etags[i]);
      var entry := "<Part><ETag>" + etag + "</ETag><PartNumber>" + Decimal(i + 1) + "</PartNumber></Part>";
      assert entry == entries[i] by { CompleteEntryText(i, etags[i]); }
      EntryAppended(COMPLETE_OPENING, entries, i);
      result := result + entry;
    }
    assert entries[..|etags|] == entries;
    CompleteRequestText(etags);
    result := result + "</CompleteMultipartUpload>";
  }
}
