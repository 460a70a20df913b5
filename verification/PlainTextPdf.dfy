/** The text-only PDF writer (audit/bundle.py); a byte string is held as the Latin-1 text that spells it. */
module PlainTextPdf {
  import opened Numerals
  import opened Framing

  const LINE_WIDTH := 105
  const PAGE_LINES := 52
  const FONT_ID := 3

  /** What the buffer holds before anything is written: the file header and its binary marker. */
  const HEADER := "%PDF-1.4\n%\U{E2}\U{E3}\U{CF}\U{D3}\n"

  /** Python's line splitting and its reduction of text to ASCII (NFKD, then unknown characters replaced). */
  datatype Plain = Plain(splitLines: string -> seq<string>, toAscii: string -> string)

  // ---------- lines and pages ----------

  /** One line cut into pieces of at most the line width. */
  function Chunks(s: string): (r: seq<string>)
    ensures r != []
    ensures forall i :: 0 <= i < |r| ==> |r[i]| <= LINE_WIDTH
    ensures forall i :: 0 <= i < |r| - 1 ==> |r[i]| == LINE_WIDTH
  {
    if |s| <= LINE_WIDTH then [s] else [s[..LINE_WIDTH]] + Chunks(s[LINE_WIDTH..])
  }

  /** The lines of one section; a section without lines still has an empty one. */
  function RawLines(plain: Plain, section: string): seq<string>
  {
    var lines := plain.splitLines(section);
    if lines == [] then [""] else lines
  }

  function ChunkAll(plain: Plain, raw: seq<string>): seq<string>
  {
    if raw == [] then [] else Chunks(plain.toAscii(raw[0])) + ChunkAll(plain, raw[1..])
  }

  /** The lines of all sections, each section followed by an empty line. */
  function LinesOf(plain: Plain, sections: seq<string>): seq<string>
  {
    if sections == [] then [] else ChunkAll(plain, RawLines(plain, sections[0])) + [""] + LinesOf(plain, sections[1..])
  }

  lemma {:induction false} ChunkAppend(plain: Plain, a: seq<string>, b: seq<string>)
    ensures ChunkAll(plain, a + b) == ChunkAll(plain, a) + ChunkAll(plain, b)
  {
    if a == [] {
      assert a + b == b;
    } else {
      assert (a + b)[1..] == a[1..] + b;
      ChunkAppend(plain, a[1..], b);
    }
  }

  lemma {:induction false} LinesAppend(plain: Plain, a: seq<string>, b: seq<string>)
    ensures LinesOf(plain, a + b) == LinesOf(plain, a) + LinesOf(plain, b)
  {
    hide ChunkAll;
    if a == [] {
      assert a + b == b;
    } else {
      assert (a + b)[1..] == a[1..] + b;
      LinesAppend(plain, a[1..], b);
    }
  }

  method WrapLine(line: string) returns (pieces: seq<string>)
    ensures pieces == Chunks(line)
  {
    pieces := [];
    var rest := line;
    while |rest| > LINE_WIDTH
      invariant pieces + Chunks(rest) == Chunks(line)
      decreases |rest|
    {
      pieces := pieces + [rest[..LINE_WIDTH]];
      rest := rest[LINE_WIDTH..];
    }
    pieces := pieces + [rest];
  }

  method LayOutSection(plain: Plain, section: string) returns (lines: seq<string>)
    ensures lines == ChunkAll(plain, RawLines(plain, section))
  {
    hide Chunks, RawLines;
    var raw := RawLines(plain, section);
    lines := [];
    for j := 0 to |raw|
      invariant lines == ChunkAll(plain, raw[..j])
    {
      var pieces := WrapLine(plain.toAscii(raw[j]));
      ChunkStep(plain, raw, j);
      lines := lines + pieces;
    }
    assert raw[..|raw|] == raw;
  }

  lemma ChunkStep(plain: Plain, raw: seq<string>, j: nat)
    requires j < |raw|
    ensures ChunkAll(plain, raw[..j + 1]) == ChunkAll(plain, raw[..j]) + Chunks(plain.toAscii(raw[j]))
  {
    hide Chunks;
    assert raw[..j + 1] == raw[..j] + [raw[j]];
    ChunkAppend(plain, raw[..j], [raw[j]]);
    assert [raw[j]][1..] == [];
  }

  method LayOut(plain: Plain, sections: seq<string>) returns (lines: seq<string>)
    ensures lines == LinesOf(plain, sections)
  {
    hide ChunkAll;
    lines := [];
    for i := 0 to |sections|
      invariant lines == LinesOf(plain, sections[..i])
    {
      var section := LayOutSection(plain, sections[i]);
      assert sections[..i + 1] == sections[..i] + [sections[i]];
      LinesAppend(plain, sections[..i], [sections[i]]);
      assert [sections[i]][1..] == [];
      lines := lines + section + [""];
    }
    assert sections[..|sections|] == sections;
  }

  /** Runs of at most a page's lines. */
  function Runs(lines: seq<string>): (r: seq<seq<string>>)
    ensures forall i :: 0 <= i < |r| ==> 1 <= |r[i]| <= PAGE_LINES
    ensures forall i :: 0 <= i < |r| - 1 ==> |r[i]| == PAGE_LINES
    decreases |lines|
  {
    if lines == [] then []
    else if |lines| <= PAGE_LINES then [lines]
    else [lines[..PAGE_LINES]] + Runs(lines[PAGE_LINES..])
  }

  /** The pages; a document without lines has one empty page. */
  function Pages(lines: seq<string>): (r: seq<seq<string>>)
    ensures r != []
  {
    if lines == [] then [[]] else Runs(lines)
  }

  // ---------- content streams ----------

  function ReplaceChar(s: string, c: char, spelled: string): string
  {
    if s == "" then "" else (if s[0] == c then spelled else [s[0]]) + ReplaceChar(s[1..], c, spelled)
  }

  /** The three replacements, one after the other. */
  function Escaped(line: string): string
  {
    ReplaceChar(ReplaceChar(ReplaceChar(line, '\\', "\\\\"), '(', "\\("), ')', "\\)")
  }

  const PREAMBLE: seq<string> := ["BT", "/F1 9 Tf", "72 760 Td", "11 TL"]

  function ShowLines(page: seq<string>, first: bool): seq<string>
  {
    if page == [] then [] else
    (if first then [] else ["T*"]) + ["(" + Escaped(page[0]) + ") Tj"] + ShowLines(page[1..], false)
  }

  function StreamLines(page: seq<string>): seq<string>
  {
    PREAMBLE + ShowLines(page, true) + ["ET"]
  }

  /** Encoding to Latin-1 with replacement. */
  function Latin1(s: string): (r: string)
    ensures |r| == |s|
  {
    seq(|s|, i requires 0 <= i < |s| => if s[i] < '\U{100}' then s[i] else '?')
  }

  function Stream(page: seq<string>): string
  {
    Latin1(Join('\n', StreamLines(page)))
  }

  method DrawPage(page: seq<string>) returns (stream: string)
    ensures stream == Stream(page)
  {
    var lines := PREAMBLE;
    assert page[0..] == page;
    for i := 0 to |page|
      invariant lines + ShowLines(page[i..], i == 0) == PREAMBLE + ShowLines(page, true)
    {
      assert page[i..][0] == page[i] && page[i..][1..] == page[i + 1..];
      if i > 0 { lines := lines + ["T*"]; }
      lines := lines + ["(" + Escaped(page[i]) + ") Tj"];
    }
    assert page[|page|..] == [] && lines + [] == lines;
    lines := lines + ["ET"];
    stream := Latin1(Join('\n', lines));
  }

  // ---------- objects ----------

  function PageId(i: nat): nat { 4 + 2 * i }

  /** "4 0 R 6 0 R ...". */
  function KidRefs(ids: seq<nat>): string
  {
    if ids == [] then ""
    else if |ids| == 1 then NatText(ids[0]) + " 0 R"
    else NatText(ids[0]) + " 0 R" + " " + KidRefs(ids[1..])
  }

  const CATALOG := "<< /Type /Catalog /Pages 2 0 R >>"
  const FONT := "<< /Type /Font /Subtype /Type1 /BaseFont /Helvetica >>"
  const PAGE_PREFIX :=
    "<< /Type /Page /Parent 2 0 R /MediaBox [0 0 612 792] /Resources << /Font << /F1 3 0 R >> >> /Contents "

  function PagesObject(ids: seq<nat>): string
  {
    "<< /Type /Pages /Kids [" + KidRefs(ids) + "] /Count " + NatText(|ids|) + " >>"
  }

  function PageObject(contentId: nat): string
  {
    PAGE_PREFIX + NatText(contentId) + " 0 R >>"
  }

  function ContentObject(stream: string): string
  {
    "<< /Length " + NatText(|stream|) + " >>\nstream\n" + stream + "\nendstream"
  }

  function PageIds(count: nat): seq<nat>
  {
    seq(count, i requires 0 <= i < count => PageId(i))
  }

  /** Object `k` of the document; number 0 is reserved. */
  function ObjectOf(pages: seq<seq<string>>, k: nat): string
    requires k < 4 + 2 * |pages|
  {
    if k == 0 then ""
    else if k == 1 then CATALOG
    else if k == 2 then PagesObject(PageIds(|pages|))
    else if k == FONT_ID then FONT
    else if k % 2 == 0 then PageObject(k + 1)
    else ContentObject(Stream(pages[(k - 5) / 2]))
  }

  function ObjectsOf(pages: seq<seq<string>>): (r: seq<string>)
    ensures |r| == 4 + 2 * |pages|
  {
    var n := 4 + 2 * |pages|;
    seq(n, k requires 0 <= k < n => ObjectOf(pages, k))
  }

  /** Ids are handed out while the list grows; the objects are filled in afterwards. */
  method BuildObjects(pages: seq<seq<string>>) returns (objects: seq<string>)
    ensures objects == ObjectsOf(pages)
  {
    hide Stream, PagesObject, PageObject, ContentObject, CATALOG, FONT;
    objects := ["", CATALOG, "", FONT];
    var ids: seq<nat> := [];
    for i := 0 to |pages|
      invariant |objects| == 4 + 2 * i && objects[..4] == ["", CATALOG, "", FONT]
      invariant ids == PageIds(i)
    {
      ids := ids + [|objects|];
      objects := objects + ["", ""];
    }
    objects := objects[2 := PagesObject(ids)];
    for i := 0 to |pages|
      invariant |objects| == 4 + 2 * |pages|
      invariant forall k :: 0 <= k < 4 + 2 * i ==> objects[k] == ObjectOf(pages, k)
    {
      var stream := DrawPage(pages[i]);
      objects := objects[ids[i] := PageObject(ids[i] + 1)][ids[i] + 1 := ContentObject(stream)];
    }
  }

  // ---------- the file ----------

  function ObjectText(id: nat, content: string): string
  {
    NatText(id) + " 0 obj\n" + content + "\nendobj\n"
  }

  /** Objects `from`, `from + 1`, ... as they are written one after another. */
  function Body(objects: seq<string>, from: nat): string
    requires from <= |objects|
    decreases |objects| - from
  {
    if from == |objects| then "" else ObjectText(from, objects[from]) + Body(objects, from + 1)
  }

  /** Where object `k` starts. */
  function OffsetOf(objects: seq<string>, k: nat): nat
    requires 1 <= k <= |objects|
  {
    if k == 1 then 0 else OffsetOf(objects, k - 1) + |ObjectText(k - 1, objects[k - 1])|
  }

  /** `f"{n:010d}"`. */
  function Pad10(n: nat): string
  {
    if n < 10_000_000_000 then Padded(n, 10) else NatText(n)
  }

  function EntryText(offset: nat): string
  {
    Pad10(offset) + " 00000 n \n"
  }

  const FREE_ENTRY := "0000000000 65535 f \n"

  /** The entries of objects `from`, `from + 1`, .... */
  function EntriesFrom(objects: seq<string>, from: nat): string
    requires 1 <= from <= |objects|
    decreases |objects| - from
  {
    if from == |objects| then "" else EntryText(OffsetOf(objects, from)) + EntriesFrom(objects, from + 1)
  }

  function Trailer(count: nat, xref: nat): string
  {
    "trailer\n<< /Size " + NatText(count) + " /Root 1 0 R >>\nstartxref\n" + NatText(xref) + "\n%%EOF\n"
  }

  function Xref(objects: seq<string>): string
    requires |objects| >= 1
  {
    "xref\n0 " + NatText(|objects|) + "\n" + FREE_ENTRY + EntriesFrom(objects, 1)
  }

  /** The document, without the header. */
  function Document(objects: seq<string>): string
    requires |objects| >= 1
  {
    Body(objects, 1) + Xref(objects) + Trailer(|objects|, |Body(objects, 1)|)
  }

  /** An in-memory byte stream that was created with content: writing starts at position 0, over that content. */
  class Buffer {
    var data: string
    var position: nat

    ghost predicate Valid()
      reads this
    {
      position <= |data|
    }

    constructor (initial: string)
      ensures Valid() && data == initial && position == 0
    {
      data, position := initial, 0;
    }

    method Write(s: string)
      requires Valid()
      modifies this
      ensures Valid() && position == old(position) + |s|
      ensures data == old(data[..position]) + s + if |old(data)| > position then old(data)[position..] else ""
    {
      var after := position + |s|;
      data := data[..position] + s + if after < |data| then data[after..] else "";
      position := after;
    }
  }

  /** What is left of the initial content under the text written so far. */
  function Overlaid(text: string, initial: string): string
  {
    text + if |text| < |initial| then initial[|text|..] else ""
  }

  /** Has exactly this text been written, over the header? */
  ghost predicate Wrote(b: Buffer, text: string)
    reads b
  {
    b.data == Overlaid(text, HEADER) && b.position == |text|
  }

  method Append(b: Buffer, ghost text: string, s: string)
    requires Wrote(b, text)
    modifies b
    ensures Wrote(b, text + s)
  {
    b.Write(s);
    assert Overlaid(text, HEADER)[..|text|] == text;
  }

  /** Writes the objects in order and returns where each one starts. */
  method WriteObjects(b: Buffer, objects: seq<string>) returns (offsets: seq<nat>)
    requires |objects| >= 1 && Wrote(b, "")
    modifies b
    ensures Wrote(b, Body(objects, 1))
    ensures |offsets| == |objects| && forall k :: 1 <= k < |objects| ==> offsets[k] == OffsetOf(objects, k)
  {
    hide Wrote, ObjectText, Body, OffsetOf;
    offsets := [0];
    FirstOffset(objects);
    ghost var text := "";
    for id := 1 to |objects|
      invariant Wrote(b, text) && text + Body(objects, id) == Body(objects, 1) && |text| == OffsetOf(objects, id)
      invariant |offsets| == id && forall k :: 1 <= k < id ==> offsets[k] == OffsetOf(objects, k)
    {
      WrotePosition(b, text);
      offsets := offsets + [b.position];
      WriteObject(b, text, id, objects[id]);
      BodyStep(objects, id, text);
      text := text + ObjectText(id, objects[id]);
    }
    BodyEnd(objects);
    assert text + "" == text;
  }

  lemma BodyStep(objects: seq<string>, id: nat, text: string)
    requires 1 <= id < |objects|
    ensures text + Body(objects, id) == text + ObjectText(id, objects[id]) + Body(objects, id + 1)
    ensures OffsetOf(objects, id + 1) == OffsetOf(objects, id) + |ObjectText(id, objects[id])|
  {}

  lemma FirstOffset(objects: seq<string>)
    requires |objects| >= 1
    ensures OffsetOf(objects, 1) == 0
  {}

  lemma BodyEnd(objects: seq<string>)
    ensures Body(objects, |objects|) == ""
  {}

  method WriteObject(b: Buffer, ghost text: string, id: nat, content: string)
    requires Wrote(b, text)
    modifies b
    ensures Wrote(b, text + ObjectText(id, content))
  {
    hide Wrote, NatText;
    var name := NatText(id) + " 0 obj\n";
    Append(b, text, name);
    Append(b, text + name, content);
    Append(b, text + name + content, "\nendobj\n");
    assert text + name + content + "\nendobj\n" == text + ObjectText(id, content);
  }

  lemma WrotePosition(b: Buffer, text: string)
    requires Wrote(b, text)
    ensures b.position == |text|
  {}

  method WriteXref(b: Buffer, objects: seq<string>, offsets: seq<nat>)
    requires |objects| >= 1 && Wrote(b, Body(objects, 1))
    requires |offsets| == |objects| && forall k :: 1 <= k < |objects| ==> offsets[k] == OffsetOf(objects, k)
    modifies b
    ensures Wrote(b, Body(objects, 1) + Xref(objects))
  {
    hide Wrote, NatText, Body;
    ghost var body := Body(objects, 1);
    ghost var text := "xref\n0 " + NatText(|objects|) + "\n";
    Append(b, body, "xref\n0 " + NatText(|objects|) + "\n");
    Append(b, body + text, FREE_ENTRY);
    assert body + text + FREE_ENTRY == body + (text + FREE_ENTRY);
    text := text + FREE_ENTRY;
    for k := 1 to |objects|
      invariant Wrote(b, body + text) && text + EntriesFrom(objects, k) == Xref(objects)
    {
      Append(b, body + text, EntryText(offsets[k]));
      assert body + text + EntryText(offsets[k]) == body + (text + EntryText(offsets[k]));
      text := text + EntryText(offsets[k]);
    }
    assert text + "" == text;
  }

  lemma {:induction false} BodyCoversHeader(objects: seq<string>)
    requires |objects| >= 3
    ensures |Body(objects, 1)| > |HEADER|
  {
    assert |HEADER| == 15;
    assert Body(objects, 1) == ObjectText(1, objects[1]) + (ObjectText(2, objects[2]) + Body(objects, 3));
  }

  /** `_plain_text_pdf`. */
  method RenderPdf(plain: Plain, sections: seq<string>) returns (pdf: string)
    ensures pdf == Document(ObjectsOf(Pages(LinesOf(plain, sections))))
  {
    hide Body, Xref, Trailer, ObjectsOf, LinesOf;
    var lines := LayOut(plain, sections);
    var objects := BuildObjects(Pages(lines));
    var output := new Buffer(HEADER);
    assert Wrote(output, "");
    var offsets := WriteObjects(output, objects);
    var xref := output.position;
    WriteXref(output, objects, offsets);
    ghost var text := Body(objects, 1) + Xref(objects);
    Append(output, text, Trailer(|objects|, xref));
    BodyCoversHeader(objects);
    pdf := output.data;
  }

  /** The header never survives: every document starts with its first object. */
  lemma HeaderOverwritten(pages: seq<seq<string>>)
    ensures "1 0 obj\n" <= Document(ObjectsOf(pages))
  {
    hide ObjectOf, Xref, Trailer, EntriesFrom;
    var objects := ObjectsOf(pages);
    assert NatText(1) == "1";
    assert Body(objects, 1) == "1 0 obj\n" + (objects[1] + "\nendobj\n") + Body(objects, 2);
  }
}
