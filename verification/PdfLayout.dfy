/** Byte offsets, ids and lengths in the text-only PDF are right: its reader gets every page back. */
module PdfLayout {
  import opened Prelude
  import opened Numerals
  import opened PlainTextPdf
  import opened PdfReader

  // ---------- wrapping and paging lose nothing ----------

  lemma {:induction false} ChunksJoin(s: string)
    ensures Flatten(Chunks(s)) == s
  {
    if |s| <= LINE_WIDTH {
      assert [s][1..] == [] && Flatten<char>([]) == [];
    } else {
      var rest := Chunks(s[LINE_WIDTH..]);
      ChunksJoin(s[LINE_WIDTH..]);
      assert ([s[..LINE_WIDTH]] + rest)[1..] == rest;
    }
  }

  lemma {:induction false} RunsJoin(lines: seq<string>)
    ensures Flatten(Runs(lines)) == lines
    decreases |lines|
  {
    if |lines| > PAGE_LINES {
      var rest := Runs(lines[PAGE_LINES..]);
      RunsJoin(lines[PAGE_LINES..]);
      assert ([lines[..PAGE_LINES]] + rest)[1..] == rest;
    } else if lines != [] {
      assert [lines][1..] == [];
      assert Flatten([lines]) == lines + Flatten([]) == lines;
    }
  }

  /** The text of a section is its lines in order: wrapping neither loses nor reorders a character. */
  lemma {:induction false} WrappingLossless(plain: Plain, raw: seq<string>)
    ensures Flatten(ChunkAll(plain, raw)) == Flatten(Ascii(plain, raw))
    ensures forall line :: line in ChunkAll(plain, raw) ==> |line| <= LINE_WIDTH
  {
    if raw != [] {
      var head, tail := Chunks(plain.toAscii(raw[0])), ChunkAll(plain, raw[1..]);
      WrappingLossless(plain, raw[1..]);
      ChunksJoin(plain.toAscii(raw[0]));
      FlattenAppend(head, tail);
      assert Ascii(plain, raw)[1..] == Ascii(plain, raw[1..]);
    }
  }

  function Ascii(plain: Plain, raw: seq<string>): seq<string>
  {
    if raw == [] then [] else [plain.toAscii(raw[0])] + Ascii(plain, raw[1..])
  }

  /** The pages are the lines in order, at most a page's lines each, all pages but the last full. */
  lemma PagingLossless(lines: seq<string>)
    ensures Flatten(Pages(lines)) == lines
    ensures forall i :: 0 <= i < |Pages(lines)| ==> |Pages(lines)[i]| <= PAGE_LINES
    ensures forall i :: 0 <= i < |Pages(lines)| - 1 ==> |Pages(lines)[i]| == PAGE_LINES
  {
    if lines == [] {
      OnePage([]);
    } else {
      hide Runs;
      RunsJoin(lines);
    }
  }

  lemma OnePage(page: seq<string>)
    ensures Flatten([page]) == page
  {
    assert [page][1..] == [];
    assert Flatten<string>([]) == [] && page + [] == page;
  }

  // ---------- offsets ----------

  lemma {:induction false} BodyAt(objects: seq<string>, k: nat)
    requires 1 <= k <= |objects|
    ensures OffsetOf(objects, k) <= |Body(objects, 1)| && Body(objects, 1)[OffsetOf(objects, k)..] == Body(objects, k)
  {
    hide ObjectText;
    if k > 1 {
      BodyAt(objects, k - 1);
      var at, text := OffsetOf(objects, k - 1), ObjectText(k - 1, objects[k - 1]);
      assert Body(objects, k - 1) == text + Body(objects, k);
      assert Body(objects, 1)[at..][|text|..] == Body(objects, 1)[at + |text|..];
    }
  }

  /** An entry has the required twenty bytes exactly while the offset fits ten digits. */
  lemma EntryWidth(offset: nat)
    ensures |EntryText(offset)| == 20 <==> offset < 10_000_000_000
  {
    hide NatText;
    if offset >= 10_000_000_000 { ManyDigits(offset, 10); }
  }

  lemma {:induction false} ManyDigits(n: nat, width: nat)
    requires n >= Pow10(width)
    ensures |NatText(n)| > width
  {
    TenDigits();
    if width > 0 {
      assert n / 10 >= Pow10(width - 1);
      ManyDigits(n / 10, width - 1);
    }
  }

  predicate Addressable(objects: seq<string>)
    requires |objects| >= 1
  {
    |Body(objects, 1)| < 10_000_000_000
  }

  lemma {:induction false} EntriesLength(objects: seq<string>, j: nat)
    requires 1 <= j <= |objects| && Addressable(objects)
    ensures |EntriesFrom(objects, j)| == 20 * (|objects| - j)
    decreases |objects| - j
  {
    hide EntryText;
    if j < |objects| {
      BodyAt(objects, j);
      EntryWidth(OffsetOf(objects, j));
      EntriesLength(objects, j + 1);
    }
  }

  lemma {:induction false} EntriesAt(objects: seq<string>, j: nat, k: nat)
    requires 1 <= j <= k < |objects| && Addressable(objects)
    ensures var at := 20 * (k - j);
            |EntriesFrom(objects, j)| >= at + 20 && EntriesFrom(objects, j)[at..at + 20] == EntryText(OffsetOf(objects, k))
    decreases |objects| - j
  {
    hide EntryText, OffsetOf, Body;
    EntriesLength(objects, j);
    EntriesLength(objects, j + 1);
    var head, tail := EntryText(OffsetOf(objects, j)), EntriesFrom(objects, j + 1);
    assert EntriesFrom(objects, j) == head + tail;
    if k > j {
      EntriesAt(objects, j + 1, k);
      SliceShift(head, tail, 20 * (k - j - 1));
    } else {
      assert (head + tail)[..20] == head;
    }
  }

  lemma SliceShift(head: string, tail: string, at: nat)
    requires |head| == 20 && at + 20 <= |tail|
    ensures (head + tail)[at + 20..at + 20 + 20] == tail[at..at + 20]
  {}

  lemma ReadEntry(offset: nat)
    requires offset < 10_000_000_000
    ensures var e := EntryText(offset);
            |e| == 20 && e[10..] == " 00000 n \n" && AllDigits(e[..10]) && NatValue(e[..10]) == offset
  {
    hide NatValue, Padded;
    TenDigits();
    PaddedValue(offset, 10);
    assert EntryText(offset)[..10] == Padded(offset, 10);
  }

  // ---------- the table ----------

  function TableText(objects: seq<string>): string
    requires |objects| >= 1
  {
    FREE_ENTRY + EntriesFrom(objects, 1) + Trailer(|objects|, |Body(objects, 1)|)
  }

  lemma ReadStartXref(front: string, xref: nat)
    requires front != "" && !IsDigit(front[|front| - 1])
    ensures StartXref(front + NatText(xref) + "\n%%EOF\n") == Some(xref)
  {
    hide NatText, NatValue, TrailingDigits;
    var text := front + NatText(xref);
    var d := text + "\n%%EOF\n";
    assert d[..|d| - 7] == text && d[|d| - 7..] == "\n%%EOF\n";
    StopThenDigits(front, NatText(xref));
    assert text[|text| - |NatText(xref)|..] == NatText(xref);
    NatTextValue(xref);
  }

  lemma DocumentShape(objects: seq<string>)
    requires |objects| >= 1
    ensures Document(objects)
         == Body(objects, 1) + ("xref\n0 " + (NatText(|objects|) + ("\n" + TableText(objects))))
  {
    hide NatText, Body, EntriesFrom, Trailer;
  }

  lemma DocumentEnd(objects: seq<string>)
    requires |objects| >= 1
    ensures var front := Body(objects, 1) + Xref(objects) + ("trailer\n<< /Size " + NatText(|objects|) + " /Root 1 0 R >>\nstartxref\n");
            Document(objects) == front + NatText(|Body(objects, 1)|) + "\n%%EOF\n" && front != "" && !IsDigit(front[|front| - 1])
  {
    hide NatText, Body, Xref;
  }

  lemma ReadTableBack(objects: seq<string>)
    requires |objects| >= 1
    ensures ReadTable(Document(objects)) == Some(Table(|objects|, TableText(objects)))
  {
    hide NatText, Body, StartXref, Document, ReadNat, TableText;
    var d, at := Document(objects), |Body(objects, 1)|;
    DocumentEnd(objects);
    ReadStartXref(
      Body(objects, 1) + Xref(objects) + ("trailer\n<< /Size " + NatText(|objects|) + " /Root 1 0 R >>\nstartxref\n"), at);
    DocumentShape(objects);
    var rest := "\n" + TableText(objects);
    assert d[at..] == "xref\n0 " + (NatText(|objects|) + rest);
    ExpectFront("xref\n0 ", NatText(|objects|) + rest);
    ReadNatText(|objects|, rest);
    ExpectFront("\n", TableText(objects));
  }

  /** Every entry holds the offset of its object. */
  lemma OffsetBack(objects: seq<string>, k: nat)
    requires 1 <= k < |objects| && Addressable(objects)
    ensures OffsetIn(Table(|objects|, TableText(objects)), k) == Some(OffsetOf(objects, k))
  {
    hide EntryText, EntriesFrom, Trailer, Body, OffsetOf;
    EntriesAt(objects, 1, k);
    var offset := OffsetOf(objects, k);
    assert offset < 10_000_000_000 by { BodyAt(objects, k); }
    ReadEntry(offset);
    var entries, text := EntriesFrom(objects, 1), TableText(objects);
    assert |FREE_ENTRY| == 20;
    assert text[20 * k..20 * k + 20] == entries[20 * (k - 1)..20 * (k - 1) + 20];
  }

  /** Following entry `k` leads to the content of object `k`. */
  lemma OpenBack(objects: seq<string>, k: nat)
    requires 1 <= k < |objects| && Addressable(objects)
    ensures Open(Document(objects), Table(|objects|, TableText(objects)), k).Some?
    ensures objects[k] + "\nendobj\n" <= Open(Document(objects), Table(|objects|, TableText(objects)), k).value
  {
    hide NatText, TableText, OffsetIn, Xref, Trailer, Addressable;
    OffsetBack(objects, k);
    BodyAt(objects, k);
    var body, at := Body(objects, 1), OffsetOf(objects, k);
    var d := Document(objects);
    var after := Xref(objects) + Trailer(|objects|, |body|);
    var rest := objects[k] + "\nendobj\n" + (Body(objects, k + 1) + after);
    assert Body(objects, k) == ObjectText(k, objects[k]) + Body(objects, k + 1);
    hide Body, OffsetOf;
    assert d == body + after;
    assert d[at..] == body[at..] + after;
    assert d[at..] == (NatText(k) + " 0 obj\n") + rest;
    ExpectFront(NatText(k) + " 0 obj\n", rest);
  }

  /** What follows the root's number in the trailer. */
  function TrailerRest(xref: string): string { " 0 R >>\nstartxref\n" + xref + "\n%%EOF\n" }

  lemma TrailerShape(size: string, xref: string)
    ensures "trailer\n<< /Size " + size + " /Root 1 0 R >>\nstartxref\n" + xref + "\n%%EOF\n"
         == "trailer\n<< /Size " + (size + (" /Root " + ("1" + TrailerRest(xref))))
  {
    var middle := " /Root 1 0 R >>\nstartxref\n";
    assert middle == " /Root " + "1" + " 0 R >>\nstartxref\n";
  }

  lemma ReadTrailerText(front: string, n: nat, at: nat)
    requires |front| == 20 * n && FREE_ENTRY <= front
    ensures ReadTrailer(Table(n, front + Trailer(n, at))) == Some(1)
  {
    OneText();
    hide NatText, ReadNat, FREE_ENTRY, TrailerRest;
    TrailerShape(NatText(n), NatText(at));
    var afterRoot := TrailerRest(NatText(at));
    var afterSize := " /Root " + (NatText(1) + afterRoot);
    assert (front + Trailer(n, at))[20 * n..] == Trailer(n, at);
    ExpectFront("trailer\n<< /Size ", NatText(n) + afterSize);
    ReadNatText(n, afterSize);
    ExpectFront(" /Root ", NatText(1) + afterRoot);
    assert afterRoot[0] == ' ' by { RestStart(NatText(at)); }
    ReadNatText(1, afterRoot);
  }

  lemma RestStart(xref: string)
    ensures TrailerRest(xref) != "" && TrailerRest(xref)[0] == ' '
  {}

  /** The trailer gives the size of the table and the catalog's id. */
  lemma ReadTrailerBack(objects: seq<string>)
    requires |objects| >= 1 && Addressable(objects)
    ensures ReadTrailer(Table(|objects|, TableText(objects))) == Some(1)
  {
    hide NatText, EntriesFrom, Body, Trailer, ReadTrailer;
    EntriesLength(objects, 1);
    OneText();
    ReadTrailerText(FREE_ENTRY + EntriesFrom(objects, 1), |objects|, |Body(objects, 1)|);
  }

  lemma OneText()
    ensures NatText(1) == "1" && |FREE_ENTRY| == 20
  {}

  // ---------- pages ----------

  lemma LastKid(id: nat, rest: string)
    ensures ReadKids(NatText(id) + (" 0 R" + ("] /Count " + rest))) == Kids([id], rest)
  {
    hide NatText, ReadNat;
    var after := "] /Count " + rest;
    ReadNatText(id, " 0 R" + after);
    ExpectFront(" 0 R", after);
    ExpectFront("] /Count ", rest);
  }

  lemma NextKid(id: nat, next: string, ids: seq<nat>, rest: string)
    requires ReadKids(next) == Kids(ids, rest)
    ensures ReadKids(NatText(id) + (" 0 R" + (" " + next))) == Kids([id] + ids, rest)
  {
    hide NatText, ReadNat;
    var after := " " + next;
    ReadNatText(id, " 0 R" + after);
    ExpectFront(" 0 R", after);
    assert after[0] == ' ' && Expect("] /Count ", after).None?;
    ExpectFront(" ", next);
  }

  lemma {:induction false} ReadKidsBack(ids: seq<nat>, rest: string)
    requires ids != []
    ensures ReadKids(KidRefs(ids) + "] /Count " + rest) == Kids(ids, rest)
  {
    hide NatText, ReadNat, ReadKids;
    var s := KidRefs(ids) + "] /Count " + rest;
    if |ids| == 1 {
      assert s == NatText(ids[0]) + (" 0 R" + ("] /Count " + rest));
      LastKid(ids[0], rest);
      assert ids == [ids[0]];
    } else {
      var next := KidRefs(ids[1..]) + "] /Count " + rest;
      assert s == NatText(ids[0]) + (" 0 R" + (" " + next));
      ReadKidsBack(ids[1..], rest);
      NextKid(ids[0], next, ids[1..], rest);
      assert ids == [ids[0]] + ids[1..];
    }
  }

  lemma ReadContentBack(stream: string, more: string)
    ensures ReadContent(ContentObject(stream) + "\nendobj\n" + more) == Some(stream)
  {
    hide NatText, ReadNat;
    var data := stream + ("\nendstream\nendobj\n" + more);
    var rest := " >>\nstream\n" + data;
    assert ContentObject(stream) + "\nendobj\n" + more == "<< /Length " + (NatText(|stream|) + rest);
    ExpectFront("<< /Length ", NatText(|stream|) + rest);
    ReadNatText(|stream|, rest);
    ExpectFront(" >>\nstream\n", data);
    assert data[|stream|..] == "\nendstream\nendobj\n" + more && data[..|stream|] == stream;
    ExpectFront("\nendstream\nendobj\n", more);
  }

  lemma PageObjectShape(contentId: nat, more: string)
    ensures PageObject(contentId) + "\nendobj\n" + more == PAGE_PREFIX + (NatText(contentId) + (" 0 R >>\nendobj\n" + more))
  {
    hide NatText, PAGE_PREFIX;
  }

  predicate AllLatin1(pages: seq<seq<string>>)
  {
    forall i, j :: 0 <= i < |pages| && 0 <= j < |pages[i]| ==> IsLatin1(pages[i][j])
  }

  function TableOf(pages: seq<seq<string>>): Table
  {
    Table(|ObjectsOf(pages)|, TableText(ObjectsOf(pages)))
  }

  lemma SplitPrefix(prefix: string, s: string)
    requires prefix <= s
    ensures s == prefix + s[|prefix|..]
  {}

  lemma ReadPageBack(pages: seq<seq<string>>, i: nat)
    requires i < |pages| && AllLatin1(pages) && Addressable(ObjectsOf(pages))
    ensures ReadPage(Document(ObjectsOf(pages)), TableOf(pages), PageId(i)) == Some(pages[i])
  {
    hide ObjectsOf, Document, TableText, Open, ReadNat, ReadContent, ReadStream, Stream, PageObject, ContentObject, PAGE_PREFIX, NatText,
         Addressable, IsLatin1;
    var objects, t := ObjectsOf(pages), TableOf(pages);
    var d, id := Document(objects), PageId(i);
    PageObjects(pages, i);
    OpenBack(objects, id);
    OpenBack(objects, id + 1);
    var page, content := Open(d, t, id).value, Open(d, t, id + 1).value;
    var pageRest := page[|objects[id] + "\nendobj\n"|..];
    SplitPrefix(objects[id] + "\nendobj\n", page);
    PageObjectShape(id + 1, pageRest);
    ExpectFront(PAGE_PREFIX, NatText(id + 1) + (" 0 R >>\nendobj\n" + pageRest));
    ReadNatText(id + 1, " 0 R >>\nendobj\n" + pageRest);
    ExpectFront(" 0 R >>\nendobj\n", pageRest);
    var contentRest := content[|objects[id + 1] + "\nendobj\n"|..];
    SplitPrefix(objects[id + 1] + "\nendobj\n", content);
    ReadContentBack(Stream(pages[i]), contentRest);
    ReadStreamText(pages[i]);
  }

  lemma PageObjects(pages: seq<seq<string>>, i: nat)
    requires i < |pages|
    ensures var objects := ObjectsOf(pages);
            |objects| == 4 + 2 * |pages|
            && objects[PageId(i)] == PageObject(PageId(i) + 1)
            && objects[PageId(i) + 1] == ContentObject(Stream(pages[i]))
  {
    hide PageObject, ContentObject, Stream, PagesObject;
  }

  lemma {:induction false} ReadPagesBack(pages: seq<seq<string>>, i: nat)
    requires i <= |pages| && AllLatin1(pages) && Addressable(ObjectsOf(pages))
    ensures ReadPages(Document(ObjectsOf(pages)), TableOf(pages), PageIds(|pages|)[i..]) == Some(pages[i..])
    decreases |pages| - i
  {
    hide ObjectsOf, Document, TableOf, ReadPage, Addressable, AllLatin1;
    var ids := PageIds(|pages|)[i..];
    if i < |pages| {
      ReadPageBack(pages, i);
      ReadPagesBack(pages, i + 1);
      assert ids[0] == PageId(i) && ids[1..] == PageIds(|pages|)[i + 1..];
      assert pages[i..] == [pages[i]] + pages[i + 1..];
    }
  }

  lemma ReadCatalog(pages: seq<seq<string>>)
    requires pages != [] && Addressable(ObjectsOf(pages))
    ensures var d, t := Document(ObjectsOf(pages)), TableOf(pages);
            Open(d, t, 1).Some?
            && var number := Expect("<< /Type /Catalog /Pages ", Open(d, t, 1).value);
               number.Some? && ReadNat(number.value).Number? && ReadNat(number.value).value == 2
  {
    hide ObjectsOf, Document, TableText, Open, ReadNat, NatText, Addressable;
    var objects := ObjectsOf(pages);
    FixedObjects(pages);
    OpenBack(objects, 1);
    var s := Open(Document(objects), TableOf(pages), 1).value;
    SplitPrefix(objects[1] + "\nendobj\n", s);
    var more := s[|objects[1] + "\nendobj\n"|..];
    var rest := " 0 R >>" + "\nendobj\n" + more;
    assert NatText(2) == "2" by { TwoText(); }
    assert s == "<< /Type /Catalog /Pages " + (NatText(2) + rest);
    ExpectFront("<< /Type /Catalog /Pages ", NatText(2) + rest);
    ReadNatText(2, rest);
  }

  lemma TwoText()
    ensures NatText(2) == "2"
  {}

  lemma FixedObjects(pages: seq<seq<string>>)
    ensures var objects := ObjectsOf(pages);
            |objects| == 4 + 2 * |pages| && objects[1] == CATALOG && objects[2] == PagesObject(PageIds(|pages|))
  {
    hide PagesObject;
  }

  lemma ReadRoot(pages: seq<seq<string>>)
    requires pages != [] && Addressable(ObjectsOf(pages))
    ensures var d, t := Document(ObjectsOf(pages)), TableOf(pages);
            Open(d, t, 2).Some?
            && var refs := Expect("<< /Type /Pages /Kids [", Open(d, t, 2).value);
               refs.Some? && ReadKids(refs.value).Kids? && ReadKids(refs.value).ids == PageIds(|pages|)
               && ReadNat(ReadKids(refs.value).rest).Number? && ReadNat(ReadKids(refs.value).rest).value == |pages|
  {
    hide ObjectsOf, Document, TableText, Open, ReadNat, NatText, Addressable, KidRefs, ReadKids;
    var objects, ids := ObjectsOf(pages), PageIds(|pages|);
    FixedObjects(pages);
    OpenBack(objects, 2);
    var s := Open(Document(objects), TableOf(pages), 2).value;
    SplitPrefix(objects[2] + "\nendobj\n", s);
    var rest := " >>" + "\nendobj\n" + s[|objects[2] + "\nendobj\n"|..];
    var refs := KidRefs(ids) + "] /Count " + (NatText(|ids|) + rest);
    assert s == "<< /Type /Pages /Kids [" + refs;
    ExpectFront("<< /Type /Pages /Kids [", refs);
    ReadKidsBack(ids, NatText(|ids|) + rest);
    ReadNatText(|ids|, rest);
  }

  /**
   * Reading the document from its end gives back exactly the pages: startxref, every cross-reference entry, the trailer,
   * every kid and content id, every length and every escape is right.
   */
  lemma ReadPdfBack(pages: seq<seq<string>>)
    requires pages != [] && AllLatin1(pages) && Addressable(ObjectsOf(pages))
    ensures ReadPdf(Document(ObjectsOf(pages))) == Some(pages)
  {
    hide ObjectsOf, Document, TableText, Open, ReadNat, ReadKids, ReadPages, ReadTable, ReadTrailer, Addressable, AllLatin1, PageIds;
    ReadTableBack(ObjectsOf(pages));
    ReadTrailerBack(ObjectsOf(pages));
    ReadCatalog(pages);
    ReadRoot(pages);
    ReadPagesBack(pages, 0);
    assert PageIds(|pages|)[0..] == PageIds(|pages|) && pages[0..] == pages;
    PageIdsLength(|pages|);
  }

  lemma PageIdsLength(n: nat)
    ensures |PageIds(n)| == n
  {}

  lemma {:induction false} ChunksLatin1(s: string)
    requires IsLatin1(s)
    ensures forall piece :: piece in Chunks(s) ==> IsLatin1(piece)
  {
    if |s| > LINE_WIDTH { ChunksLatin1(s[LINE_WIDTH..]); }
  }

  lemma {:induction false} WrappedLatin1(plain: Plain, raw: seq<string>)
    requires forall s :: IsLatin1(plain.toAscii(s))
    ensures forall line :: line in ChunkAll(plain, raw) ==> IsLatin1(line)
  {
    hide Chunks, IsLatin1;
    if raw != [] {
      ChunksLatin1(plain.toAscii(raw[0]));
      WrappedLatin1(plain, raw[1..]);
    }
  }

  lemma {:induction false} LinesLatin1(plain: Plain, sections: seq<string>)
    requires forall s :: IsLatin1(plain.toAscii(s))
    ensures forall line :: line in LinesOf(plain, sections) ==> IsLatin1(line)
  {
    hide ChunkAll, IsLatin1;
    assert IsLatin1("") by { EmptyLatin1(); }
    if sections != [] {
      WrappedLatin1(plain, RawLines(plain, sections[0]));
      LinesLatin1(plain, sections[1..]);
    }
  }

  lemma EmptyLatin1()
    ensures IsLatin1("")
  {}

  lemma {:induction false} InFlatten(pages: seq<seq<string>>, i: nat, line: string)
    requires i < |pages| && line in pages[i]
    ensures line in Flatten(pages)
  {
    if i > 0 { InFlatten(pages[1..], i - 1, line); }
  }

  /** What `_plain_text_pdf` wrote for some sections reads back as their lines, in order, page by page. */
  lemma RenderedLinesBack(plain: Plain, sections: seq<string>)
    requires forall s :: IsLatin1(plain.toAscii(s))
    requires Addressable(ObjectsOf(Pages(LinesOf(plain, sections))))
    ensures var pages := ReadPdf(Document(ObjectsOf(Pages(LinesOf(plain, sections)))));
            pages.Some? && Flatten(pages.value) == LinesOf(plain, sections)
            && (forall i :: 0 <= i < |pages.value| ==> |pages.value[i]| <= PAGE_LINES)
  {
    hide ObjectsOf, Document, ReadPdf, Pages, LinesOf, IsLatin1, Addressable;
    var lines := LinesOf(plain, sections);
    var pages := Pages(lines);
    PagingLossless(lines);
    LinesLatin1(plain, sections);
    forall i, j | 0 <= i < |pages| && 0 <= j < |pages[i]| ensures IsLatin1(pages[i][j]) {
      InFlatten(pages, i, pages[i][j]);
    }
    ReadPdfBack(pages);
  }
}
