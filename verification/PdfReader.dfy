/** An independent reader of the text-only PDF, from startxref down to each content stream. */
module PdfReader {
  import opened Prelude
  import opened Numerals
  import opened Framing
  import opened PlainTextPdf

  // ---------- tokens ----------

  /** The text after an expected prefix. */
  function Expect(prefix: string, s: string): (r: Option<string>)
    ensures r.Some? ==> |r.value| + |prefix| == |s|
  {
    if prefix <= s then Some(s[|prefix|..]) else None
  }

  function LeadingDigits(s: string): (n: nat)
    ensures n <= |s| && forall i :: 0 <= i < n ==> IsDigit(s[i])
  {
    if s != "" && IsDigit(s[0]) then 1 + LeadingDigits(s[1..]) else 0
  }

  function TrailingDigits(s: string): (n: nat)
    ensures n <= |s| && forall i :: |s| - n <= i < |s| ==> IsDigit(s[i])
  {
    if s != "" && IsDigit(s[|s| - 1]) then 1 + TrailingDigits(s[..|s| - 1]) else 0
  }

  datatype Number = NoNumber | Number(value: nat, rest: string)

  function ReadNat(s: string): (r: Number)
    ensures r.Number? ==> |r.rest| < |s|
  {
    var n := LeadingDigits(s);
    if n == 0 then NoNumber else Number(NatValue(s[..n]), s[n..])
  }

  // ---------- content streams ----------

  datatype Text = NoText | Text(text: string, rest: string)

  /** A string operand after its opening bracket, up to the closing one. */
  function ReadLiteral(s: string): (r: Text)
    ensures r.Text? ==> |r.rest| < |s|
  {
    if s == "" then NoText
    else if s[0] == ')' then Text("", s[1..])
    else if s[0] == '\\' then
      if |s| < 2 then NoText else
      match ReadLiteral(s[2..])
      case NoText => NoText
      case Text(text, rest) => Text([s[1]] + text, rest)
    else
      match ReadLiteral(s[1..])
      case NoText => NoText
      case Text(text, rest) => Text([s[0]] + text, rest)
  }

  /** The lines shown until the end of the text object. */
  function ReadLines(s: string): Option<seq<string>>
    decreases |s|
  {
    match Expect("(", s)
    case None => None
    case Some(body) =>
      match ReadLiteral(body)
      case NoText => None
      case Text(line, after) =>
        match Expect(" Tj\n", after)
        case None => None
        case Some(rest) =>
          if rest == "ET" then Some([line]) else
          match Expect("T*\n", rest)
          case None => None
          case Some(more) =>
            match ReadLines(more)
            case None => None
            case Some(lines) => Some([line] + lines)
  }

  const PREAMBLE_TEXT := "BT\n/F1 9 Tf\n72 760 Td\n11 TL\n"

  function ReadStream(s: string): Option<seq<string>>
  {
    match Expect(PREAMBLE_TEXT, s)
    case None => None
    case Some(rest) => if rest == "ET" then Some([]) else ReadLines(rest)
  }

  // ---------- objects ----------

  /** Where the cross-reference table starts, as the end of the file says. */
  function StartXref(d: string): Option<nat>
  {
    if |d| < 7 || d[|d| - 7..] != "\n%%EOF\n" then None else
    var front := d[..|d| - 7];
    var n := TrailingDigits(front);
    if n == 0 then None else Some(NatValue(front[|front| - n..]))
  }

  /** A cross-reference table: how many entries it announces and their text. */
  datatype Table = Table(size: nat, entries: string)

  function ReadTable(d: string): Option<Table>
  {
    match StartXref(d)
    case None => None
    case Some(at) =>
      if at > |d| then None else
      match Expect("xref\n0 ", d[at..])
      case None => None
      case Some(count) =>
        match ReadNat(count)
        case NoNumber => None
        case Number(size, rest) =>
          match Expect("\n", rest)
          case None => None
          case Some(entries) => Some(Table(size, entries))
  }

  /** The offset in entry `k`; every entry is exactly twenty bytes. */
  function OffsetIn(t: Table, k: nat): Option<nat>
  {
    if k >= t.size || 20 * k + 20 > |t.entries| then None else
    var entry := t.entries[20 * k..20 * k + 20];
    if entry[10..] != " 00000 n \n" || !AllDigits(entry[..10]) then None else Some(NatValue(entry[..10]))
  }

  /** The file from the content of object `k` on. */
  function Open(d: string, t: Table, k: nat): Option<string>
  {
    match OffsetIn(t, k)
    case None => None
    case Some(at) => if at > |d| then None else Expect(NatText(k) + " 0 obj\n", d[at..])
  }

  /** The object the trailer names as root, when the table starts with the free entry and the sizes agree. */
  function ReadTrailer(t: Table): Option<nat>
  {
    if !(FREE_ENTRY <= t.entries) || 20 * t.size > |t.entries| then None else
    match Expect("trailer\n<< /Size ", t.entries[20 * t.size..])
    case None => None
    case Some(count) =>
      match ReadNat(count)
      case NoNumber => None
      case Number(size, afterSize) =>
        if size != t.size then None else
        match Expect(" /Root ", afterSize)
        case None => None
        case Some(number) =>
          match ReadNat(number)
          case NoNumber => None
          case Number(root, _) => Some(root)
  }

  datatype Kids = NoKids | Kids(ids: seq<nat>, rest: string)

  /** Page references up to the closing bracket. */
  function ReadKids(s: string): Kids
    decreases |s|
  {
    match ReadNat(s)
    case NoNumber => NoKids
    case Number(id, afterId) =>
      match Expect(" 0 R", afterId)
      case None => NoKids
      case Some(after) =>
        match Expect("] /Count ", after)
        case Some(rest) => Kids([id], rest)
        case None =>
          match Expect(" ", after)
          case None => NoKids
          case Some(next) =>
            match ReadKids(next)
            case NoKids => NoKids
            case Kids(ids, rest) => Kids([id] + ids, rest)
  }

  /** The stream of a content object, cut out by its length. */
  function ReadContent(s: string): Option<string>
  {
    match Expect("<< /Length ", s)
    case None => None
    case Some(number) =>
      match ReadNat(number)
      case NoNumber => None
      case Number(length, rest) =>
        match Expect(" >>\nstream\n", rest)
        case None => None
        case Some(data) =>
          if length > |data| || Expect("\nendstream\nendobj\n", data[length..]).None? then None else Some(data[..length])
  }

  /** The lines of the page that is object `id`. */
  function ReadPage(d: string, t: Table, id: nat): Option<seq<string>>
  {
    match Open(d, t, id)
    case None => None
    case Some(page) =>
      match Expect(PAGE_PREFIX, page)
      case None => None
      case Some(number) =>
        match ReadNat(number)
        case NoNumber => None
        case Number(contentId, rest) =>
          if Expect(" 0 R >>\nendobj\n", rest).None? then None else
          match Open(d, t, contentId)
          case None => None
          case Some(content) =>
            match ReadContent(content)
            case None => None
            case Some(stream) => ReadStream(stream)
  }

  function ReadPages(d: string, t: Table, ids: seq<nat>): Option<seq<seq<string>>>
  {
    if ids == [] then Some([]) else
    match ReadPage(d, t, ids[0])
    case None => None
    case Some(first) =>
      match ReadPages(d, t, ids[1..])
      case None => None
      case Some(rest) => Some([first] + rest)
  }

  /** All pages, from the catalog down. */
  function ReadPdf(d: string): Option<seq<seq<string>>>
  {
    match ReadTable(d)
    case None => None
    case Some(t) =>
      var catalog := ReadTrailer(t);
      if catalog.None? || Open(d, t, catalog.value).None? then None else
      match Expect("<< /Type /Catalog /Pages ", Open(d, t, catalog.value).value)
      case None => None
      case Some(number) =>
        match ReadNat(number)
        case NoNumber => None
        case Number(root, _) =>
          if Open(d, t, root).None? then None else
          match Expect("<< /Type /Pages /Kids [", Open(d, t, root).value)
          case None => None
          case Some(refs) =>
            match ReadKids(refs)
            case NoKids => None
            case Kids(ids, count) =>
              var n := ReadNat(count);
              if n.NoNumber? || n.value != |ids| then None else ReadPages(d, t, ids)
  }

  // ---------- tokens read back ----------

  lemma ExpectFront(prefix: string, rest: string)
    ensures Expect(prefix, prefix + rest) == Some(rest)
  {}

  lemma {:induction false} DigitsThenStop(digits: string, rest: string)
    requires AllDigits(digits) && (rest == "" || !IsDigit(rest[0]))
    ensures LeadingDigits(digits + rest) == |digits|
  {
    var s := digits + rest;
    if digits == "" {
      assert s == rest;
    } else {
      assert s[1..] == digits[1..] + rest;
      DigitsThenStop(digits[1..], rest);
    }
  }

  lemma {:induction false} StopThenDigits(front: string, digits: string)
    requires AllDigits(digits) && (front == "" || !IsDigit(front[|front| - 1]))
    ensures TrailingDigits(front + digits) == |digits|
  {
    var s := front + digits;
    if digits == "" {
      assert s == front;
    } else {
      assert s[..|s| - 1] == front + digits[..|digits| - 1];
      StopThenDigits(front, digits[..|digits| - 1]);
    }
  }

  lemma ReadNatText(n: nat, rest: string)
    requires rest == "" || !IsDigit(rest[0])
    ensures ReadNat(NatText(n) + rest) == Number(n, rest)
  {
    hide NatText, NatValue, LeadingDigits;
    var t := NatText(n);
    DigitsThenStop(t, rest);
    NatTextValue(n);
    assert (t + rest)[..|t|] == t && (t + rest)[|t|..] == rest;
  }

  lemma {:induction false} PaddedValue(n: nat, width: nat)
    requires n < Pow10(width)
    ensures NatValue(Padded(n, width)) == n
  {
    if width > 0 {
      PaddedValue(n / 10, width - 1);
      var s := Padded(n, width);
      assert s[..|s| - 1] == Padded(n / 10, width - 1);
    }
  }

  lemma TenDigits()
    ensures Pow10(10) == 10_000_000_000
  {
    assert Pow10(5) == 100_000;
  }

  // ---------- streams read back ----------

  function EscapeOne(c: char): string
  {
    if c == '\\' || c == '(' || c == ')' then ['\\', c] else [c]
  }

  function EscapeEach(s: string): string
  {
    if s == "" then "" else EscapeOne(s[0]) + EscapeEach(s[1..])
  }

  lemma {:induction false} ReplaceAppend(a: string, b: string, c: char, spelled: string)
    ensures ReplaceChar(a + b, c, spelled) == ReplaceChar(a, c, spelled) + ReplaceChar(b, c, spelled)
  {
    if a == "" {
      assert a + b == b;
    } else {
      assert (a + b)[1..] == a[1..] + b;
      ReplaceAppend(a[1..], b, c, spelled);
    }
  }

  lemma ReplaceShort(s: string, c: char, spelled: string)
    requires 1 <= |s| <= 2
    ensures ReplaceChar(s, c, spelled)
         == (if s[0] == c then spelled else [s[0]]) + (if |s| == 1 then "" else if s[1] == c then spelled else [s[1]])
  {
    if |s| == 2 { assert s[1..][1..] == ""; }
  }

  /** Three replacements in a row escape every character on its own: no replacement touches what another wrote. */
  lemma {:induction false} EscapedIsEach(s: string)
    ensures Escaped(s) == EscapeEach(s)
  {
    hide ReplaceChar;
    if s == "" {
      EmptyReplaced('\\', "\\\\");
      EmptyReplaced('(', "\\(");
      EmptyReplaced(')', "\\)");
    } else {
      var h, t := [s[0]], s[1..];
      assert s == h + t;
      EscapedIsEach(t);
      var first := ReplaceChar(h, '\\', "\\\\");
      ReplaceAppend(h, t, '\\', "\\\\");
      ReplaceShort(h, '\\', "\\\\");
      var second := ReplaceChar(first, '(', "\\(");
      ReplaceAppend(first, ReplaceChar(t, '\\', "\\\\"), '(', "\\(");
      ReplaceShort(first, '(', "\\(");
      var third := ReplaceChar(second, ')', "\\)");
      ReplaceAppend(second, ReplaceChar(ReplaceChar(t, '\\', "\\\\"), '(', "\\("), ')', "\\)");
      ReplaceShort(second, ')', "\\)");
      assert third == EscapeOne(s[0]);
    }
  }

  lemma EmptyReplaced(c: char, spelled: string)
    ensures ReplaceChar("", c, spelled) == ""
  {}

  lemma {:induction false} ReadEscaped(s: string, rest: string)
    ensures ReadLiteral(EscapeEach(s) + ")" + rest) == Text(s, rest)
  {
    var all := EscapeEach(s) + ")" + rest;
    if s == "" {
      assert all[1..] == rest;
    } else {
      var tail := EscapeEach(s[1..]) + ")" + rest;
      assert all == EscapeOne(s[0]) + tail;
      ReadEscaped(s[1..], rest);
      assert [s[0]] + s[1..] == s;
      if |EscapeOne(s[0])| == 2 { assert all[2..] == tail; } else { assert all[1..] == tail; }
    }
  }

  /** The show operators of a page, up to the end of its text object. */
  function Shown(page: seq<string>): string
    requires page != []
  {
    "(" + EscapeEach(page[0]) + ") Tj\n" + if |page| == 1 then "ET" else "T*\n" + Shown(page[1..])
  }

  lemma {:induction false} ReadShown(page: seq<string>)
    requires page != []
    ensures ReadLines(Shown(page)) == Some(page)
  {
    hide EscapeEach, ReadLiteral;
    var tail := if |page| == 1 then "ET" else "T*\n" + Shown(page[1..]);
    var after := " Tj\n" + tail;
    var body := EscapeEach(page[0]) + ")" + after;
    assert Shown(page) == "(" + body;
    ExpectFront("(", body);
    ReadEscaped(page[0], after);
    ExpectFront(" Tj\n", tail);
    if |page| > 1 {
      ExpectFront("T*\n", Shown(page[1..]));
      ReadShown(page[1..]);
      assert tail[0] == 'T' && tail != "ET";
      assert [page[0]] + page[1..] == page;
    } else {
      assert page == [page[0]];
    }
  }

  lemma {:induction false} JoinShown(page: seq<string>, first: bool)
    requires page != []
    ensures Join('\n', ShowLines(page, first) + ["ET"]) == (if first then "" else "T*\n") + Shown(page)
  {
    hide EscapeEach, Escaped, Join;
    EscapedIsEach(page[0]);
    var shown := "(" + EscapeEach(page[0]) + ") Tj";
    var rest := ShowLines(page[1..], false) + ["ET"];
    JoinCons(shown, rest);
    if |page| == 1 {
      assert rest == ["ET"];
      JoinOne("ET");
    } else {
      JoinShown(page[1..], false);
    }
    if first {
      assert ShowLines(page, first) + ["ET"] == [shown] + rest;
    } else {
      assert ShowLines(page, first) + ["ET"] == ["T*"] + ([shown] + rest);
      JoinCons("T*", [shown] + rest);
    }
  }

  lemma JoinCons(head: string, tail: seq<string>)
    requires tail != []
    ensures Join('\n', [head] + tail) == head + "\n" + Join('\n', tail)
  {
    assert ([head] + tail)[1..] == tail;
  }

  predicate IsLatin1(s: string) { forall i :: 0 <= i < |s| ==> s[i] < '\U{100}' }

  lemma {:induction false} EscapeLatin1(s: string)
    requires IsLatin1(s)
    ensures IsLatin1(EscapeEach(s))
  {
    if s != "" { EscapeLatin1(s[1..]); }
  }

  lemma {:induction false} ShownLatin1(page: seq<string>)
    requires page != [] && forall i :: 0 <= i < |page| ==> IsLatin1(page[i])
    ensures IsLatin1(Shown(page))
  {
    hide EscapeEach;
    EscapeLatin1(page[0]);
    if |page| > 1 { ShownLatin1(page[1..]); }
  }

  function StreamBody(page: seq<string>): string
  {
    if page == [] then "ET" else Shown(page)
  }

  lemma StreamJoined(page: seq<string>)
    ensures Join('\n', StreamLines(page)) == PREAMBLE_TEXT + StreamBody(page)
  {
    hide Shown, ShowLines, Join;
    var tail := ShowLines(page, true) + ["ET"];
    if page == [] {
      NoLines();
      assert tail == ["ET"];
      JoinOne("ET");
    } else {
      JoinShown(page, true);
    }
    var t4 := ["11 TL"] + tail;
    var t3 := ["72 760 Td"] + t4;
    var t2 := ["/F1 9 Tf"] + t3;
    JoinCons("11 TL", tail);
    JoinCons("72 760 Td", t4);
    JoinCons("/F1 9 Tf", t3);
    JoinCons("BT", t2);
    assert StreamLines(page) == ["BT"] + t2;
    Preambled(Join('\n', tail));
  }

  lemma Preambled(tail: string)
    ensures "BT" + "\n" + ("/F1 9 Tf" + "\n" + ("72 760 Td" + "\n" + ("11 TL" + "\n" + tail))) == PREAMBLE_TEXT + tail
  {}

  lemma Latin1Same(a: string, b: string)
    requires IsLatin1(a) && IsLatin1(b)
    ensures Latin1(a + b) == a + b
  {}

  lemma StreamText(page: seq<string>)
    requires forall i :: 0 <= i < |page| ==> IsLatin1(page[i])
    ensures Stream(page) == PREAMBLE_TEXT + StreamBody(page)
  {
    hide Shown, ShowLines, Join, StreamLines;
    StreamJoined(page);
    if page != [] { ShownLatin1(page); }
    Latin1Same(PREAMBLE_TEXT, StreamBody(page));
  }

  lemma NoLines()
    ensures ShowLines([], true) == []
  {}

  lemma JoinOne(s: string)
    ensures Join('\n', [s]) == s
  {}

  /** A content stream shows exactly the page's lines. */
  lemma ReadStreamText(page: seq<string>)
    requires forall i :: 0 <= i < |page| ==> IsLatin1(page[i])
    ensures ReadStream(Stream(page)) == Some(page)
  {
    hide Shown, Stream, ReadLines;
    StreamText(page);
    ExpectFront(PREAMBLE_TEXT, StreamBody(page));
    if page != [] {
      ReadShown(page);
      ShownStart(page);
    }
  }

  lemma ShownStart(page: seq<string>)
    requires page != []
    ensures Shown(page) != "ET"
  {
    assert Shown(page)[0] == '(';
  }
}
