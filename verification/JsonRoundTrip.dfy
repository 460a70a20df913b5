/** Reading back what was written gives the same value, for every value and both escaping modes. */
module JsonRoundTrip {
  import opened Prelude
  import opened Numerals
  import opened Ordering
  import opened Json

  /** Every float in the value is spelled as `repr` spells it. */
  predicate FloatsExact(fr: FloatText -> FloatText, j: Json)
  {
    match j
    case JFloat(t) => fr(t) == t
    case JArray(items) => forall x | x in items :: FloatsExact(fr, x)
    case JObject(fields) => forall k | k in fields :: FloatsExact(fr, fields[k])
    case _ => true
  }

  /** What may follow a value inside a document. */
  predicate Ends(rest: string) { rest == "" || rest[0] == ',' || rest[0] == ']' || rest[0] == '}' }

  lemma ParseHexText(n: nat, rest: string)
    requires n < 0x1_0000
    ensures ParseHex4(Hex4(n) + rest) == Good(n, rest)
  {
    var s := Hex4(n) + rest;
    assert s[0] == HexChar(n / 16 / 16 / 16) && s[1] == HexChar(n / 16 / 16 % 16);
    assert s[2] == HexChar(n / 16 % 16) && s[3] == HexChar(n % 16);
    assert s[4..] == rest;
  }

  lemma ParseEscapedScalar(n: nat, rest: string)
    requires n < 0xD800 || 0xE000 <= n < 0x1_0000
    ensures ParseChar(UnicodeEscape(n) + rest) == Good(n as char, rest)
  {
    ParseHexText(n, rest);
    assert (UnicodeEscape(n) + rest)[2..] == Hex4(n) + rest;
  }

  lemma ParseSurrogates(high: nat, low: nat, rest: string)
    requires 0xD800 <= high < 0xDC00 && 0xDC00 <= low < 0xE000
    ensures ParseUnicodeEscape(Hex4(high) + ("\\u" + (Hex4(low) + rest)))
         == Good((0x1_0000 + (high - 0xD800) * 0x400 + (low - 0xDC00)) as char, rest)
  {
    hide ParseHex4, Hex4;
    var second := "\\u" + (Hex4(low) + rest);
    ParseHexText(high, second);
    assert second[2..] == Hex4(low) + rest;
    ParseHexText(low, rest);
  }

  lemma ParseEscapedPair(c: char, rest: string)
    requires 0x1_0000 <= c as int
    ensures ParseChar(EscapeChar(true, c) + rest) == Good(c, rest)
  {
    hide ParseHex4, Hex4, ParseUnicodeEscape;
    var n := c as int - 0x1_0000;
    var high, low := 0xD800 + n / 0x400, 0xDC00 + n % 0x400;
    var s := EscapeChar(true, c) + rest;
    assert s == "\\u" + (Hex4(high) + ("\\u" + (Hex4(low) + rest)));
    assert s[2..] == Hex4(high) + ("\\u" + (Hex4(low) + rest));
    ParseSurrogates(high, low, rest);
    assert (high - 0xD800) * 0x400 + (low - 0xDC00) == n;
  }

  lemma ParseEscapedChar(ascii: bool, c: char, rest: string)
    ensures ParseChar(EscapeChar(ascii, c) + rest) == Good(c, rest)
  {
    var e := EscapeChar(ascii, c);
    if |e| == 1 {
      assert (e + rest)[1..] == rest;
    } else if |e| == 2 {
      assert (e + rest)[2..] == rest;
    } else if c as int >= 0x1_0000 {
      ParseEscapedPair(c, rest);
    } else {
      ParseEscapedScalar(c as int, rest);
    }
  }

  lemma {:induction false} ParseEscapedText(ascii: bool, t: string, rest: string)
    ensures ParseText(EscapeText(ascii, t) + "\"" + rest) == Good(t, rest)
  {
    var s := EscapeText(ascii, t) + "\"" + rest;
    if t == "" {
      assert s[1..] == rest;
    } else {
      var tail := EscapeText(ascii, t[1..]) + "\"" + rest;
      assert s == EscapeChar(ascii, t[0]) + tail;
      ParseEscapedChar(ascii, t[0], tail);
      ParseEscapedText(ascii, t[1..], rest);
      assert [t[0]] + t[1..] == t;
    }
  }

  lemma ParseQuoted(ascii: bool, t: string, rest: string)
    ensures (Quoted(ascii, t) + rest)[0] == '"'
    ensures ParseText((Quoted(ascii, t) + rest)[1..]) == Good(t, rest)
  {
    assert (Quoted(ascii, t) + rest)[1..] == EscapeText(ascii, t) + "\"" + rest;
    ParseEscapedText(ascii, t, rest);
  }

  lemma {:induction false} DigitRunStops(t: string, rest: string, i: nat)
    requires i <= |t| && Ends(rest)
    ensures DigitRun(t + rest, i) == DigitRun(t, i)
    decreases |t| - i
  {
    if i < |t| && IsDigit(t[i]) { DigitRunStops(t, rest, i + 1); }
  }

  lemma NumberStops(t: string, rest: string)
    requires Ends(rest) && IntEnd(t).Some?
    ensures IntEnd(t + rest) == IntEnd(t)
    ensures FractionEnd(t + rest, IntEnd(t).value) == FractionEnd(t, IntEnd(t).value)
  {
    DigitRunStops(t, rest, if t[0] == '-' then 1 else 0);
    var i := IntEnd(t).value;
    if i < |t| { DigitRunStops(t, rest, i + 1); }
  }

  lemma ExponentStops(t: string, rest: string, i: nat)
    requires Ends(rest) && i <= |t|
    ensures ExponentEnd(t + rest, i) == ExponentEnd(t, i)
  {
    if i < |t| {
      DigitRunStops(t, rest, i + 1);
      if i + 1 < |t| { DigitRunStops(t, rest, i + 2); }
    }
  }

  lemma ParseIntText(fr: FloatText -> FloatText, n: int, rest: string)
    requires Ends(rest)
    ensures ParseValue(fr, IntText(n) + rest) == Good(JInt(n), rest)
  {
    var t := IntText(n);
    IntTextValue(n);
    NumberStops(t, rest);
    ExponentStops(t, rest, |t|);
    assert (t + rest)[..|t|] == t && (t + rest)[|t|..] == rest;
    assert t[0] == '-' || IsDigit(t[0]);
  }

  lemma ParseFloatText(fr: FloatText -> FloatText, t: FloatText, rest: string)
    requires Ends(rest) && fr(t) == t
    ensures ParseValue(fr, t + rest) == Good(JFloat(t), rest)
  {
    NumberStops(t, rest);
    ExponentStops(t, rest, FractionEnd(t, IntEnd(t).value));
    assert (t + rest)[..|t|] == t && (t + rest)[|t|..] == rest;
    assert t[0] == '-' || IsDigit(t[0]);
  }

  /** A written value begins with neither a space nor a closing bracket. */
  lemma DumpsStart(ascii: bool, j: Json)
    ensures !IsSpace(Dumps(ascii, j)[0]) && Dumps(ascii, j)[0] != ']'
  {}

  lemma DumpItemsStart(ascii: bool, items: seq<Json>)
    requires items != []
    ensures !IsSpace(DumpItems(ascii, items)[0]) && DumpItems(ascii, items)[0] != ']'
  {
    DumpsStart(ascii, items[0]);
    assert DumpItems(ascii, items)[0] == Dumps(ascii, items[0])[0];
  }

  // One step of each parsing loop, on text whose pieces are already known to parse.

  lemma ArrayStep(fr: FloatText -> FloatText, body: string, items: seq<Json>, rest: string)
    requires body != "" && !IsSpace(body[0]) && body[0] != ']'
    requires ParseItems(fr, body) == Good(items, rest)
    ensures ParseValue(fr, "[" + body) == Good(JArray(items), rest)
  {
    hide ParseItems, ParseMembers, ParseText, ParseNumber;
    assert ("[" + body)[1..] == body;
  }

  lemma ObjectStep(fr: FloatText -> FloatText, body: string, fields: map<string, Json>, rest: string)
    requires body != "" && body[0] == '"'
    requires ParseMembers(fr, body) == Good(fields, rest)
    ensures ParseValue(fr, "{" + body) == Good(JObject(fields), rest)
  {
    hide ParseItems, ParseMembers, ParseText, ParseNumber;
    assert ("{" + body)[1..] == body;
  }

  lemma LastItem(fr: FloatText -> FloatText, s: string, item: Json, rest: string)
    requires ParseValue(fr, s) == Good(item, "]" + rest)
    ensures ParseItems(fr, s) == Good([item], rest)
  {
    hide ParseValue;
    assert ("]" + rest)[1..] == rest;
  }

  lemma MoreItems(fr: FloatText -> FloatText, s: string, item: Json, tail: string, items: seq<Json>, rest: string)
    requires ParseValue(fr, s) == Good(item, "," + tail)
    requires tail != "" && !IsSpace(tail[0]) && ParseItems(fr, tail) == Good(items, rest)
    ensures ParseItems(fr, s) == Good([item] + items, rest)
  {
    hide ParseValue;
    assert ("," + tail)[1..] == tail;
  }

  lemma LastMember(fr: FloatText -> FloatText, s: string, key: string, text: string, value: Json, rest: string)
    requires s != "" && s[0] == '"' && ParseText(s[1..]) == Good(key, ":" + text)
    requires text != "" && !IsSpace(text[0]) && ParseValue(fr, text) == Good(value, "}" + rest)
    ensures ParseMembers(fr, s) == Good(map[key := value], rest)
  {
    hide ParseValue, ParseText;
    assert (":" + text)[1..] == text;
    assert ("}" + rest)[1..] == rest;
  }

  lemma MoreMembers(fr: FloatText -> FloatText, s: string, key: string, text: string, value: Json,
                    tail: string, fields: map<string, Json>, rest: string)
    requires s != "" && s[0] == '"' && ParseText(s[1..]) == Good(key, ":" + text)
    requires text != "" && !IsSpace(text[0]) && ParseValue(fr, text) == Good(value, "," + tail)
    requires tail != "" && !IsSpace(tail[0]) && ParseMembers(fr, tail) == Good(fields, rest)
    ensures ParseMembers(fr, s) == Good(map[key := value] + fields, rest)
  {
    hide ParseValue, ParseText;
    assert (":" + text)[1..] == text;
    assert ("," + tail)[1..] == tail;
  }

  lemma ArrayCase(fr: FloatText -> FloatText, ascii: bool, items: seq<Json>, rest: string)
    requires items != [] && ParseItems(fr, DumpItems(ascii, items) + "]" + rest) == Good(items, rest)
    ensures ParseValue(fr, Dumps(ascii, JArray(items)) + rest) == Good(JArray(items), rest)
  {
    hide ParseValue, ParseItems, ParseMembers;
    var body := DumpItems(ascii, items) + "]" + rest;
    DumpItemsStart(ascii, items);
    ArrayStep(fr, body, items, rest);
    assert Dumps(ascii, JArray(items)) + rest == "[" + body;
  }

  lemma ObjectLayout(ascii: bool, j: Json)
    requires j.JObject? && SortedKeys(j.fields.Keys) != []
    ensures Dumps(ascii, j) == "{" + DumpMembers(ascii, j, SortedKeys(j.fields.Keys)) + "}"
  {
    hide DumpMembers, SortedKeys;
  }

  lemma ObjectCase(fr: FloatText -> FloatText, ascii: bool, j: Json, rest: string)
    requires j.JObject? && SortedKeys(j.fields.Keys) != []
    requires ParseMembers(fr, DumpMembers(ascii, j, SortedKeys(j.fields.Keys)) + "}" + rest)
          == Good(Restrict(j.fields, SortedKeys(j.fields.Keys)), rest)
    ensures ParseValue(fr, Dumps(ascii, j) + rest) == Good(j, rest)
  {
    hide ParseValue, ParseItems, ParseMembers, Dumps, DumpMembers, Restrict, SortedKeys;
    var keys := SortedKeys(j.fields.Keys);
    RestrictAll(j.fields);
    DumpMembersStart(ascii, j, keys);
    var members := DumpMembers(ascii, j, keys);
    ObjectLayout(ascii, j);
    assert (members + "}" + rest)[0] == members[0];
    ObjectStep(fr, members + "}" + rest, j.fields, rest);
    assert Dumps(ascii, j) + rest == "{" + (members + "}" + rest);
  }

  lemma {:induction false} ParseDumps(fr: FloatText -> FloatText, ascii: bool, j: Json, rest: string)
    requires FloatsExact(fr, j) && Ends(rest)
    ensures ParseValue(fr, Dumps(ascii, j) + rest) == Good(j, rest)
    decreases j, 1
  {
    match j
    case JNull => ParseLiteral(fr, ascii, j, rest);
    case JBool(_) => ParseLiteral(fr, ascii, j, rest);
    case JInt(n) => ParseIntText(fr, n, rest);
    case JFloat(t) => ParseFloatText(fr, t, rest);
    case JString(t) => ParseQuoted(ascii, t, rest);
    case JArray(items) =>
      hide ParseValue, ParseItems, Dumps, DumpItems;
      if items == [] {
        ParseLiteral(fr, ascii, j, rest);
      } else {
        ParseDumpItems(fr, ascii, items, rest);
        ArrayCase(fr, ascii, items, rest);
      }
    case JObject(fields) =>
      hide ParseValue, ParseMembers, Dumps, DumpMembers;
      var keys := SortedKeys(fields.Keys);
      if keys == [] {
        ParseLiteral(fr, ascii, j, rest);
      } else {
        ParseDumpMembers(fr, ascii, j, keys, rest);
        ObjectCase(fr, ascii, j, rest);
      }
  }

  lemma ParseLiteral(fr: FloatText -> FloatText, ascii: bool, j: Json, rest: string)
    requires j.JNull? || j.JBool? || j == JArray([]) || (j.JObject? && |j.fields.Keys| == 0)
    ensures ParseValue(fr, Dumps(ascii, j) + rest) == Good(j, rest)
  {
    hide ParseItems, ParseMembers, ParseText, ParseNumber;
    var s := Dumps(ascii, j) + rest;
    assert s[|Dumps(ascii, j)|..] == rest;
    if j.JArray? {
      assert s[1..] == "]" + rest;
      assert ("]" + rest)[1..] == rest;
    }
    if j.JObject? {
      NoKeys(j.fields);
      assert s[1..] == "}" + rest;
      assert ("}" + rest)[1..] == rest;
    }
  }

  lemma DumpMembersStart(ascii: bool, obj: Json, keys: seq<string>)
    requires obj.JObject? && keys != [] && forall k :: k in keys ==> k in obj.fields
    ensures DumpMembers(ascii, obj, keys) != "" && DumpMembers(ascii, obj, keys)[0] == '"'
  {
    assert Quoted(ascii, keys[0])[0] == '"';
  }

  lemma RestrictAll(fields: map<string, Json>)
    ensures Restrict(fields, SortedKeys(fields.Keys)) == fields
  {}

  lemma NoKeys<V>(m: map<string, V>)
    requires |m.Keys| == 0
    ensures m == map[]
  {}

  function Restrict<V>(m: map<string, V>, keys: seq<string>): map<string, V>
  {
    map k | k in m && k in keys :: m[k]
  }

  lemma {:induction false} ParseDumpItems(fr: FloatText -> FloatText, ascii: bool, items: seq<Json>, rest: string)
    requires items != [] && forall x :: x in items ==> FloatsExact(fr, x)
    ensures ParseItems(fr, DumpItems(ascii, items) + "]" + rest) == Good(items, rest)
    decreases items, 0
  {
    hide ParseValue, ParseItems, ParseMembers;
    var s := DumpItems(ascii, items) + "]" + rest;
    var first := Dumps(ascii, items[0]);
    if |items| == 1 {
      assert s == first + ("]" + rest);
      ParseDumps(fr, ascii, items[0], "]" + rest);
      LastItem(fr, s, items[0], rest);
      assert items == [items[0]];
    } else {
      var tail := DumpItems(ascii, items[1..]) + "]" + rest;
      assert s == first + ("," + tail);
      ParseDumps(fr, ascii, items[0], "," + tail);
      DumpItemsStart(ascii, items[1..]);
      ParseDumpItems(fr, ascii, items[1..], rest);
      MoreItems(fr, s, items[0], tail, items[1..], rest);
      assert items == [items[0]] + items[1..];
    }
  }

  /** The text that follows the first member's value. */
  function AfterMember(ascii: bool, obj: Json, keys: seq<string>, rest: string): (s: string)
    requires obj.JObject? && keys != [] && forall k :: k in keys ==> k in obj.fields
    ensures Ends(s)
  {
    if |keys| == 1 then "}" + rest else "," + (DumpMembers(ascii, obj, keys[1..]) + "}" + rest)
  }

  lemma Regroup(key: string, value: string, more: string, rest: string)
    ensures key + ":" + value + "," + more + "}" + rest == key + (":" + (value + ("," + (more + "}" + rest))))
    ensures key + ":" + value + "}" + rest == key + (":" + (value + ("}" + rest)))
  {}

  lemma MembersUnfold(ascii: bool, obj: Json, keys: seq<string>)
    requires obj.JObject? && keys != [] && forall k :: k in keys ==> k in obj.fields
    ensures DumpMembers(ascii, obj, keys)
         == Quoted(ascii, keys[0]) + ":" + Dumps(ascii, obj.fields[keys[0]])
            + (if |keys| == 1 then "" else "," + DumpMembers(ascii, obj, keys[1..]))
  {
    hide Dumps, Quoted;
  }

  lemma MembersLayout(ascii: bool, obj: Json, keys: seq<string>, rest: string)
    requires obj.JObject? && keys != [] && forall k :: k in keys ==> k in obj.fields
    ensures DumpMembers(ascii, obj, keys) + "}" + rest
         == Quoted(ascii, keys[0]) + (":" + (Dumps(ascii, obj.fields[keys[0]]) + AfterMember(ascii, obj, keys, rest)))
  {
    hide Dumps, Quoted, DumpMembers;
    MembersUnfold(ascii, obj, keys);
    var key, value := Quoted(ascii, keys[0]), Dumps(ascii, obj.fields[keys[0]]);
    if |keys| == 1 {
      assert DumpMembers(ascii, obj, keys) == key + ":" + value;
      Regroup(key, value, "", rest);
    } else {
      var more := DumpMembers(ascii, obj, keys[1..]);
      assert DumpMembers(ascii, obj, keys) == key + ":" + value + "," + more;
      Regroup(key, value, more, rest);
    }
  }

  lemma {:induction false} ParseDumpMembers(
      fr: FloatText -> FloatText, ascii: bool, obj: Json, keys: seq<string>, rest: string)
    requires obj.JObject? && keys != [] && forall k :: k in keys ==> k in obj.fields
    requires FloatsExact(fr, obj)
    ensures ParseMembers(fr, DumpMembers(ascii, obj, keys) + "}" + rest) == Good(Restrict(obj.fields, keys), rest)
    decreases obj, 0, |keys|
  {
    hide ParseValue, ParseMembers, ParseText, Dumps, DumpMembers, Quoted, Restrict;
    var s := DumpMembers(ascii, obj, keys) + "}" + rest;
    var key, value := keys[0], obj.fields[keys[0]];
    var after := AfterMember(ascii, obj, keys, rest);
    var text := Dumps(ascii, value) + after;
    DumpsStart(ascii, value);
    MembersLayout(ascii, obj, keys, rest);
    ParseQuoted(ascii, key, ":" + text);
    ParseDumps(fr, ascii, value, after);
    if |keys| == 1 {
      LastMember(fr, s, key, text, value, rest);
      RestrictOne(obj.fields, keys);
    } else {
      var tail := DumpMembers(ascii, obj, keys[1..]) + "}" + rest;
      DumpMembersStart(ascii, obj, keys[1..]);
      ParseDumpMembers(fr, ascii, obj, keys[1..], rest);
      MoreMembers(fr, s, key, text, value, tail, Restrict(obj.fields, keys[1..]), rest);
      RestrictCons(obj.fields, keys);
    }
  }

  lemma RestrictOne<V>(m: map<string, V>, keys: seq<string>)
    requires |keys| == 1 && keys[0] in m
    ensures Restrict(m, keys) == map[keys[0] := m[keys[0]]]
  {
    assert keys == [keys[0]];
  }

  lemma RestrictCons<V>(m: map<string, V>, keys: seq<string>)
    requires keys != [] && keys[0] in m
    ensures Restrict(m, keys) == map[keys[0] := m[keys[0]]] + Restrict(m, keys[1..])
  {
    forall k ensures k in keys <==> k == keys[0] || k in keys[1..] {
      assert keys == [keys[0]] + keys[1..];
    }
  }

  /** `json.loads(json.dumps(j)) == j`. */
  lemma LoadsDumps(fr: FloatText -> FloatText, ascii: bool, j: Json)
    requires FloatsExact(fr, j)
    ensures Loads(fr, Dumps(ascii, j)) == Some(j)
  {
    ParseDumps(fr, ascii, j, "");
    DumpsStart(ascii, j);
    assert Dumps(ascii, j) + "" == Dumps(ascii, j);
  }

  lemma {:induction false} IdentityExact(j: Json)
    ensures FloatsExact((t: FloatText) => t, j)
    decreases j
  {
    match j
    case JArray(items) =>
      forall x | x in items ensures FloatsExact((t: FloatText) => t, x) { IdentityExact(x); }
    case JObject(fields) =>
      forall k | k in fields ensures FloatsExact((t: FloatText) => t, fields[k]) { IdentityExact(fields[k]); }
    case _ =>
  }

  /** The text determines the value, up to the order in which keys were inserted. */
  lemma DumpsInjective(ascii: bool, a: Json, b: Json)
    requires Dumps(ascii, a) == Dumps(ascii, b)
    ensures a == b
  {
    IdentityExact(a);
    IdentityExact(b);
    var same := (t: FloatText) => t;
    assert FloatsExact(same, a) && FloatsExact(same, b);
    LoadsDumps(same, ascii, a);
    LoadsDumps(same, ascii, b);
  }

  // ---------- no control character is ever written ----------

  predicate Printable(s: string) { forall i :: 0 <= i < |s| ==> !IsControl(s[i]) }

  lemma IntTextPrintable(n: int)
    ensures Printable(IntText(n))
  {
    hide NatText;
  }

  lemma EscapeCharPrintable(ascii: bool, c: char)
    ensures Printable(EscapeChar(ascii, c))
  {}

  lemma {:induction false} EscapePrintable(ascii: bool, t: string)
    ensures Printable(EscapeText(ascii, t))
  {
    hide EscapeChar;
    if t != "" {
      EscapeCharPrintable(ascii, t[0]);
      EscapePrintable(ascii, t[1..]);
    }
  }

  lemma FloatPrintable(t: FloatText)
    ensures Printable(t)
  {
    var sign := if t[0] == '-' then 1 else 0;
    var i := IntEnd(t).value;
    DigitRunDigits(t, sign);
    var f := FractionEnd(t, i);
    if f > i { DigitRunDigits(t, i + 1); }
    if |t| > f {
      DigitRunDigits(t, f + 1);
      if f + 1 < |t| { DigitRunDigits(t, f + 2); }
    }
  }

  /** Every control character, U+001F among them, is escaped. */
  lemma {:induction false} DumpsPrintable(ascii: bool, j: Json)
    ensures Printable(Dumps(ascii, j))
    decreases j, 1
  {
    match j
    case JInt(n) => IntTextPrintable(n);
    case JFloat(t) => FloatPrintable(t);
    case JString(t) => EscapePrintable(ascii, t);
    case JArray(items) =>
      hide Dumps;
      if items != [] { ItemsPrintable(ascii, items); }
      ArrayPrintable(ascii, items);
    case JObject(fields) =>
      hide Dumps;
      if SortedKeys(fields.Keys) != [] { MembersPrintable(ascii, j, SortedKeys(fields.Keys)); }
      ObjectPrintable(ascii, j);
    case _ =>
  }

  lemma ArrayPrintable(ascii: bool, items: seq<Json>)
    requires items != [] ==> Printable(DumpItems(ascii, items))
    ensures Printable(Dumps(ascii, JArray(items)))
  {
    hide DumpItems;
  }

  lemma ObjectPrintable(ascii: bool, j: Json)
    requires j.JObject?
    requires SortedKeys(j.fields.Keys) != [] ==> Printable(DumpMembers(ascii, j, SortedKeys(j.fields.Keys)))
    ensures Printable(Dumps(ascii, j))
  {
    hide DumpMembers, SortedKeys;
    if SortedKeys(j.fields.Keys) != [] { ObjectLayout(ascii, j); }
  }

  lemma {:induction false} ItemsPrintable(ascii: bool, items: seq<Json>)
    requires items != []
    ensures Printable(DumpItems(ascii, items))
    decreases items, 0
  {
    hide Dumps;
    DumpsPrintable(ascii, items[0]);
    if |items| > 1 { ItemsPrintable(ascii, items[1..]); }
  }

  lemma {:induction false} MembersPrintable(ascii: bool, obj: Json, keys: seq<string>)
    requires obj.JObject? && keys != [] && forall k :: k in keys ==> k in obj.fields
    ensures Printable(DumpMembers(ascii, obj, keys))
    decreases obj, 0, |keys|
  {
    hide Dumps, EscapeText;
    EscapePrintable(ascii, keys[0]);
    DumpsPrintable(ascii, obj.fields[keys[0]]);
    if |keys| > 1 { MembersPrintable(ascii, obj, keys[1..]); }
  }

  /** Examples of the text format: escapes, non-ASCII text kept, and lists without spaces. */
  lemma KnownString()
    ensures Quoted(false, "\U{E9}\n") == "\"\U{E9}\\n\"" && Quoted(false, "a") == "\"a\"" && Quoted(false, "b") == "\"b\""
  {
    var s := "\U{E9}\n";
    assert s[1..] == "\n" && "\n"[1..] == "";
    assert EscapeText(false, "\n") == "\\n";
  }

  lemma KnownItems()
    ensures Dumps(false, JArray([JNull, JBool(true), JInt(-7)])) == "[null,true,-7]"
  {
    var items := [JNull, JBool(true), JInt(-7)];
    assert items[1..] == [JBool(true), JInt(-7)] && items[1..][1..] == [JInt(-7)];
    assert NatText(7) == "7";
    assert DumpItems(false, [JInt(-7)]) == "-7";
    assert DumpItems(false, [JBool(true), JInt(-7)]) == "true,-7";
  }
}
