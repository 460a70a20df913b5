/** JSON text as Python's `json` writes it (compact, sorted keys) and reads it; an object is a map. */
module Json {
  import opened Prelude
  import opened Numerals
  import opened Ordering

  /** The text of a finite float, as `repr` gives it. */
  type FloatText = t: string | IsFloatText(t) witness "0.0"

  datatype Json =
    | JNull
    | JBool(flag: bool)
    | JInt(number: int)
    | JFloat(repr: FloatText)
    | JString(text: string)
    | JArray(items: seq<Json>)
    | JObject(fields: map<string, Json>)

  // ---------- numbers ----------

  function DigitRun(s: string, i: nat): (n: nat)
    requires i <= |s|
    ensures i + n <= |s|
    decreases |s| - i
  {
    if i < |s| && IsDigit(s[i]) then 1 + DigitRun(s, i + 1) else 0
  }

  /** Where the integer part of a number ends; None when no number starts here. */
  function IntEnd(s: string): (r: Option<nat>)
    ensures r.Some? ==> 0 < r.value <= |s|
  {
    var i := if s != "" && s[0] == '-' then 1 else 0;
    if i < |s| && s[i] == '0' then Some(i + 1)
    else if i < |s| && IsDigit(s[i]) then Some(i + DigitRun(s, i))
    else None
  }

  function FractionEnd(s: string, i: nat): (r: nat)
    requires i <= |s|
    ensures i <= r <= |s|
  {
    if i < |s| && s[i] == '.' && DigitRun(s, i + 1) > 0 then i + 1 + DigitRun(s, i + 1) else i
  }

  function ExponentEnd(s: string, i: nat): (r: nat)
    requires i <= |s|
    ensures i <= r <= |s|
  {
    if i < |s| && (s[i] == 'e' || s[i] == 'E') then
      var j := if i + 1 < |s| && (s[i + 1] == '+' || s[i + 1] == '-') then i + 2 else i + 1;
      if DigitRun(s, j) > 0 then j + DigitRun(s, j) else i
    else i
  }

  predicate IsFloatText(t: string)
  {
    var i := IntEnd(t);
    i.Some? && i.value < |t| && ExponentEnd(t, FractionEnd(t, i.value)) == |t|
  }

  predicate IsIntText(t: string)
  {
    IntEnd(t) == Some(|t|)
  }

  lemma {:induction false} DigitRunDigits(s: string, i: nat)
    requires i <= |s|
    ensures forall k :: i <= k < i + DigitRun(s, i) ==> IsDigit(s[k])
    ensures i + DigitRun(s, i) < |s| ==> !IsDigit(s[i + DigitRun(s, i)])
    decreases |s| - i
  {
    if i < |s| && IsDigit(s[i]) { DigitRunDigits(s, i + 1); }
  }

  function IntValue(t: string): int
    requires IsIntText(t)
  {
    DigitRunDigits(t, 0);
    DigitRunDigits(t, if t[0] == '-' then 1 else 0);
    var digits := if t[0] == '-' then t[1..] else t;
    var magnitude: int := NatValue(digits);
    if t[0] == '-' then -magnitude else magnitude
  }

  lemma {:induction false} DigitRunAll(s: string, i: nat)
    requires i <= |s| && forall k :: i <= k < |s| ==> IsDigit(s[k])
    ensures DigitRun(s, i) == |s| - i
    decreases |s| - i
  {
    if i < |s| { DigitRunAll(s, i + 1); }
  }

  lemma IntTextValue(n: int)
    ensures IsIntText(IntText(n)) && IntValue(IntText(n)) == n
  {
    var t := IntText(n);
    if n < 0 {
      NatTextValue(-n);
      assert t[1..] == NatText(-n);
      assert t[1] == NatText(-n)[0];
      forall k | 1 <= k < |t| ensures IsDigit(t[k]) { assert t[k] == NatText(-n)[k - 1]; }
      DigitRunAll(t, 1);
    } else {
      NatTextValue(n);
      DigitRunAll(t, 0);
    }
  }

  // A number cut out of a longer text reads the same as inside it.

  lemma {:induction false} DigitRunPrefix(s: string, e: nat, i: nat)
    requires i <= e <= |s| && i + DigitRun(s, i) <= e
    ensures DigitRun(s[..e], i) == DigitRun(s, i)
    decreases e - i
  {
    if i < e && IsDigit(s[i]) { DigitRunPrefix(s, e, i + 1); }
  }

  lemma IntEndPrefix(s: string, e: nat)
    requires e <= |s| && IntEnd(s).Some? && IntEnd(s).value <= e
    ensures IntEnd(s[..e]) == IntEnd(s)
  {
    var sign := if s[0] == '-' then 1 else 0;
    if s[sign] != '0' { DigitRunPrefix(s, e, sign); }
  }

  lemma FractionPrefix(s: string, e: nat, i: nat)
    requires i <= e <= |s| && FractionEnd(s, i) <= e
    ensures FractionEnd(s[..e], i) == FractionEnd(s, i)
  {
    if i < e && s[i] == '.' { DigitRunPrefix(s, e, i + 1); }
  }

  lemma ExponentPrefix(s: string, e: nat, i: nat)
    requires i <= e <= |s| && ExponentEnd(s, i) <= e
    ensures ExponentEnd(s[..e], i) == ExponentEnd(s, i)
  {
    if i < e && (s[i] == 'e' || s[i] == 'E') {
      if i + 1 < e {
        var j := if s[i + 1] == '+' || s[i + 1] == '-' then i + 2 else i + 1;
        assert s[..e][i + 1] == s[i + 1];
        DigitRunPrefix(s, e, j);
      }
    }
  }

  // ---------- writing ----------

  predicate IsControl(c: char) { c < ' ' }

  /** `\uXXXX`. */
  function UnicodeEscape(n: nat): (s: string)
    requires n < 0x1_0000
    ensures |s| == 6
  {
    "\\u" + Hex4(n)
  }

  function Hex4(n: nat): (s: string)
    requires n < 0x1_0000
    ensures |s| == 4
  {
    [HexChar(n / 16 / 16 / 16), HexChar(n / 16 / 16 % 16), HexChar(n / 16 % 16), HexChar(n % 16)]
  }

  /** One character of a string literal; `ascii` is `ensure_ascii`. */
  function EscapeChar(ascii: bool, c: char): (s: string)
    ensures s != "" && s[0] != '"'
  {
    if c == '"' then "\\\""
    else if c == '\\' then "\\\\"
    else if c == '\n' then "\\n"
    else if c == '\r' then "\\r"
    else if c == '\t' then "\\t"
    else if c == '\U{8}' then "\\b"
    else if c == '\U{C}' then "\\f"
    else if IsControl(c) then UnicodeEscape(c as int)
    else if !ascii || c <= '~' then [c]
    else if c as int < 0x1_0000 then UnicodeEscape(c as int)
    else
      var n := c as int - 0x1_0000;
      UnicodeEscape(0xD800 + n / 0x400) + UnicodeEscape(0xDC00 + n % 0x400)
  }

  function EscapeText(ascii: bool, s: string): string
  {
    if s == "" then "" else EscapeChar(ascii, s[0]) + EscapeText(ascii, s[1..])
  }

  function Quoted(ascii: bool, s: string): string
  {
    "\"" + EscapeText(ascii, s) + "\""
  }

  /** `json.dumps(j, sort_keys=True, separators=(",", ":"))`. */
  function Dumps(ascii: bool, j: Json): (s: string)
    ensures s != ""
    decreases j, 1
  {
    match j
    case JNull => "null"
    case JBool(flag) => if flag then "true" else "false"
    case JInt(n) => IntText(n)
    case JFloat(t) => t
    case JString(s) => Quoted(ascii, s)
    case JArray(items) => "[" + (if items == [] then "" else DumpItems(ascii, items)) + "]"
    case JObject(fields) =>
      var keys := SortedKeys(fields.Keys);
      "{" + (if keys == [] then "" else DumpMembers(ascii, j, keys)) + "}"
  }

  function DumpItems(ascii: bool, items: seq<Json>): (s: string)
    requires items != []
    ensures s != ""
    decreases items, 0
  {
    if |items| == 1 then Dumps(ascii, items[0])
    else Dumps(ascii, items[0]) + "," + DumpItems(ascii, items[1..])
  }

  function DumpMembers(ascii: bool, obj: Json, keys: seq<string>): (s: string)
    requires obj.JObject? && keys != [] && forall k :: k in keys ==> k in obj.fields
    decreases obj, 0, |keys|
  {
    var first := Quoted(ascii, keys[0]) + ":" + Dumps(ascii, obj.fields[keys[0]]);
    if |keys| == 1 then first else first + "," + DumpMembers(ascii, obj, keys[1..])
  }

  // ---------- reading ----------

  datatype Parsed<+T> = Bad | Good(value: T, rest: string)

  predicate IsSpace(c: char) { c == ' ' || c == '\t' || c == '\n' || c == '\r' }

  function SkipSpace(s: string): (r: string)
    ensures |r| <= |s|
  {
    if s != "" && IsSpace(s[0]) then SkipSpace(s[1..]) else s
  }

  /** Four hexadecimal digits after a `\u`. */
  function ParseHex4(s: string): (r: Parsed<nat>)
    ensures r.Good? ==> |r.rest| == |s| - 4 && r.value < 0x1_0000
  {
    if |s| < 4 || !IsHex(s[0]) || !IsHex(s[1]) || !IsHex(s[2]) || !IsHex(s[3]) then Bad
    else Good(((HexValue(s[0]) * 16 + HexValue(s[1])) * 16 + HexValue(s[2])) * 16 + HexValue(s[3]), s[4..])
  }

  /** The character a `\u` escape spells; the two halves of a surrogate pair are read together. */
  function ParseUnicodeEscape(s: string): (r: Parsed<char>)
    ensures r.Good? ==> |r.rest| < |s|
  {
    match ParseHex4(s)
    case Bad => Bad
    case Good(high, rest) =>
      if high < 0xD800 || 0xE000 <= high then Good(high as char, rest)
      else if high < 0xDC00 && |rest| >= 2 && rest[0] == '\\' && rest[1] == 'u' then
        match ParseHex4(rest[2..])
        case Bad => Bad
        case Good(low, after) =>
          if 0xDC00 <= low < 0xE000
          then Good((0x1_0000 + (high - 0xD800) * 0x400 + (low - 0xDC00)) as char, after)
          else Bad
      else Bad
  }

  /** One possibly escaped character of a string literal. */
  function ParseChar(s: string): (r: Parsed<char>)
    ensures r.Good? ==> |r.rest| < |s|
  {
    if s == "" || s[0] == '"' || IsControl(s[0]) then Bad
    else if s[0] != '\\' then Good(s[0], s[1..])
    else if |s| < 2 then Bad
    else if s[1] == '"' || s[1] == '\\' || s[1] == '/' then Good(s[1], s[2..])
    else if s[1] == 'b' then Good('\U{8}', s[2..])
    else if s[1] == 'f' then Good('\U{C}', s[2..])
    else if s[1] == 'n' then Good('\n', s[2..])
    else if s[1] == 'r' then Good('\r', s[2..])
    else if s[1] == 't' then Good('\t', s[2..])
    else if s[1] == 'u' then ParseUnicodeEscape(s[2..])
    else Bad
  }

  /** The rest of a string literal, after its opening quote. */
  function ParseText(s: string): (r: Parsed<string>)
    ensures r.Good? ==> |r.rest| < |s|
  {
    if s != "" && s[0] == '"' then Good("", s[1..]) else
    match ParseChar(s)
    case Bad => Bad
    case Good(c, rest) =>
      match ParseText(rest)
      case Bad => Bad
      case Good(tail, after) => Good([c] + tail, after)
  }

  function ParseNumber(fr: FloatText -> FloatText, s: string): (r: Parsed<Json>)
    ensures r.Good? ==> |r.rest| < |s|
  {
    match IntEnd(s)
    case None => Bad
    case Some(i) =>
      var e := ExponentEnd(s, FractionEnd(s, i));
      IntEndPrefix(s, i);
      IntEndPrefix(s, e);
      FractionPrefix(s, e, i);
      ExponentPrefix(s, e, FractionEnd(s, i));
      if e == i then Good(JInt(IntValue(s[..i])), s[i..]) else Good(JFloat(fr(s[..e])), s[e..])
  }

  function ParseValue(fr: FloatText -> FloatText, s: string): (r: Parsed<Json>)
    ensures r.Good? ==> |r.rest| < |s|
    decreases |s|, 1
  {
    if s == "" then Bad
    else if s[0] == '"' then
      match ParseText(s[1..])
      case Bad => Bad
      case Good(t, rest) => Good(JString(t), rest)
    else if s[0] == '[' then
      var body := SkipSpace(s[1..]);
      if body != "" && body[0] == ']' then Good(JArray([]), body[1..]) else
      match ParseItems(fr, body)
      case Bad => Bad
      case Good(items, rest) => Good(JArray(items), rest)
    else if s[0] == '{' then
      var body := SkipSpace(s[1..]);
      if body != "" && body[0] == '}' then Good(JObject(map[]), body[1..]) else
      match ParseMembers(fr, body)
      case Bad => Bad
      case Good(fields, rest) => Good(JObject(fields), rest)
    else if "null" <= s then Good(JNull, s[4..])
    else if "true" <= s then Good(JBool(true), s[4..])
    else if "false" <= s then Good(JBool(false), s[5..])
    else ParseNumber(fr, s)
  }

  function ParseItems(fr: FloatText -> FloatText, s: string): (r: Parsed<seq<Json>>)
    ensures r.Good? ==> |r.rest| < |s|
    decreases |s|, 2
  {
    match ParseValue(fr, s)
    case Bad => Bad
    case Good(first, afterFirst) =>
      var rest := SkipSpace(afterFirst);
      if rest == "" then Bad
      else if rest[0] == ']' then Good([first], rest[1..])
      else if rest[0] == ',' then
        match ParseItems(fr, SkipSpace(rest[1..]))
        case Bad => Bad
        case Good(items, after) => Good([first] + items, after)
      else Bad
  }

  /** Members of an object; when a key is repeated the last one wins. */
  function ParseMembers(fr: FloatText -> FloatText, s: string): (r: Parsed<map<string, Json>>)
    ensures r.Good? ==> |r.rest| < |s|
    decreases |s|, 2
  {
    if s == "" || s[0] != '"' then Bad else
    match ParseText(s[1..])
    case Bad => Bad
    case Good(key, afterKey) =>
      var colon := SkipSpace(afterKey);
      if colon == "" || colon[0] != ':' then Bad else
      match ParseValue(fr, SkipSpace(colon[1..]))
      case Bad => Bad
      case Good(value, afterValue) =>
        var rest := SkipSpace(afterValue);
        if rest == "" then Bad
        else if rest[0] == '}' then Good(map[key := value], rest[1..])
        else if rest[0] == ',' then
          match ParseMembers(fr, SkipSpace(rest[1..]))
          case Bad => Bad
          case Good(fields, after) => Good(map[key := value] + fields, after)
        else Bad
  }

  /** `json.loads(s)`; `fr` is the text `repr` gives to the float a numeral denotes. */
  function Loads(fr: FloatText -> FloatText, s: string): Option<Json>
  {
    match ParseValue(fr, SkipSpace(s))
    case Bad => None
    case Good(j, rest) => if SkipSpace(rest) == "" then Some(j) else None
  }
}
