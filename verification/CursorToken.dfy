/** The signed cursor token of list pages (api/pagination.py). */
module CursorToken {
  import opened Prelude
  import opened Numerals
  import opened Ordering
  import opened Json
  import opened JsonRoundTrip
  import opened Runtime
  import Base64Url
  import Utf8

  const CURSOR_VERSION := 1
  const CURSOR_MAX_LENGTH := 512
  const PRIMARY_MAX_LENGTH := 64

  const FILTERS_KEY := "filters_digest"
  const ID_KEY := "id"
  const PRIMARY_KEY := "primary"
  const VERSION_KEY := "v"

  /** The secret's keyed digest and the way floats are spelled. */
  datatype Signer = Signer(hmac: Bytes -> Bytes, repr: FloatText -> FloatText)
  {
    ghost predicate Lawful() { forall b :: |hmac(b)| == 32 }
  }

  datatype Cursor = Cursor(primary: string, id: Uuid, filtersDigest: string)
  {
    /** The constructor's own checks. */
    predicate Valid()
    {
      1 <= |primary| <= PRIMARY_MAX_LENGTH && IsDigest(filtersDigest)
    }
  }

  datatype CursorError = Malformed | NotAuthentic | MalformedPayload | UnsupportedVersion | MalformedFields

  function Payload(c: Cursor): Json
  {
    JObject(map[
      VERSION_KEY := JInt(CURSOR_VERSION),
      PRIMARY_KEY := JString(c.primary),
      ID_KEY := JString(UuidText(c.id)),
      FILTERS_KEY := JString(c.filtersDigest)])
  }

  function Body(c: Cursor): string
  {
    Base64Url.Encode(Utf8.Encode(Dumps(true, Payload(c))))
  }

  function Encode(signer: Signer, c: Cursor): string
  {
    Body(c) + "." + Base64Url.Encode(signer.hmac(Utf8.Encode(Body(c))))
  }

  /** `token.split(".")` when it has exactly two parts. */
  function SplitInTwo(token: string): Option<(string, string)>
  {
    if exists i :: 0 <= i < |token| && token[i] == '.' && (forall k :: 0 <= k < |token| && k != i ==> token[k] != '.')
    then
      var i := FirstDot(token);
      Some((token[..i], token[i + 1..]))
    else None
  }

  function FirstDot(token: string): (i: nat)
    requires exists k :: 0 <= k < |token| && token[k] == '.'
    ensures i < |token| && token[i] == '.'
  {
    if token[0] == '.' then 0 else
    assert exists k :: 0 <= k < |token[1..]| && token[1..][k] == '.' by {
      var k :| 0 <= k < |token| && token[k] == '.';
      assert token[1..][k - 1] == '.';
    }
    1 + FirstDot(token[1..])
  }

  /** Python's `payload["v"] == 1`: the integer, the float and `true` all compare equal to one. */
  predicate IsVersionOne(j: Json)
  {
    j == JInt(CURSOR_VERSION) || j == JBool(true) || (j.JFloat? && j.repr == "1.0")
  }

  function FromPayload(rt: Runtime, j: Json): Result<Cursor, CursorError>
  {
    if !j.JObject? || j.fields.Keys != {VERSION_KEY, PRIMARY_KEY, ID_KEY, FILTERS_KEY} then Err(MalformedPayload)
    else if !IsVersionOne(j.fields[VERSION_KEY]) then Err(UnsupportedVersion)
    else if !j.fields[ID_KEY].JString? || !j.fields[PRIMARY_KEY].JString? || !j.fields[FILTERS_KEY].JString? then Err(MalformedFields)
    else match rt.parseUuid(j.fields[ID_KEY].text)
      case None => Err(MalformedFields)
      case Some(id) =>
        var c := Cursor(j.fields[PRIMARY_KEY].text, id, j.fields[FILTERS_KEY].text);
        if c.Valid() then Ok(c) else Err(MalformedFields)
  }

  function Decode(rt: Runtime, signer: Signer, token: string): Result<Cursor, CursorError>
  {
    if !(1 <= |token| <= CURSOR_MAX_LENGTH) then Err(Malformed) else
    match SplitInTwo(token)
    case None => Err(Malformed)
    case Some((encodedBody, encodedSignature)) =>
      match (Base64Url.Decode(encodedBody), Base64Url.Decode(encodedSignature))
      case (Some(body), Some(signature)) =>
        if signature != signer.hmac(Utf8.Encode(encodedBody)) then Err(NotAuthentic) else
        (match Utf8.Decode(body)
         case None => Err(MalformedPayload)
         case Some(text) =>
           match Loads(signer.repr, text)
           case None => Err(MalformedPayload)
           case Some(j) => FromPayload(rt, j))
      case _ => Err(Malformed)
  }

  // ---------- the size of a token ----------

  lemma {:induction false} EscapedAscii(t: string)
    ensures Utf8.IsAscii(EscapeText(true, t))
  {
    if t != "" {
      EscapedCharAscii(t[0]);
      hide EscapeChar;
      EscapedAscii(t[1..]);
    }
  }

  lemma EscapedCharAscii(c: char)
    ensures Utf8.IsAscii(EscapeChar(true, c))
  {}

  /** Text that needs no escape at all. */
  predicate IsPlain(t: string)
  {
    forall i :: 0 <= i < |t| ==> ' ' <= t[i] <= '~' && t[i] != '"' && t[i] != '\\'
  }

  lemma {:induction false} PlainUnescaped(t: string)
    requires IsPlain(t)
    ensures EscapeText(true, t) == t
  {
    if t != "" {
      PlainUnescaped(t[1..]);
      assert t == [t[0]] + t[1..];
    }
  }

  lemma KeyOrder()
    ensures Ascending(TextLess, [FILTERS_KEY, ID_KEY, PRIMARY_KEY, VERSION_KEY])
  {
    assert TextLess(FILTERS_KEY, ID_KEY) && TextLess(FILTERS_KEY, PRIMARY_KEY) && TextLess(FILTERS_KEY, VERSION_KEY);
    assert TextLess(ID_KEY, PRIMARY_KEY) && TextLess(ID_KEY, VERSION_KEY) && TextLess(PRIMARY_KEY, VERSION_KEY);
  }

  lemma PayloadKeys(c: Cursor)
    ensures Payload(c).fields.Keys == {VERSION_KEY, PRIMARY_KEY, ID_KEY, FILTERS_KEY}
    ensures SortedKeys(Payload(c).fields.Keys) == [FILTERS_KEY, ID_KEY, PRIMARY_KEY, VERSION_KEY]
  {
    hide FILTERS_KEY, ID_KEY, PRIMARY_KEY, VERSION_KEY, TextLess, SortedKeys, UuidText;
    KeyOrder();
    TextOrder();
    AscendingUnique(
      TextLess, SortedKeys(Payload(c).fields.Keys), [FILTERS_KEY, ID_KEY, PRIMARY_KEY, VERSION_KEY]);
  }

  lemma KeyFacts()
    ensures |FILTERS_KEY| == 14 && |ID_KEY| == 2 && |PRIMARY_KEY| == 7 && |VERSION_KEY| == 1
    ensures IsPlain(FILTERS_KEY) && IsPlain(ID_KEY) && IsPlain(PRIMARY_KEY) && IsPlain(VERSION_KEY)
  {}

  lemma PayloadFields(c: Cursor)
    ensures var p := Payload(c);
            p.JObject? && p.fields.Keys == {VERSION_KEY, PRIMARY_KEY, ID_KEY, FILTERS_KEY}
            && p.fields[VERSION_KEY] == JInt(CURSOR_VERSION) && p.fields[PRIMARY_KEY] == JString(c.primary)
            && p.fields[ID_KEY] == JString(UuidText(c.id)) && p.fields[FILTERS_KEY] == JString(c.filtersDigest)
  {
    hide UuidText;
    KeyFacts();
    hide FILTERS_KEY, ID_KEY, PRIMARY_KEY, VERSION_KEY;
  }

  lemma QuotedText(t: string)
    ensures |Quoted(true, t)| == |EscapeText(true, t)| + 2 && Utf8.IsAscii(Quoted(true, t))
    ensures IsPlain(t) ==> |Quoted(true, t)| == |t| + 2
  {
    EscapedAscii(t);
    if IsPlain(t) { PlainUnescaped(t); }
  }

  /** The length of one member and everything after it, and that it is ASCII. */
  lemma MemberLength(obj: Json, keys: seq<string>, value: nat, rest: nat)
    requires obj.JObject? && keys != [] && forall k :: k in keys ==> k in obj.fields
    requires IsPlain(keys[0]) && |Dumps(true, obj.fields[keys[0]])| == value && Utf8.IsAscii(Dumps(true, obj.fields[keys[0]]))
    requires |keys| > 1 ==> |DumpMembers(true, obj, keys[1..])| == rest && Utf8.IsAscii(DumpMembers(true, obj, keys[1..]))
    ensures |DumpMembers(true, obj, keys)| == |keys[0]| + 3 + value + (if |keys| > 1 then 1 + rest else 0)
    ensures Utf8.IsAscii(DumpMembers(true, obj, keys))
  {
    MembersUnfold(true, obj, keys);
    hide Dumps, DumpMembers, Quoted;
    QuotedText(keys[0]);
  }

  lemma LastMembersLength(c: Cursor)
    requires c.Valid()
    ensures var p := Payload(c);
            p.JObject? && p.fields.Keys == {VERSION_KEY, PRIMARY_KEY, ID_KEY, FILTERS_KEY}
            && |DumpMembers(true, p, [PRIMARY_KEY, VERSION_KEY])| == |EscapeText(true, c.primary)| + 18
            && Utf8.IsAscii(DumpMembers(true, p, [PRIMARY_KEY, VERSION_KEY]))
  {
    PayloadValues(c);
    KeyFacts();
    hide FILTERS_KEY, ID_KEY, PRIMARY_KEY, VERSION_KEY, Payload, Dumps, DumpMembers, EscapeText;
    var p := Payload(c);
    MemberLength(p, [VERSION_KEY], 1, 0);
    assert [PRIMARY_KEY, VERSION_KEY][1..] == [VERSION_KEY];
    MemberLength(p, [PRIMARY_KEY, VERSION_KEY], |EscapeText(true, c.primary)| + 2, 5);
  }

  lemma MembersLength(c: Cursor)
    requires c.Valid()
    ensures var p, keys := Payload(c), [FILTERS_KEY, ID_KEY, PRIMARY_KEY, VERSION_KEY];
            p.JObject? && p.fields.Keys == {VERSION_KEY, PRIMARY_KEY, ID_KEY, FILTERS_KEY}
            && |DumpMembers(true, p, keys)| == |EscapeText(true, c.primary)| + 146
            && Utf8.IsAscii(DumpMembers(true, p, keys))
  {
    PayloadValues(c);
    LastMembersLength(c);
    KeyFacts();
    hide FILTERS_KEY, ID_KEY, PRIMARY_KEY, VERSION_KEY, Payload, Dumps, DumpMembers, EscapeText, UuidText;
    var p := Payload(c);
    var e := |EscapeText(true, c.primary)|;
    assert [ID_KEY, PRIMARY_KEY, VERSION_KEY][1..] == [PRIMARY_KEY, VERSION_KEY];
    MemberLength(p, [ID_KEY, PRIMARY_KEY, VERSION_KEY], 38, e + 18);
    assert [FILTERS_KEY, ID_KEY, PRIMARY_KEY, VERSION_KEY][1..] == [ID_KEY, PRIMARY_KEY, VERSION_KEY];
    MemberLength(p, [FILTERS_KEY, ID_KEY, PRIMARY_KEY, VERSION_KEY], 66, e + 62);
  }

  lemma Braced(members: string)
    ensures |"{" + members + "}"| == |members| + 2
    ensures Utf8.IsAscii(members) ==> Utf8.IsAscii("{" + members + "}")
  {}

  lemma PayloadLength(c: Cursor)
    requires c.Valid()
    ensures |Dumps(true, Payload(c))| == 148 + |EscapeText(true, c.primary)|
    ensures Utf8.IsAscii(Dumps(true, Payload(c)))
  {
    PayloadKeys(c);
    MembersLength(c);
    hide FILTERS_KEY, ID_KEY, PRIMARY_KEY, VERSION_KEY, Payload, Dumps, DumpMembers, EscapeText, SortedKeys, UuidText;
    var members := DumpMembers(true, Payload(c), [FILTERS_KEY, ID_KEY, PRIMARY_KEY, VERSION_KEY]);
    Braced(members);
    hide Utf8.IsAscii;
    ObjectLayout(true, Payload(c));
    assert Dumps(true, Payload(c)) == "{" + members + "}";
  }

  lemma PayloadValues(c: Cursor)
    requires c.Valid()
    ensures Payload(c).JObject? && Payload(c).fields.Keys == {VERSION_KEY, PRIMARY_KEY, ID_KEY, FILTERS_KEY}
    ensures var f := Payload(c).fields;
            |Dumps(true, f[VERSION_KEY])| == 1 && Utf8.IsAscii(Dumps(true, f[VERSION_KEY]))
            && |Dumps(true, f[PRIMARY_KEY])| == |EscapeText(true, c.primary)| + 2 && Utf8.IsAscii(Dumps(true, f[PRIMARY_KEY]))
            && |Dumps(true, f[ID_KEY])| == 38 && Utf8.IsAscii(Dumps(true, f[ID_KEY]))
            && |Dumps(true, f[FILTERS_KEY])| == 66 && Utf8.IsAscii(Dumps(true, f[FILTERS_KEY]))
  {
    PayloadFields(c);
    hide FILTERS_KEY, ID_KEY, PRIMARY_KEY, VERSION_KEY, Payload, UuidText, Quoted;
    QuotedText(c.primary);
    UuidTextChars(c.id);
    assert IsPlain(UuidText(c.id));
    QuotedText(UuidText(c.id));
    QuotedText(c.filtersDigest);
    assert IntText(1) == "1";
  }

  /** The characters of a token: base64url bodies around one dot. */
  lemma TokenShape(signer: Signer, c: Cursor)
    requires signer.Lawful() && c.Valid()
    ensures |Encode(signer, c)| == (4 * (148 + |EscapeText(true, c.primary)|) + 2) / 3 + 44
    ensures Body(c) != ""
    ensures SplitInTwo(Encode(signer, c)) == Some((Body(c), Base64Url.Encode(signer.hmac(Utf8.Encode(Body(c))))))
  {
    hide Dumps, Base64Url.Encode, Utf8.Encode, FirstDot;
    PayloadLength(c);
    var text := Dumps(true, Payload(c));
    Utf8.EncodeAscii(text);
    Base64Url.EncodeLength(Utf8.Encode(text));
    Base64Url.EncodeAlphabet(Utf8.Encode(text));
    var signature := signer.hmac(Utf8.Encode(Body(c)));
    Base64Url.EncodeLength(signature);
    Base64Url.EncodeAlphabet(signature);
    SplitJoined(Body(c), Base64Url.Encode(signature));
  }

  lemma SplitJoined(a: string, b: string)
    requires '.' !in a && '.' !in b
    ensures SplitInTwo(a + "." + b) == Some((a, b))
  {
    var token := a + "." + b;
    assert token[|a|] == '.';
    forall k | 0 <= k < |token| && k != |a| ensures token[k] != '.' {
      if k < |a| { assert token[k] == a[k]; } else { assert token[k] == b[k - |a| - 1]; }
    }
    assert FirstDot(token) == |a|;
    assert token[..|a|] == a && token[|a| + 1..] == b;
  }

  /**
   * A cursor survives its token exactly when its primary takes at most 203 characters once escaped: anything
   * longer gives a token over the 512 characters the decoder accepts.
   */
  lemma CursorRoundTrip(rt: Runtime, signer: Signer, c: Cursor)
    requires rt.Lawful() && signer.Lawful() && c.Valid()
    ensures Decode(rt, signer, Encode(signer, c)) == Ok(c) <==> |EscapeText(true, c.primary)| <= 203
    ensures |EscapeText(true, c.primary)| <= 203 <==> |Encode(signer, c)| <= CURSOR_MAX_LENGTH
  {
    hide Dumps, Base64Url.Encode, Base64Url.Decode, Utf8.Encode, Utf8.Decode, SplitInTwo, EscapeText, Loads, UuidText;
    TokenShape(signer, c);
    var text := Dumps(true, Payload(c));
    PayloadLength(c);
    Utf8.EncodeAscii(text);
    Base64Url.DecodeEncode(Utf8.Encode(text));
    Base64Url.DecodeEncode(signer.hmac(Utf8.Encode(Body(c))));
    Utf8.DecodeEncode(text);
    PayloadExact(signer, c);
    LoadsDumps(signer.repr, true, Payload(c));
    PayloadReads(rt, c);
  }

  function Repeated(c: char, n: nat): (s: string)
    ensures |s| == n
  {
    if n == 0 then "" else [c] + Repeated(c, n - 1)
  }

  lemma {:induction false} ControlEscapes(n: nat)
    ensures |EscapeText(true, Repeated('\U{01}', n))| == 6 * n
  {
    if n > 0 {
      ControlEscapes(n - 1);
      assert Repeated('\U{01}', n)[1..] == Repeated('\U{01}', n - 1);
      assert |EscapeChar(true, '\U{01}')| == 6;
    }
  }

  /** A valid cursor of 64 control characters: each takes six, 384 in all, and its own token is refused. */
  lemma ControlCursorRefused(rt: Runtime, signer: Signer, id: Uuid, digest: string)
    requires rt.Lawful() && signer.Lawful() && IsDigest(digest)
    ensures var c := Cursor(Repeated('\U{01}', 64), id, digest);
            c.Valid() && |EscapeText(true, c.primary)| == 384 && Decode(rt, signer, Encode(signer, c)) == Err(Malformed)
  {
    hide Encode, EscapeText, Repeated;
    var c := Cursor(Repeated('\U{01}', 64), id, digest);
    ControlEscapes(64);
    CursorRoundTrip(rt, signer, c);
  }

  lemma PayloadExact(signer: Signer, c: Cursor)
    ensures FloatsExact(signer.repr, Payload(c))
  {}

  lemma PayloadReads(rt: Runtime, c: Cursor)
    requires rt.Lawful() && c.Valid()
    ensures FromPayload(rt, Payload(c)) == Ok(c)
  {
    hide UuidText;
    PayloadKeys(c);
  }

  // ---------- primaries that paging produces ----------

  /** The value of a row's primary sort column. */
  datatype Primary =
    | DateValue(year: nat, month: nat, day: nat)
    | DateTimeValue(year: nat, month: nat, day: nat, hour: nat, minute: nat, second: nat, micro: nat, offset: Option<Offset>)
    | IntValue(n: int)

  /** A whole-minute UTC offset. */
  datatype Offset = Offset(west: bool, hours: nat, minutes: nat)

  function DateText(year: nat, month: nat, day: nat): (s: string)
    ensures |s| == 10
  {
    Padded(year, 4) + "-" + Padded(month, 2) + "-" + Padded(day, 2)
  }

  function ClockText(hour: nat, minute: nat, second: nat): (s: string)
    ensures |s| == 8
  {
    Padded(hour, 2) + ":" + Padded(minute, 2) + ":" + Padded(second, 2)
  }

  function FractionText(micro: nat): (s: string)
    ensures |s| == if micro == 0 then 0 else 7
  {
    if micro == 0 then "" else "." + Padded(micro, 6)
  }

  function ZoneText(offset: Option<Offset>): (s: string)
    ensures |s| == if offset.None? then 0 else 6
  {
    match offset
    case None => ""
    case Some(o) => (if o.west then "-" else "+") + Padded(o.hours, 2) + ":" + Padded(o.minutes, 2)
  }

  /** `serialize_primary`: ISO 8601, or the decimal text of an integer. */
  function SerializePrimary(v: Primary): string
  {
    match v
    case DateValue(y, m, d) => DateText(y, m, d)
    case DateTimeValue(y, m, d, hour, minute, second, micro, offset) =>
      DateText(y, m, d) + "T" + ClockText(hour, minute, second) + FractionText(micro) + ZoneText(offset)
    case IntValue(n) => IntText(n)
  }

  predicate IsDateText(s: string, year: nat, month: nat, day: nat)
  {
    |s| == 10 && s[..4] == Padded(year, 4) && s[4] == '-' && s[5..7] == Padded(month, 2) && s[7] == '-' && s[8..] == Padded(day, 2)
  }

  predicate IsClockText(s: string, hour: nat, minute: nat, second: nat)
  {
    |s| == 8 && s[..2] == Padded(hour, 2) && s[2] == ':' && s[3..5] == Padded(minute, 2) && s[5] == ':' && s[6..] == Padded(second, 2)
  }

  predicate IsZoneText(s: string, o: Offset)
  {
    |s| == 6 && s[0] == (if o.west then '-' else '+') && s[1..3] == Padded(o.hours, 2) && s[3] == ':' && s[4..] == Padded(o.minutes, 2)
  }

  lemma ThreeParts(a: string, b: string, c: string, sep: string)
    requires |sep| == 1
    ensures var s := a + sep + b + sep + c;
            |s| == |a| + |b| + |c| + 2 && s[..|a|] == a && s[|a|] == sep[0] && s[|a| + 1..|a| + 1 + |b|] == b
            && s[|a| + 1 + |b|] == sep[0] && s[|a| + |b| + 2..] == c
  {}

  lemma DateLayout(year: nat, month: nat, day: nat)
    ensures IsDateText(DateText(year, month, day), year, month, day)
  {
    hide Padded;
    ThreeParts(Padded(year, 4), Padded(month, 2), Padded(day, 2), "-");
  }

  lemma ClockLayout(hour: nat, minute: nat, second: nat)
    ensures IsClockText(ClockText(hour, minute, second), hour, minute, second)
  {
    hide Padded;
    ThreeParts(Padded(hour, 2), Padded(minute, 2), Padded(second, 2), ":");
  }

  lemma ZoneLayout(o: Offset)
    ensures IsZoneText(ZoneText(Some(o)), o)
  {
    hide Padded;
  }

  lemma Sections(a: string, b: string, c: string, d: string)
    requires |a| == 10 && |b| == 8
    ensures var s := a + "T" + b + c + d;
            |s| == 19 + |c| + |d| && s[..10] == a && s[10] == 'T' && s[11..19] == b && s[19..19 + |c|] == c && s[19 + |c|..] == d
  {}

  /** ISO 8601 by position: the date, and for a datetime the clock, the microseconds when there are any, and the offset. */
  lemma SerializedLayout(v: Primary)
    requires !v.IntValue?
    ensures var s := SerializePrimary(v);
            && |s| >= 10 && IsDateText(s[..10], v.year, v.month, v.day)
            && (v.DateValue? ==> |s| == 10)
            && (v.DateTimeValue? ==>
                  var n := if v.micro == 0 then 19 else 26;
                  && |s| == n + (if v.offset.None? then 0 else 6)
                  && s[10] == 'T' && IsClockText(s[11..19], v.hour, v.minute, v.second)
                  && (v.micro != 0 ==> s[19..26] == "." + Padded(v.micro, 6))
                  && (v.offset.Some? ==> IsZoneText(s[n..], v.offset.value)))
  {
    DateLayout(v.year, v.month, v.day);
    if v.DateTimeValue? {
      ClockLayout(v.hour, v.minute, v.second);
      if v.offset.Some? { ZoneLayout(v.offset.value); }
      Sections(DateText(v.year, v.month, v.day), ClockText(v.hour, v.minute, v.second), FractionText(v.micro), ZoneText(v.offset));
      hide IsDateText, IsClockText, IsZoneText, DateText, ClockText, ZoneText, Padded;
    } else {
      hide DateText, IsDateText;
      assert SerializePrimary(v)[..10] == SerializePrimary(v);
    }
  }

  predicate PlainDigits(s: string) { forall i :: 0 <= i < |s| ==> IsDigit(s[i]) || s[i] in "-:T.+" }

  lemma SerializedPlain(v: Primary)
    ensures PlainDigits(SerializePrimary(v)) && SerializePrimary(v) != ""
    ensures !v.IntValue? ==> 1 <= |SerializePrimary(v)| <= PRIMARY_MAX_LENGTH
  {
    hide Padded, NatText;
  }

  /** Every serialised date, datetime or integer that fits the 64 characters of a cursor round-trips. */
  lemma SerializedRoundTrip(rt: Runtime, signer: Signer, v: Primary, id: Uuid, digest: string)
    requires rt.Lawful() && signer.Lawful() && IsDigest(digest) && |SerializePrimary(v)| <= PRIMARY_MAX_LENGTH
    ensures var c := Cursor(SerializePrimary(v), id, digest);
            c.Valid() && Decode(rt, signer, Encode(signer, c)) == Ok(c) && |Encode(signer, c)| <= CURSOR_MAX_LENGTH
  {
    hide Decode, Encode, EscapeText, SerializePrimary;
    SerializedPlain(v);
    PlainUnescaped(SerializePrimary(v));
    CursorRoundTrip(rt, signer, Cursor(SerializePrimary(v), id, digest));
  }
}
