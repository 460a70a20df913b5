/** Unpadded base64url (RFC 4648, section 5), as the cursor token uses it. */
module Base64Url {
  import opened Prelude

  /** A six-bit group. */
  type Sextet = s: int | 0 <= s < 64

  function SextetChar(s: Sextet): (c: char)
    ensures IsAlphabet(c) && CharSextet(c) == s
  {
    if s < 26 then (s + 65) as char
    else if s < 52 then (s + 71) as char
    else if s < 62 then (s - 4) as char
    else if s == 62 then '-' else '_'
  }

  predicate IsAlphabet(c: char)
  {
    'A' <= c <= 'Z' || 'a' <= c <= 'z' || '0' <= c <= '9' || c == '-' || c == '_'
  }

  function CharSextet(c: char): Sextet
    requires IsAlphabet(c)
  {
    if c <= 'Z' && 'A' <= c then c as int - 65
    else if 'a' <= c <= 'z' then c as int - 71
    else if '0' <= c <= '9' then c as int + 4
    else if c == '-' then 62 else 63
  }

  function Group(a: Byte, b: Byte, c: Byte): (s: seq<Sextet>)
    ensures |s| == 4
  {
    [a / 4, a % 4 * 16 + b / 16, b % 16 * 4 + c / 64, c % 64]
  }

  function First(s: Sextet, t: Sextet): Byte { var n: int := s; n * 4 + t / 16 }

  function Second(t: Sextet, u: Sextet): Byte { var n: int := t % 16; n * 16 + u / 4 }

  function Third(u: Sextet, v: Sextet): Byte { var n: int := u % 4; n * 64 + v }

  /** `_urlsafe`: standard groups of four, the last one cut where padding would start. */
  function Encode(b: Bytes): (s: string)
  {
    if |b| == 0 then ""
    else if |b| == 1 then var g := Group(b[0], 0, 0); [SextetChar(g[0]), SextetChar(g[1])]
    else if |b| == 2 then var g := Group(b[0], b[1], 0); [SextetChar(g[0]), SextetChar(g[1]), SextetChar(g[2])]
    else
      var g := Group(b[0], b[1], b[2]);
      [SextetChar(g[0]), SextetChar(g[1]), SextetChar(g[2]), SextetChar(g[3])] + Encode(b[3..])
  }

  /** The decoder ignores the unused low bits of the last group and refuses a single leftover character. */
  function DecodeGroups(s: string): Option<Bytes>
    requires forall i :: 0 <= i < |s| ==> IsAlphabet(s[i])
  {
    if |s| == 0 then Some([])
    else if |s| == 1 then None
    else if |s| == 2 then Some([First(CharSextet(s[0]), CharSextet(s[1]))])
    else if |s| == 3 then
      Some([First(CharSextet(s[0]), CharSextet(s[1])), Second(CharSextet(s[1]), CharSextet(s[2]))])
    else
      match DecodeGroups(s[4..])
      case None => None
      case Some(rest) =>
        Some([First(CharSextet(s[0]), CharSextet(s[1])),
              Second(CharSextet(s[1]), CharSextet(s[2])),
              Third(CharSextet(s[2]), CharSextet(s[3]))] + rest)
  }

  /** `_urlsafe_decode`: not empty, alphabet characters only. */
  function Decode(s: string): Option<Bytes>
  {
    if s == "" || exists i :: 0 <= i < |s| && !IsAlphabet(s[i]) then None else DecodeGroups(s)
  }

  lemma {:induction false} EncodeAlphabet(b: Bytes)
    ensures forall i :: 0 <= i < |Encode(b)| ==> IsAlphabet(Encode(b)[i])
  {
    hide Group;
    if |b| >= 3 { EncodeAlphabet(b[3..]); }
  }

  /** Unpadded length: four characters for three bytes, rounded up. */
  lemma {:induction false} EncodeLength(b: Bytes)
    ensures |Encode(b)| == (4 * |b| + 2) / 3
  {
    if |b| >= 3 { EncodeLength(b[3..]); }
  }

  lemma GroupInverse(a: Byte, b: Byte, c: Byte)
    ensures var g := Group(a, b, c); First(g[0], g[1]) == a && Second(g[1], g[2]) == b && Third(g[2], g[3]) == c
  {}

  lemma DecodeOne(a: Byte)
    ensures Encode([a]) == [SextetChar(Group(a, 0, 0)[0]), SextetChar(Group(a, 0, 0)[1])]
    ensures (forall i :: 0 <= i < 2 ==> IsAlphabet(Encode([a])[i])) && DecodeGroups(Encode([a])) == Some([a])
  {
    GroupInverse(a, 0, 0);
    hide Group, First, Second, Third, SextetChar, CharSextet, IsAlphabet;
  }

  lemma DecodeTwo(a: Byte, b: Byte)
    ensures |Encode([a, b])| == 3
    ensures (forall i :: 0 <= i < 3 ==> IsAlphabet(Encode([a, b])[i])) && DecodeGroups(Encode([a, b])) == Some([a, b])
  {
    GroupInverse(a, b, 0);
    hide Group, First, Second, Third, SextetChar, CharSextet, IsAlphabet;
  }

  lemma DecodeShort(b: Bytes)
    requires |b| < 3
    requires forall i :: 0 <= i < |Encode(b)| ==> IsAlphabet(Encode(b)[i])
    ensures DecodeGroups(Encode(b)) == Some(b)
  {
    hide Group, First, Second, Third, SextetChar, CharSextet, IsAlphabet;
    if |b| == 1 {
      assert b == [b[0]];
      DecodeOne(b[0]);
    } else if |b| == 2 {
      assert b == [b[0], b[1]];
      DecodeTwo(b[0], b[1]);
    }
  }

  lemma DecodeStep(a: Byte, b: Byte, c: Byte, more: string, rest: Bytes)
    requires forall i :: 0 <= i < |more| ==> IsAlphabet(more[i])
    requires DecodeGroups(more) == Some(rest)
    ensures var g := Group(a, b, c);
            var s := [SextetChar(g[0]), SextetChar(g[1]), SextetChar(g[2]), SextetChar(g[3])] + more;
            (forall i :: 0 <= i < |s| ==> IsAlphabet(s[i])) && DecodeGroups(s) == Some([a, b, c] + rest)
  {
    GroupInverse(a, b, c);
    hide Group, First, Second, Third;
    var g := Group(a, b, c);
    var s := [SextetChar(g[0]), SextetChar(g[1]), SextetChar(g[2]), SextetChar(g[3])] + more;
    hide SextetChar, CharSextet;
    assert s[4..] == more;
  }

  lemma {:induction false} DecodeGroupsEncode(b: Bytes)
    requires forall i :: 0 <= i < |Encode(b)| ==> IsAlphabet(Encode(b)[i])
    ensures DecodeGroups(Encode(b)) == Some(b)
  {
    hide DecodeGroups, Group, SextetChar, CharSextet;
    if |b| < 3 {
      DecodeShort(b);
    } else {
      EncodeAlphabet(b[3..]);
      DecodeGroupsEncode(b[3..]);
      DecodeStep(b[0], b[1], b[2], Encode(b[3..]), b[3..]);
      assert b == [b[0], b[1], b[2]] + b[3..];
    }
  }

  /** Decoding undoes encoding, for every byte length modulo three. */
  lemma DecodeEncode(b: Bytes)
    requires b != []
    ensures Decode(Encode(b)) == Some(b)
  {
    EncodeAlphabet(b);
    EncodeLength(b);
    DecodeGroupsEncode(b);
  }

  /** The test vectors of section 10 of RFC 4648, unpadded, and the two characters that section 5 replaces. */
  lemma KnownEncodings()
    ensures Encode([0x66]) == "Zg" && Encode([0x66, 0x6F]) == "Zm8" && Encode([0x66, 0x6F, 0x6F]) == "Zm9v"
    ensures Encode([0x66, 0x6F, 0x6F, 0x62, 0x61, 0x72]) == "Zm9vYmFy"
    ensures Encode([0xFB, 0xFF]) == "-_8"
  {
    var foobar: Bytes := [0x66, 0x6F, 0x6F, 0x62, 0x61, 0x72];
    assert foobar[3..] == [0x62, 0x61, 0x72];
    assert Encode([0x62, 0x61, 0x72]) == "YmFy";
  }
}
