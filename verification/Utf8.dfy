/** UTF-8 (RFC 3629): the encoding used before every digest and for every archive entry. */
module Utf8 {
  import opened Prelude

  function EncodeChar(c: char): (b: Bytes)
    ensures 1 <= |b| <= 4
  {
    var n := c as int;
    if n < 0x80 then [n]
    else if n < 0x800 then [0xC0 + n / 64, 0x80 + n % 64]
    else if n < 0x1_0000 then [0xE0 + n / 64 / 64, 0x80 + n / 64 % 64, 0x80 + n % 64]
    else [0xF0 + n / 64 / 64 / 64, 0x80 + n / 64 / 64 % 64, 0x80 + n / 64 % 64, 0x80 + n % 64]
  }

  function Encode(s: string): (b: Bytes)
    ensures |b| >= |s|
  {
    if s == [] then [] else EncodeChar(s[0]) + Encode(s[1..])
  }

  predicate IsContinuation(b: Byte) { 0x80 <= b < 0xC0 }

  predicate IsScalar(n: int) { 0 <= n < 0xD800 || 0xE000 <= n < 0x11_0000 }

  /** Six more bits appended to the value read so far. */
  function Continue(n: int, b: Byte): int { n * 64 + (b as int - 0x80) }

  /** The first character of a strict decoding and how many bytes it took; None when malformed. */
  function DecodeChar(b: Bytes): (r: Option<(char, nat)>)
    requires b != []
    ensures r.Some? ==> 1 <= r.value.1 <= |b|
  {
    var lead: int := b[0];
    if lead < 0x80 then Some((lead as char, 1))
    else if 0xC2 <= lead < 0xE0 then
      if |b| >= 2 && IsContinuation(b[1])
      then Some((Continue(lead - 0xC0, b[1]) as char, 2)) else None
    else if 0xE0 <= lead < 0xF0 then
      if |b| >= 3 && IsContinuation(b[1]) && IsContinuation(b[2]) then
        var n := Continue(Continue(lead - 0xE0, b[1]), b[2]);
        if 0x800 <= n && IsScalar(n) then Some((n as char, 3)) else None
      else None
    else if 0xF0 <= lead < 0xF5 then
      if |b| >= 4 && IsContinuation(b[1]) && IsContinuation(b[2]) && IsContinuation(b[3]) then
        var n := Continue(Continue(Continue(lead - 0xF0, b[1]), b[2]), b[3]);
        if 0x1_0000 <= n && IsScalar(n) then Some((n as char, 4)) else None
      else None
    else None
  }

  function Decode(b: Bytes): Option<string>
  {
    if b == [] then Some("") else
    match DecodeChar(b)
    case None => None
    case Some((c, k)) =>
      match Decode(b[k..])
      case None => None
      case Some(s) => Some([c] + s)
  }

  lemma ContinueSplit(n: nat)
    ensures Continue(n / 64, 0x80 + n % 64) == n
  {}

  lemma DecodeEncodedChar(c: char, rest: Bytes)
    ensures DecodeChar(EncodeChar(c) + rest) == Some((c, |EncodeChar(c)|))
  {
    var n := c as int;
    var b := EncodeChar(c) + rest;
    assert IsScalar(n);
    ContinueSplit(n);
    ContinueSplit(n / 64);
    ContinueSplit(n / 64 / 64);
    if 0x80 <= n < 0x800 {
      assert b[0] == 0xC0 + n / 64 && b[1] == 0x80 + n % 64;
    } else if 0x800 <= n < 0x1_0000 {
      assert b[0] == 0xE0 + n / 64 / 64 && b[1] == 0x80 + n / 64 % 64 && b[2] == 0x80 + n % 64;
    } else if n >= 0x1_0000 {
      assert b[0] == 0xF0 + n / 64 / 64 / 64 && b[1] == 0x80 + n / 64 / 64 % 64;
      assert b[2] == 0x80 + n / 64 % 64 && b[3] == 0x80 + n % 64;
    }
  }

  /** Decoding undoes encoding, for every text. */
  lemma {:induction false} DecodeEncode(s: string)
    ensures Decode(Encode(s)) == Some(s)
  {
    if s != [] {
      var head := EncodeChar(s[0]);
      DecodeEncodedChar(s[0], Encode(s[1..]));
      assert Encode(s)[|head|..] == Encode(s[1..]);
      DecodeEncode(s[1..]);
      assert [s[0]] + s[1..] == s;
    }
  }

  lemma EncodeInjective(a: string, b: string)
    requires Encode(a) == Encode(b)
    ensures a == b
  {
    DecodeEncode(a);
    DecodeEncode(b);
  }

  predicate IsAscii(s: string) { forall i :: 0 <= i < |s| ==> s[i] < '\U{80}' }

  /** ASCII text takes one byte for each character. */
  lemma {:induction false} EncodeAscii(s: string)
    requires IsAscii(s)
    ensures |Encode(s)| == |s|
  {
    if s != [] { EncodeAscii(s[1..]); }
  }

  // ---------- strictness ----------

  lemma CharStrict(b: Bytes)
    requires b != [] && DecodeChar(b).Some?
    ensures var (c, k) := DecodeChar(b).value; EncodeChar(c) == b[..k]
  {
    var (c, k) := DecodeChar(b).value;
    var n := c as int;
    if k == 2 {
      JoinSplits(b[0] as int - 0xC0, b[1]);
    } else if k == 3 {
      JoinSplits(b[0] as int - 0xE0, b[1]);
      JoinSplits(Continue(b[0] as int - 0xE0, b[1]), b[2]);
    } else if k == 4 {
      JoinSplits(b[0] as int - 0xF0, b[1]);
      JoinSplits(Continue(b[0] as int - 0xF0, b[1]), b[2]);
      JoinSplits(Continue(Continue(b[0] as int - 0xF0, b[1]), b[2]), b[3]);
    }
  }

  lemma JoinSplits(n: int, b: Byte)
    requires n >= 0 && IsContinuation(b)
    ensures Continue(n, b) / 64 == n && Continue(n, b) % 64 == b as int - 0x80
  {}

  /** Decoding is strict: bytes are read only when they are the encoding of what is read. */
  lemma {:induction false} EncodeDecode(b: Bytes)
    requires Decode(b).Some?
    ensures Encode(Decode(b).value) == b
  {
    if b != [] {
      hide EncodeChar, DecodeChar;
      CharStrict(b);
      var (c, k) := DecodeChar(b).value;
      EncodeDecode(b[k..]);
      assert Decode(b).value == [c] + Decode(b[k..]).value;
      assert b == b[..k] + b[k..];
    }
  }

  /** The examples of section 7 of RFC 3629, character by character. */
  lemma KnownEncodings()
    ensures EncodeChar('A') == [0x41] && EncodeChar('\U{2262}') == [0xE2, 0x89, 0xA2] && EncodeChar('\U{0391}') == [0xCE, 0x91]
    ensures EncodeChar('\U{D55C}') == [0xED, 0x95, 0x9C] && EncodeChar('\U{233B4}') == [0xF0, 0xA3, 0x8E, 0xB4]
  {}
}
