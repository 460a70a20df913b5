/** The parts of Python's runtime the audit trail leans on, with the laws it relies on. */
module Runtime {
  import opened Prelude
  import opened Numerals
  import Utf8

  /** A UUID is its 128-bit value. */
  type Uuid = n: nat | n < 0x1_0000_0000_0000_0000_0000_0000_0000_0000

  /** `str(uuid)`: 32 hexadecimal digits grouped 8-4-4-4-12. */
  function UuidText(u: Uuid): (s: string)
    ensures |s| == 36
  {
    var h := HexText(u, 32);
    h[..8] + "-" + h[8..12] + "-" + h[12..16] + "-" + h[16..20] + "-" + h[20..]
  }

  predicate IsUuidChar(c: char) { IsLowerHex(c) || c == '-' }

  lemma UuidTextChars(u: Uuid)
    ensures forall i :: 0 <= i < 36 ==> IsUuidChar(UuidText(u)[i])
    ensures Utf8.IsAscii(UuidText(u))
  {
    hide HexText;
  }

  lemma UuidTextInjective(a: Uuid, b: Uuid)
    requires UuidText(a) == UuidText(b)
    ensures a == b
  {
    hide HexText;
    var s, ha, hb := UuidText(a), HexText(a, 32), HexText(b, 32);
    assert ha[..8] == s[..8] == hb[..8];
    assert ha[8..12] == s[9..13] == hb[8..12];
    assert ha[12..16] == s[14..18] == hb[12..16];
    assert ha[16..20] == s[19..23] == hb[16..20];
    assert ha[20..] == s[24..] == hb[20..];
    assert ha == ha[..8] + ha[8..12] + ha[12..16] + ha[16..20] + ha[20..];
    assert hb == hb[..8] + hb[8..12] + hb[12..16] + hb[16..20] + hb[20..];
    assert Pow16(32) == 0x1_0000_0000_0000_0000_0000_0000_0000_0000 by { Pow16Of32(); }
    HexTextInjective(a, b, 32);
  }

  lemma Pow16Of32()
    ensures Pow16(32) == 0x1_0000_0000_0000_0000_0000_0000_0000_0000
  {
    assert Pow16(8) == 0x1_0000_0000;
    assert Pow16(16) == 0x1_0000_0000_0000_0000;
    assert Pow16(24) == 0x1_0000_0000_0000_0000_0000_0000;
  }

  predicate IsLowerWord(s: string) { forall i :: 0 <= i < |s| ==> 'a' <= s[i] <= 'z' }

  /** A SHA-256 digest as lower-case hexadecimal text. */
  predicate IsDigest(s: string)
  {
    |s| == 64 && forall i :: 0 <= i < |s| ==> IsLowerHex(s[i])
  }

  datatype Runtime = Runtime(
    nfc: string -> string,              // unicodedata.normalize("NFC", s)
    isSpace: char -> bool,              // str.isspace of one character
    casefold: string -> string,         // str.casefold
    parseUuid: string -> Option<Uuid>,  // UUID(s); None is its ValueError
    uuid5: string -> Uuid,              // uuid5 in the audit-subject namespace
    sha256: Bytes -> string             // hashlib.sha256(b).hexdigest()
  )
  {
    function StripLeft(s: string): (r: string)
      ensures r == "" || !isSpace(r[0])
    {
      if s != "" && isSpace(s[0]) then StripLeft(s[1..]) else s
    }

    function StripRight(s: string): (r: string)
      ensures r == "" || !isSpace(r[|r| - 1])
      ensures r <= s
    {
      if s != "" && isSpace(s[|s| - 1]) then StripRight(s[..|s| - 1]) else s
    }

    /** `s.strip()`. */
    function Strip(s: string): (r: string)
      ensures Trimmed(r)
    {
      StripRight(StripLeft(s))
    }

    predicate Trimmed(s: string)
    {
      s == "" || (!isSpace(s[0]) && !isSpace(s[|s| - 1]))
    }

    lemma StripTrimmed(s: string)
      requires Trimmed(s)
      ensures Strip(s) == s
    {}

    ghost predicate Lawful()
    {
      && (forall s :: nfc(nfc(s)) == nfc(s))
      && (forall s :: Utf8.IsAscii(s) ==> nfc(s) == s)
      && (forall s :: s != "" && Trimmed(s) ==> nfc(s) != "" && Trimmed(nfc(s)))
      && (forall s :: IsLowerWord(s) ==> casefold(s) == s)
      && (forall u: Uuid :: parseUuid(UuidText(u)) == Some(u))
      && (forall b :: IsDigest(sha256(b)))
    }
  }

  // ---------- the laws can be met ----------

  ghost function UuidOf(s: string): Option<Uuid>
  {
    if exists u: Uuid :: UuidText(u) == s then
      var u: Uuid :| UuidText(u) == s;
      Some(u)
    else None
  }

  /** The identity as normalisation and case folding, the blank as the one space, and a constant digest. */
  ghost function PlainRuntime(): (rt: Runtime)
    ensures rt.Lawful()
  {
    var rt := Runtime((s: string) => s, c => c == ' ', (s: string) => s, s => UuidOf(s), s => 0, b => seq(64, i => '0'));
    assert rt.Lawful() by {
      forall u: Uuid ensures rt.parseUuid(UuidText(u)) == Some(u) { UuidOfText(u); }
    }
    rt
  }

  lemma UuidOfText(u: Uuid)
    ensures UuidOf(UuidText(u)) == Some(u)
  {
    hide UuidText;
    forall v: Uuid | UuidText(v) == UuidText(u) ensures v == u { UuidTextInjective(u, v); }
  }
}
