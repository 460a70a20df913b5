/** What a verified chain proves about its content, up to a collision of the digest exhibited from the rows. */
module TamperEvidence {
  import opened Prelude
  import opened Numerals
  import opened Json
  import opened JsonRoundTrip
  import opened Runtime
  import opened AuditPayload
  import opened Framing
  import opened AuditChain
  import ChainRanges
  import Utf8

  predicate IsControlOrDelete(c: char) { c < ' ' || c == '\U{7F}' }

  /** Text as the recorder leaves it: normalised, not blank and without control characters. */
  predicate CleanText(rt: Runtime, s: string)
  {
    s != "" && rt.nfc(s) == s && forall i :: 0 <= i < |s| ==> !IsControlOrDelete(s[i])
  }

  /** A row whose text fields went through the recorder. */
  predicate RecorderShaped(rt: Runtime, e: Event)
  {
    && CleanText(rt, e.eventType)
    && CleanText(rt, e.subjectType)
    && (e.actorId.Some? ==> e.actorLabel.None?)
    && (e.actorLabel.Some? ==> CleanText(rt, e.actorLabel.value) && rt.parseUuid(e.actorLabel.value).None?)
  }

  predicate LinkIsDigest(e: Event)
  {
    e.prevHash.Some? ==> IsDigest(e.prevHash.value)
  }

  /** Two events agree on every hashed field; payloads agree once normalised. */
  predicate SameContent(rt: Runtime, e: Event, f: Event)
  {
    && e.sequence == f.sequence
    && e.occurredAt == f.occurredAt
    && e.actorId == f.actorId
    && e.actorLabel == f.actorLabel
    && e.eventType == f.eventType
    && e.subjectType == f.subjectType
    && e.subjectId == f.subjectId
    && e.prevHash == f.prevHash
    && NormalisePayload(rt, e.payload) == NormalisePayload(rt, f.payload)
  }

  lemma PrintableFree(s: string)
    requires Printable(s)
    ensures HASH_SEPARATOR !in s
  {}

  lemma UuidFree(rt: Runtime, u: Uuid)
    requires rt.Lawful()
    ensures rt.nfc(UuidText(u)) == UuidText(u) && HASH_SEPARATOR !in UuidText(u)
  {
    UuidTextChars(u);
  }

  lemma ActorTokenFree(rt: Runtime, e: Event)
    requires rt.Lawful() && RecorderShaped(rt, e)
    ensures HASH_SEPARATOR !in ActorToken(rt, e)
  {
    if e.actorId.Some? { UuidFree(rt, e.actorId.value); }
  }

  lemma LinkTokenFree(e: Event)
    requires LinkIsDigest(e)
    ensures HASH_SEPARATOR !in LinkToken(e.prevHash)
  {
    var s := LinkToken(e.prevHash);
    assert forall i :: 0 <= i < |NULL_LINK| ==> NULL_LINK[i] != HASH_SEPARATOR;
    assert Printable(s);
  }

  lemma TimestampPrintable(t: Instant)
    requires t.Utc?
    ensures Printable(TimestampText(t))
  {
    hide Padded;
  }

  /** The sequence, timestamp, subject id and payload tokens never hold the separator. */
  lemma FixedTokensFree(rt: Runtime, e: Event)
    requires rt.Lawful() && Tokens(rt, e).Ok?
    ensures var t := Tokens(rt, e).value;
            HASH_SEPARATOR !in t[0] && HASH_SEPARATOR !in t[1] && HASH_SEPARATOR !in t[5] && HASH_SEPARATOR !in t[6]
  {
    hide Dumps, UuidText, TimestampText, IntText;
    IntTextPrintable(e.sequence);
    UuidFree(rt, e.subjectId);
    DumpsPrintable(false, NormalisePayload(rt, e.payload).value);
    TimestampPrintable(e.occurredAt);
    PrintableFree(IntText(e.sequence));
    PrintableFree(TimestampText(e.occurredAt));
    PrintableFree(Dumps(false, NormalisePayload(rt, e.payload).value));
  }

  /** The framing is unambiguous exactly when the actor, both types and the link are free of the separator. */
  lemma FramingExact(rt: Runtime, e: Event)
    requires rt.Lawful() && Tokens(rt, e).Ok?
    ensures Recoverable(HASH_SEPARATOR, Tokens(rt, e).value)
       <==> (HASH_SEPARATOR !in ActorToken(rt, e) && HASH_SEPARATOR !in rt.nfc(e.eventType)
             && HASH_SEPARATOR !in rt.nfc(e.subjectType) && HASH_SEPARATOR !in LinkToken(e.prevHash))
  {
    hide Join, Recoverable;
    var t := Tokens(rt, e).value;
    FixedTokensFree(rt, e);
    RecoverableIff(HASH_SEPARATOR, t);
    assert t[2] == ActorToken(rt, e) && t[3] == rt.nfc(e.eventType);
    assert t[4] == rt.nfc(e.subjectType) && t[7] == LinkToken(e.prevHash);
  }

  /** Only two tokens depend on the event type and the subject type. */
  lemma TokensOfTypes(rt: Runtime, e: Event, eventType: string, subjectType: string)
    ensures Tokens(rt, e).Ok? ==>
              (Tokens(rt, e.(eventType := eventType, subjectType := subjectType))
               == Ok(Tokens(rt, e).value[..3] + [rt.nfc(eventType), rt.nfc(subjectType)] + Tokens(rt, e).value[5..]))
    ensures Tokens(rt, e).Err? ==> Tokens(rt, e.(eventType := eventType, subjectType := subjectType)) == Tokens(rt, e)
  {
    hide UuidText, TimestampText, IntText, CanonicalPayload;
    if Tokens(rt, e).Ok? {
      var f := e.(eventType := eventType, subjectType := subjectType);
      var t := Tokens(rt, e).value;
      assert Tokens(rt, f).value == t[..3] + [rt.nfc(eventType), rt.nfc(subjectType)] + t[5..];
    }
  }

  /** Outside the recorder the boundary between two text fields can move without changing the digest. */
  lemma UnshapedRowsCollide(rt: Runtime, e: Event, x: string, y: string, z: string)
    requires rt.Lawful() && Utf8.IsAscii(x) && Utf8.IsAscii(y) && Utf8.IsAscii(z)
    ensures var f := e.(eventType := x + [HASH_SEPARATOR] + y, subjectType := z);
            var g := e.(eventType := x, subjectType := y + [HASH_SEPARATOR] + z);
            f != g && EventHash(rt, f) == EventHash(rt, g)
  {
    hide Join, Tokens;
    var f := e.(eventType := x + [HASH_SEPARATOR] + y, subjectType := z);
    var g := e.(eventType := x, subjectType := y + [HASH_SEPARATOR] + z);
    assert |f.eventType| != |g.eventType|;
    TokensOfTypes(rt, e, f.eventType, f.subjectType);
    TokensOfTypes(rt, e, g.eventType, g.subjectType);
    assert Utf8.IsAscii(f.eventType) && Utf8.IsAscii(g.subjectType);
    if Tokens(rt, e).Ok? {
      var t := Tokens(rt, e).value;
      BoundaryMoves(HASH_SEPARATOR, t[..3], x, y, z, t[5..]);
    }
  }

  lemma TimestampInjective(s: Instant, t: Instant)
    requires s.Utc? && t.Utc? && TimestampText(s) == TimestampText(t)
    ensures s == t
  {
    hide Padded;
    var x, y := TimestampText(s), TimestampText(t);
    assert Padded(s.year, 4) == x[..4] && Padded(t.year, 4) == y[..4];
    assert Padded(s.month, 2) == x[5..7] && Padded(t.month, 2) == y[5..7];
    assert Padded(s.day, 2) == x[8..10] && Padded(t.day, 2) == y[8..10];
    assert Padded(s.hour, 2) == x[11..13] && Padded(t.hour, 2) == y[11..13];
    assert Padded(s.minute, 2) == x[14..16] && Padded(t.minute, 2) == y[14..16];
    assert Padded(s.second, 2) == x[17..19] && Padded(t.second, 2) == y[17..19];
    assert Padded(s.micro, 6) == x[20..26] && Padded(t.micro, 6) == y[20..26];
    assert Pow10(2) == 100 && Pow10(4) == 10000 && Pow10(6) == 1000000;
    PaddedInjective(s.year, t.year, 4);
    PaddedInjective(s.month, t.month, 2);
    PaddedInjective(s.day, t.day, 2);
    PaddedInjective(s.hour, t.hour, 2);
    PaddedInjective(s.minute, t.minute, 2);
    PaddedInjective(s.second, t.second, 2);
    PaddedInjective(s.micro, t.micro, 6);
  }

  /** Actor id, actor label and no actor give distinct tokens. */
  lemma ActorTokenInjective(rt: Runtime, e: Event, f: Event)
    requires rt.Lawful() && RecorderShaped(rt, e) && RecorderShaped(rt, f)
    requires ActorToken(rt, e) == ActorToken(rt, f)
    ensures e.actorId == f.actorId && e.actorLabel == f.actorLabel
  {
    if e.actorId.Some? { UuidFree(rt, e.actorId.value); assert rt.parseUuid(ActorToken(rt, e)) == e.actorId; }
    if f.actorId.Some? { UuidFree(rt, f.actorId.value); assert rt.parseUuid(ActorToken(rt, f)) == f.actorId; }
    if e.actorId.Some? && f.actorId.Some? { UuidTextInjective(e.actorId.value, f.actorId.value); }
  }

  lemma LinkTokenInjective(e: Event, f: Event)
    requires LinkIsDigest(e) && LinkIsDigest(f) && LinkToken(e.prevHash) == LinkToken(f.prevHash)
    ensures e.prevHash == f.prevHash
  {
    assert |NULL_LINK| == 6;
  }

  /** The digest material determines every hashed field of a recorder-shaped row. */
  lemma MaterialDetermines(rt: Runtime, e: Event, f: Event)
    requires rt.Lawful() && RecorderShaped(rt, e) && RecorderShaped(rt, f) && LinkIsDigest(e) && LinkIsDigest(f)
    requires Material(rt, e).Ok? && Material(rt, e) == Material(rt, f)
    ensures SameContent(rt, e, f)
  {
    hide Join, Dumps, UuidText, TimestampText, IntText;
    var s, t := Tokens(rt, e).value, Tokens(rt, f).value;
    TokensFree(rt, e);
    TokensFree(rt, f);
    JoinInjective(HASH_SEPARATOR, s, t);
    assert s[0] == t[0] && s[1] == t[1] && s[2] == t[2] && s[3] == t[3];
    assert s[4] == t[4] && s[5] == t[5] && s[6] == t[6] && s[7] == t[7];
    IntTextInjective(e.sequence, f.sequence);
    TimestampInjective(e.occurredAt, f.occurredAt);
    ActorTokenInjective(rt, e, f);
    UuidFree(rt, e.subjectId);
    UuidFree(rt, f.subjectId);
    UuidTextInjective(e.subjectId, f.subjectId);
    DumpsInjective(false, NormalisePayload(rt, e.payload).value, NormalisePayload(rt, f.payload).value);
    LinkTokenInjective(e, f);
  }

  lemma TokensFree(rt: Runtime, e: Event)
    requires rt.Lawful() && RecorderShaped(rt, e) && LinkIsDigest(e) && Tokens(rt, e).Ok?
    ensures FreeOf(HASH_SEPARATOR, Tokens(rt, e).value)
  {
    hide Dumps, UuidText, TimestampText, IntText;
    FixedTokensFree(rt, e);
    ActorTokenFree(rt, e);
    LinkTokenFree(e);
    assert Tokens(rt, e).value[3] == e.eventType && Tokens(rt, e).value[4] == e.subjectType;
  }

  // ---------- whole chains ----------

  predicate AllShaped(rt: Runtime, rows: seq<Row>)
  {
    forall i :: 0 <= i < |rows| ==> RecorderShaped(rt, rows[i].event)
  }

  predicate SameChain(rt: Runtime, a: seq<Row>, b: seq<Row>)
  {
    |a| == |b| && forall i :: 0 <= i < |a| ==> SameContent(rt, a[i].event, b[i].event) && a[i].hash == b[i].hash
  }

  /** Two rows whose digest material differs although their digests are the same. */
  predicate Collides(rt: Runtime, e: Event, f: Event)
  {
    && Material(rt, e).Ok? && Material(rt, f).Ok?
    && Utf8.Encode(Material(rt, e).value) != Utf8.Encode(Material(rt, f).value)
    && EventHash(rt, e) == EventHash(rt, f)
  }

  ghost predicate HasCollision(rt: Runtime, a: seq<Row>, b: seq<Row>)
  {
    exists i, j :: 0 <= i < |a| && 0 <= j < |b| && Collides(rt, a[i].event, b[j].event)
  }

  lemma LinksAreDigests(rt: Runtime, rows: seq<Row>, i: nat)
    requires rt.Lawful() && ChainSound(rt, rows, false) && i < |rows|
    ensures LinkIsDigest(rows[i].event) && Material(rt, rows[i].event).Ok?
  {
    assert RowSound(rt, rows, i, false);
    if i > 0 { assert RowSound(rt, rows, i - 1, false); }
  }

  /**
   * Two verified chains of recorder-shaped rows that end in the same digest hold the same rows, one by one:
   * no row can have been edited, inserted, reordered or removed before the last one.
   */
  lemma {:induction false} SameHeadSameChain(rt: Runtime, a: seq<Row>, b: seq<Row>)
    requires rt.Lawful() && AllShaped(rt, a) && AllShaped(rt, b)
    requires ChainSound(rt, a, false) && ChainSound(rt, b, false)
    requires a != [] && b != [] && a[|a| - 1].hash == b[|b| - 1].hash
    ensures SameChain(rt, a, b) || HasCollision(rt, a, b)
    decreases |a|
  {
    hide Material, SameContent, RecorderShaped, LinkIsDigest, Collides;
    var m, n := |a| - 1, |b| - 1;
    var e, f := a[m].event, b[n].event;
    LinksAreDigests(rt, a, m);
    LinksAreDigests(rt, b, n);
    assert RowSound(rt, a, m, false) && RowSound(rt, b, n, false);
    if Material(rt, e) != Material(rt, f) {
      DifferentMaterialCollides(rt, e, f);
      assert HasCollision(rt, a, b);
    } else {
      MaterialDetermines(rt, e, f);
      SameLink(rt, e, f);
      if m > 0 && n > 0 {
        ChainRanges.TailDropUndetected(rt, a, false, m);
        ChainRanges.TailDropUndetected(rt, b, false, n);
        SameHeadSameChain(rt, a[..m], b[..n]);
        if HasCollision(rt, a[..m], b[..n]) {
          var i, j :| 0 <= i < m && 0 <= j < n && Collides(rt, a[..m][i].event, b[..n][j].event);
          assert Collides(rt, a[i].event, b[j].event);
        } else {
          ExtendSameChain(rt, a, b);
        }
      }
    }
  }

  lemma SameLink(rt: Runtime, e: Event, f: Event)
    requires SameContent(rt, e, f)
    ensures e.prevHash == f.prevHash
  {}

  lemma ExtendSameChain(rt: Runtime, a: seq<Row>, b: seq<Row>)
    requires |a| > 0 && |b| > 0 && SameChain(rt, a[..|a| - 1], b[..|b| - 1])
    requires SameContent(rt, a[|a| - 1].event, b[|b| - 1].event) && a[|a| - 1].hash == b[|b| - 1].hash
    ensures SameChain(rt, a, b)
  {
    hide SameContent;
    var m := |a| - 1;
    forall i | 0 <= i < m ensures SameContent(rt, a[i].event, b[i].event) && a[i].hash == b[i].hash {
      assert a[..m][i] == a[i] && b[..m][i] == b[i];
    }
  }

  lemma DifferentMaterialCollides(rt: Runtime, e: Event, f: Event)
    requires Material(rt, e).Ok? && Material(rt, f).Ok? && Material(rt, e) != Material(rt, f)
    requires EventHash(rt, e) == EventHash(rt, f)
    ensures Collides(rt, e, f)
  {
    hide Material;
    if Utf8.Encode(Material(rt, e).value) == Utf8.Encode(Material(rt, f).value) {
      Utf8.EncodeInjective(Material(rt, e).value, Material(rt, f).value);
    }
  }

  // ---------- against rows that never went through the recorder ----------

  /** A recorder-shaped row fixes the tokens of every row with the same material, however that row is shaped. */
  lemma MaterialFixesTokens(rt: Runtime, e: Event, f: Event)
    requires rt.Lawful() && RecorderShaped(rt, e) && LinkIsDigest(e)
    requires Material(rt, e).Ok? && Material(rt, e) == Material(rt, f)
    ensures Tokens(rt, f) == Tokens(rt, e)
  {
    hide Join, Tokens, RecorderShaped, FreeOf;
    TokensFree(rt, e);
    RecoverableIff(HASH_SEPARATOR, Tokens(rt, e).value);
  }

  predicate SameTokens(rt: Runtime, a: seq<Row>, b: seq<Row>)
  {
    |a| == |b| && forall i :: 0 <= i < |a| ==> Tokens(rt, a[i].event) == Tokens(rt, b[i].event) && a[i].hash == b[i].hash
  }

  lemma TokensFixLink(rt: Runtime, e: Event, f: Event)
    requires Tokens(rt, e).Ok? && Tokens(rt, e) == Tokens(rt, f) && LinkIsDigest(e) && LinkIsDigest(f)
    ensures e.prevHash == f.prevHash
  {
    hide UuidText, TimestampText, IntText, CanonicalPayload, LinkToken;
    assert Tokens(rt, e).value[7] == Tokens(rt, f).value[7];
    LinkTokenInjective(e, f);
  }

  /**
   * A verified chain of recorder-shaped rows is the only chain that verifies and ends in its digest: any other one,
   * even with rows no recorder would write, has the same length and the same eight tokens row by row.
   */
  lemma {:induction false} HeadFixesTokens(rt: Runtime, a: seq<Row>, b: seq<Row>)
    requires rt.Lawful() && AllShaped(rt, a) && ChainSound(rt, a, false) && ChainSound(rt, b, false)
    requires a != [] && b != [] && a[|a| - 1].hash == b[|b| - 1].hash
    ensures SameTokens(rt, a, b) || HasCollision(rt, a, b)
    decreases |a|
  {
    hide Material, Tokens, RecorderShaped, LinkIsDigest, Collides;
    var m, n := |a| - 1, |b| - 1;
    var e, f := a[m].event, b[n].event;
    LinksAreDigests(rt, a, m);
    LinksAreDigests(rt, b, n);
    assert RowSound(rt, a, m, false) && RowSound(rt, b, n, false);
    if Material(rt, e) != Material(rt, f) {
      DifferentMaterialCollides(rt, e, f);
      assert HasCollision(rt, a, b);
    } else {
      MaterialFixesTokens(rt, e, f);
      MaterialHasTokens(rt, e);
      TokensFixLink(rt, e, f);
      if m > 0 && n > 0 {
        ChainRanges.TailDropUndetected(rt, a, false, m);
        ChainRanges.TailDropUndetected(rt, b, false, n);
        HeadFixesTokens(rt, a[..m], b[..n]);
        if HasCollision(rt, a[..m], b[..n]) {
          var i, j :| 0 <= i < m && 0 <= j < n && Collides(rt, a[..m][i].event, b[..n][j].event);
          assert Collides(rt, a[i].event, b[j].event);
        } else {
          ExtendSameTokens(rt, a, b);
        }
      }
    }
  }

  lemma MaterialHasTokens(rt: Runtime, e: Event)
    requires Material(rt, e).Ok?
    ensures Tokens(rt, e).Ok?
  {}

  lemma ExtendSameTokens(rt: Runtime, a: seq<Row>, b: seq<Row>)
    requires |a| > 0 && |b| > 0 && SameTokens(rt, a[..|a| - 1], b[..|b| - 1])
    requires Tokens(rt, a[|a| - 1].event) == Tokens(rt, b[|b| - 1].event) && a[|a| - 1].hash == b[|b| - 1].hash
    ensures SameTokens(rt, a, b)
  {
    hide Tokens;
    var m := |a| - 1;
    forall i | 0 <= i < m ensures Tokens(rt, a[i].event) == Tokens(rt, b[i].event) && a[i].hash == b[i].hash {
      assert a[..m][i] == a[i] && b[..m][i] == b[i];
    }
  }

  // ---------- the documented layout ----------

  /** A timestamp's digits by position, between the separators of ISO 8601. */
  lemma TimestampLayout(t: Instant)
    requires t.Utc?
    ensures var s := TimestampText(t);
            && |s| == 32 && s[4] == '-' && s[7] == '-' && s[10] == 'T' && s[13] == ':' && s[16] == ':' && s[19] == '.' && s[26..] == "+00:00"
            && s[..4] == Padded(t.year, 4) && s[5..7] == Padded(t.month, 2) && s[8..10] == Padded(t.day, 2)
            && s[11..13] == Padded(t.hour, 2) && s[14..16] == Padded(t.minute, 2) && s[17..19] == Padded(t.second, 2)
            && s[20..26] == Padded(t.micro, 6)
  {
    hide Padded;
    var s := TimestampText(t);
    assert s[..4] == Padded(t.year, 4) && s[5..7] == Padded(t.month, 2) && s[8..10] == Padded(t.day, 2);
    assert s[11..13] == Padded(t.hour, 2);
    assert s[14..16] == Padded(t.minute, 2);
    assert s[17..19] == Padded(t.second, 2);
    assert s[20..26] == Padded(t.micro, 6);
  }

  /** `s.split(sep)`. */
  function Split(sep: char, s: string): (parts: seq<string>)
    ensures parts != []
  {
    if s == "" then [""] else
    var rest := Split(sep, s[1..]);
    if s[0] == sep then [""] + rest else [[s[0]] + rest[0]] + rest[1..]
  }

  lemma {:induction false} SplitHead(sep: char, a: string, rest: string)
    requires sep !in a
    ensures Split(sep, a) == [a]
    ensures Split(sep, a + [sep] + rest) == [a] + Split(sep, rest)
  {
    var s := a + [sep] + rest;
    if a == "" {
      assert s[1..] == rest;
    } else {
      SplitHead(sep, a[1..], rest);
      assert s[1..] == a[1..] + [sep] + rest;
      assert a == [a[0]] + a[1..];
    }
  }

  lemma {:induction false} SplitJoin(sep: char, parts: seq<string>)
    requires parts != [] && FreeOf(sep, parts)
    ensures Split(sep, Join(sep, parts)) == parts
  {
    if |parts| == 1 {
      SplitHead(sep, parts[0], "");
    } else {
      SplitHead(sep, parts[0], Join(sep, parts[1..]));
      SplitJoin(sep, parts[1..]);
      assert parts == [parts[0]] + parts[1..];
    }
  }

  /**
   * The digest material of a recorder-shaped row, split at the separator: sequence, timestamp, actor, event type,
   * subject type, subject, canonical payload and link, in this order.
   */
  lemma MaterialFields(rt: Runtime, e: Event)
    requires rt.Lawful() && RecorderShaped(rt, e) && LinkIsDigest(e) && Material(rt, e).Ok?
    ensures e.occurredAt.Utc? && NormalisePayload(rt, e.payload).Ok?
    ensures Split(HASH_SEPARATOR, Material(rt, e).value) == [
              IntText(e.sequence),
              TimestampText(e.occurredAt),
              if e.actorId.Some? then UuidText(e.actorId.value) else if e.actorLabel.Some? then e.actorLabel.value else "",
              e.eventType,
              e.subjectType,
              UuidText(e.subjectId),
              Dumps(false, NormalisePayload(rt, e.payload).value),
              if e.prevHash.Some? then e.prevHash.value else "<null>"]
  {
    TokensFree(rt, e);
    UuidTextChars(e.subjectId);
    if e.actorId.Some? { UuidTextChars(e.actorId.value); }
    hide Join, Split, UuidText, IntText, TimestampText, Dumps, FreeOf, IsControlOrDelete;
    SplitJoin(HASH_SEPARATOR, Tokens(rt, e).value);
  }
}
