/** Which tokens the cursor decoder accepts, and why it refuses the others (api/pagination.py). */
module CursorAuthenticity {
  import opened Prelude
  import opened Json
  import opened Runtime
  import opened CursorToken
  import opened KeysetPaging
  import Base64Url
  import Utf8

  // ---------- the parts of a token ----------

  predicate Splits(token: string, body: string, signature: string)
  {
    token == body + "." + signature && '.' !in body && '.' !in signature
  }

  lemma SplitIff(token: string, body: string, signature: string)
    ensures SplitInTwo(token) == Some((body, signature)) <==> Splits(token, body, signature)
  {
    if SplitInTwo(token) == Some((body, signature)) {
      var i := FirstDot(token);
      assert token == token[..i] + "." + token[i + 1..];
      var one :| 0 <= one < |token| && token[one] == '.' && forall k :: 0 <= k < |token| && k != one ==> token[k] != '.';
      assert one == i;
      assert forall k :: 0 <= k < |signature| ==> signature[k] == token[i + 1 + k];
    }
    if Splits(token, body, signature) { SplitJoined(body, signature); }
  }

  /** A payload with exactly the four members, version one, and the cursor's fields. */
  predicate SaysCursor(rt: Runtime, j: Json, c: Cursor)
  {
    && j.JObject? && j.fields.Keys == {"v", "primary", "id", "filters_digest"}
    && (j.fields[VERSION_KEY] == JInt(1) || j.fields[VERSION_KEY] == JBool(true) || j.fields[VERSION_KEY] == JFloat("1.0"))
    && j.fields[PRIMARY_KEY] == JString(c.primary) && j.fields[FILTERS_KEY] == JString(c.filtersDigest)
    && j.fields[ID_KEY].JString? && rt.parseUuid(j.fields[ID_KEY].text) == Some(c.id)
    && 1 <= |c.primary| <= 64 && IsDigest(c.filtersDigest)
  }

  lemma FromPayloadIff(rt: Runtime, j: Json, c: Cursor)
    ensures FromPayload(rt, j) == Ok(c) <==> SaysCursor(rt, j, c)
  {
    KeyFacts();
    assert {"v", "primary", "id", "filters_digest"} == {VERSION_KEY, PRIMARY_KEY, ID_KEY, FILTERS_KEY};
    hide FILTERS_KEY, ID_KEY, PRIMARY_KEY, VERSION_KEY;
  }

  /** The text that a body encodes, read as JSON. */
  function Content(signer: Signer, body: string): Option<Json>
  {
    match Base64Url.Decode(body)
    case None => None
    case Some(bytes) => match Utf8.Decode(bytes) case None => None case Some(text) => Loads(signer.repr, text)
  }

  predicate Signed(signer: Signer, body: string, signature: string)
  {
    Base64Url.Decode(signature) == Some(signer.hmac(Utf8.Encode(body)))
  }

  predicate Legible(token: string, body: string, signature: string)
  {
    && 1 <= |token| <= 512 && Splits(token, body, signature)
    && Base64Url.Decode(body).Some? && Base64Url.Decode(signature).Some?
  }

  /** Decoding a token that splits, in terms of its parts. */
  lemma DecodeParts(rt: Runtime, signer: Signer, token: string, body: string, signature: string)
    requires Splits(token, body, signature)
    ensures Decode(rt, signer, token)
         == if !Legible(token, body, signature) then Err(Malformed)
            else if !Signed(signer, body, signature) then Err(NotAuthentic)
            else match Content(signer, body) case None => Err(MalformedPayload) case Some(j) => FromPayload(rt, j)
  {
    hide Base64Url.Decode, Utf8.Decode, Utf8.Encode, Loads, FromPayload, SplitInTwo;
    SplitIff(token, body, signature);
  }

  lemma NoParts(rt: Runtime, signer: Signer, token: string)
    requires SplitInTwo(token).None?
    ensures Decode(rt, signer, token) == Err(Malformed)
  {}

  /**
   * A token decodes to a cursor exactly when it is two dot-free parts within the length limit, the second one is the
   * keyed digest of the first, and the first says the cursor.
   */
  lemma DecodeIff(rt: Runtime, signer: Signer, token: string, c: Cursor)
    ensures Decode(rt, signer, token) == Ok(c) <==>
              exists body, signature :: Legible(token, body, signature) && Signed(signer, body, signature)
                && Content(signer, body).Some? && SaysCursor(rt, Content(signer, body).value, c)
  {
    hide Decode, Legible, Signed, Content, SaysCursor, SplitInTwo, FromPayload;
    if exists body, signature :: Legible(token, body, signature) && Signed(signer, body, signature)
         && Content(signer, body).Some? && SaysCursor(rt, Content(signer, body).value, c)
    {
      var body, signature :| Legible(token, body, signature) && Signed(signer, body, signature)
        && Content(signer, body).Some? && SaysCursor(rt, Content(signer, body).value, c);
      LegibleSplits(token, body, signature);
      DecodeParts(rt, signer, token, body, signature);
      FromPayloadIff(rt, Content(signer, body).value, c);
    }
    if Decode(rt, signer, token) == Ok(c) {
      if SplitInTwo(token).None? { NoParts(rt, signer, token); }
      var (body, signature) := SplitInTwo(token).value;
      SplitIff(token, body, signature);
      DecodeParts(rt, signer, token, body, signature);
      FromPayloadIff(rt, Content(signer, body).value, c);
    }
  }

  lemma LegibleSplits(token: string, body: string, signature: string)
    requires Legible(token, body, signature)
    ensures Splits(token, body, signature)
  {}

  /** Every accepted token carries the keyed digest of its body; so does every one refused for what its body says. */
  lemma OnlySignedIsRead(rt: Runtime, signer: Signer, token: string)
    requires Decode(rt, signer, token) != Err(Malformed) && Decode(rt, signer, token) != Err(NotAuthentic)
    ensures exists body, signature :: Legible(token, body, signature) && Signed(signer, body, signature)
  {
    hide Decode, Legible, Signed, Content, SplitInTwo, FromPayload;
    if SplitInTwo(token).None? { NoParts(rt, signer, token); }
    var (body, signature) := SplitInTwo(token).value;
    SplitIff(token, body, signature);
    DecodeParts(rt, signer, token, body, signature);
  }

  /** A legible token is called not authentic exactly when its second part is not the keyed digest of the first. */
  lemma NotAuthenticIff(rt: Runtime, signer: Signer, token: string)
    ensures Decode(rt, signer, token) == Err(NotAuthentic) <==>
              exists body, signature :: Legible(token, body, signature) && !Signed(signer, body, signature)
  {
    hide Decode, Legible, Signed, Content, SplitInTwo, FromPayload;
    if exists body, signature :: Legible(token, body, signature) && !Signed(signer, body, signature) {
      var body, signature :| Legible(token, body, signature) && !Signed(signer, body, signature);
      LegibleSplits(token, body, signature);
      DecodeParts(rt, signer, token, body, signature);
    }
    if Decode(rt, signer, token) == Err(NotAuthentic) {
      if SplitInTwo(token).None? { NoParts(rt, signer, token); }
      var (body, signature) := SplitInTwo(token).value;
      SplitIff(token, body, signature);
      DecodeParts(rt, signer, token, body, signature);
      PayloadErrors(rt, Content(signer, body));
    }
  }

  lemma PayloadErrors(rt: Runtime, content: Option<Json>)
    ensures content.Some? ==> FromPayload(rt, content.value) != Err(NotAuthentic) && FromPayload(rt, content.value) != Err(Malformed)
  {}

  /** The body of an issued token replaced, under the same signature: refused, unless the keyed digest collides. */
  lemma TamperedRefused(rt: Runtime, signer: Signer, c: Cursor, body: string)
    requires signer.Lawful() && c.Valid() && '.' !in body && body != Body(c)
    ensures var signature := Base64Url.Encode(signer.hmac(Utf8.Encode(Body(c))));
            Encode(signer, c) == Body(c) + "." + signature
            && (Decode(rt, signer, body + "." + signature).Ok? ==>
                  signer.hmac(Utf8.Encode(body)) == signer.hmac(Utf8.Encode(Body(c))) && Utf8.Encode(body) != Utf8.Encode(Body(c)))
  {
    hide Decode, Body, Base64Url.Encode, Base64Url.Decode, Utf8.Encode, Content, FromPayload;
    var signature := Base64Url.Encode(signer.hmac(Utf8.Encode(Body(c))));
    SignaturePlain(signer, c);
    DecodeParts(rt, signer, body + "." + signature, body, signature);
    Base64Url.DecodeEncode(signer.hmac(Utf8.Encode(Body(c))));
    if Utf8.Encode(body) == Utf8.Encode(Body(c)) { Utf8.EncodeInjective(body, Body(c)); }
  }

  lemma SignaturePlain(signer: Signer, c: Cursor)
    ensures '.' !in Base64Url.Encode(signer.hmac(Utf8.Encode(Body(c))))
  {
    hide Body, Base64Url.Encode, Utf8.Encode;
    Base64Url.EncodeAlphabet(signer.hmac(Utf8.Encode(Body(c))));
  }

  /** Any other signature on an issued body is refused. */
  lemma ForgedRefused(rt: Runtime, signer: Signer, c: Cursor, forged: Bytes)
    requires signer.Lawful() && c.Valid() && forged != signer.hmac(Utf8.Encode(Body(c)))
    ensures Decode(rt, signer, Body(c) + "." + Base64Url.Encode(forged)).Err?
  {
    hide Decode, Body, Base64Url.Encode, Base64Url.Decode, Utf8.Encode, Content, FromPayload;
    var signature := Base64Url.Encode(forged);
    Base64Url.EncodeAlphabet(forged);
    BodyPlain(c);
    DecodeParts(rt, signer, Body(c) + "." + signature, Body(c), signature);
    if forged != [] { Base64Url.DecodeEncode(forged); } else { NothingDecodes(); }
  }

  lemma NothingDecodes()
    ensures Base64Url.Decode(Base64Url.Encode([])).None?
  {}

  lemma BodyPlain(c: Cursor)
    ensures '.' !in Body(c)
  {
    hide Base64Url.Encode, Utf8.Encode, Dumps;
    Base64Url.EncodeAlphabet(Utf8.Encode(Dumps(true, Payload(c))));
  }

  // ---------- what paging answers ----------

  /** The three ways a request is refused, and what they say about the token. */
  lemma PaginateRefusals(res: Resource, table: Table, cursor: Option<string>)
    ensures Paginate(res, table, cursor) == Err(BadPageSize) <==> !(1 <= res.pageSize <= 200)
    ensures 1 <= res.pageSize <= 200 ==>
              (Paginate(res, table, cursor) == Err(StaleFilters) <==>
                 cursor.Some? && exists c :: Decode(res.rt, res.signer, cursor.value) == Ok(c) && c.filtersDigest != res.digest)
    ensures 1 <= res.pageSize <= 200 ==> forall e ::
              (Paginate(res, table, cursor) == Err(BadCursor(e)) <==>
                 cursor.Some? && Decode(res.rt, res.signer, cursor.value) == Err(e))
  {
    hide Decode, Matching, Encode;
  }

  /** A token issued for other filters is refused as stale. */
  lemma OtherFiltersStale(res: Resource, table: Table, r: Row, digest: string)
    requires res.Lawful() && IsDigest(digest) && digest != res.digest
    ensures Paginate(res, table, TokenOf(res.(digest := digest), Some(r))) == Err(StaleFilters)
  {
    hide Decode, Encode, Matching;
    TokenRoundTrip(res.(digest := digest), r);
  }
}
