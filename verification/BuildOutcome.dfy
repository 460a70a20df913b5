/** Exactly which requests become an evidence bundle (audit/bundle.py). */
module BuildOutcome {
  import opened Prelude
  import opened Ordering
  import opened Json
  import opened Runtime
  import opened AuditChain
  import opened BundleChain
  import opened BundleEscapes
  import opened EvidenceBundle
  import opened BundleGuarantees

  // ---------- documents ----------

  /** Text that can be recorded as a reason: not blank, at most 2000 characters, no control characters but line breaks and tabs. */
  predicate ReasonFits(rt: Runtime, text: string)
  {
    var cleaned := rt.nfc(rt.Strip(text));
    && rt.Strip(text) != "" && |cleaned| <= 2000
    && forall i :: 0 <= i < |cleaned| ==> cleaned[i] >= ' ' || cleaned[i] == '\n' || cleaned[i] == '\r' || cleaned[i] == '\t'
  }

  /** The stream is complete, has no unusable chunk, and has the recorded size and digest. */
  predicate StreamServes(host: Host, doc: Document, stream: Stream)
  {
    stream.Open?
    && var data := Flatten(stream.chunks);
       && (forall c :: c in stream.chunks ==> c != []) && stream.ending.Complete?
       && (doc.byteSize.Some? ==> |data| == doc.byteSize.value)
       && (HashRecorded(doc) ==> host.rt.sha256(data) == doc.contentHash.value)
  }

  /** A document that is exported is served whole; any other one has a reason that can be recorded. */
  predicate DocumentFits(host: Host, store: Option<Store>, doc: Document)
  {
    if Exported(store, doc) then StreamServes(host, doc, store.value(doc.storageKey.value))
    else ReasonFits(host.rt, TextOr(doc.reason, AbsenceNote(store, doc)))
  }

  lemma DocumentIff(host: Host, store: Option<Store>, doc: Document)
    ensures WriteDocument(host, store, doc).Ok? <==> DocumentFits(host, store, doc)
  {
    hide Download, AbsenceNote, WriteExported, MissingRecord, MissingNote, CanonicalBytes, HashRecorded;
    if Exported(store, doc) {
      var stream := store.value(doc.storageKey.value);
      if stream.Open? { DownloadExact(host, doc, stream.chunks, stream.ending); }
    }
  }

  lemma {:induction false} DocumentsIff(host: Host, store: Option<Store>, docs: seq<Document>, seen: set<string>)
    ensures WriteAll(host, store, docs, seen).Ok? <==>
              && (forall d :: d in docs ==> DocumentFits(host, store, d))
              && DistinctBy(IdOf, docs) && forall d :: d in docs ==> d.id !in seen
    decreases |docs|
  {
    hide WriteDocument, DocumentFits, DistinctBy;
    if docs != [] {
      DocumentIff(host, store, docs[0]);
      DocumentsIff(host, store, docs[1..], seen + {docs[0].id});
      DistinctHead(IdOf, docs);
      assert forall d :: d in docs <==> d == docs[0] || d in docs[1..];
      IdInKeys(docs[1..], docs[0].id);
    } else {
      assert DistinctBy(IdOf, docs) by { NothingRepeats(); }
    }
  }

  lemma NothingRepeats()
    ensures DistinctBy(IdOf, [])
  {}

  lemma IdInKeys(docs: seq<Document>, id: string)
    ensures id in Keys(IdOf, docs) <==> exists d :: d in docs && d.id == id
  {
    if id in Keys(IdOf, docs) {
      var i :| 0 <= i < |docs| && IdOf(docs[i]) == id;
      assert docs[i] in docs;
    }
  }

  // ---------- the rows and their verdict ----------

  /** None of the seven required members is missing or null. */
  predicate RowComplete(row: map<string, Json>)
  {
    forall key :: key in REQUIRED_FIELDS ==> !Lookup(row, key).JNull?
  }

  lemma {:induction false} RowsIff(rows: seq<map<string, Json>>)
    ensures AuditRows(rows).Some? <==> forall row :: row in rows ==> RowComplete(row)
  {
    if rows != [] {
      RowsIff(rows[1..]);
      hide Lookup;
      assert AuditRow(rows[0]).Some? <==> RowComplete(rows[0]);
      assert forall row :: row in rows <==> row == rows[0] || row in rows[1..];
    }
  }

  /** A verdict that is passed in says whether the chain holds and, if it names a status, one of the two. */
  predicate VerdictFits(supplied: map<string, Json>)
  {
    Lookup(supplied, "verified").JBool?
    && ("status" in supplied ==> supplied["status"] == JString("verified") || supplied["status"] == JString("failed"))
  }

  lemma SuppliedIff(host: Host, supplied: map<string, Json>)
    ensures SuppliedVerdict(host, supplied).Ok? <==> VerdictFits(supplied)
  {}

  function RowsRead(host: Host, rows: seq<map<string, Json>>): (r: seq<Row>)
    requires forall row :: row in rows ==> ReadsAsRow(host, JObject(row))
    ensures |r| == |rows|
  {
    seq(|rows|, i requires 0 <= i < |rows| => RowOf(host, JObject(rows[i])))
  }

  /** Every row decodes, and no sequence below one is reached: what breaks the chain first is not such a row. */
  ghost predicate RowsCheck(host: Host, rows: seq<map<string, Json>>)
  {
    && (forall row :: row in rows ==> ReadsAsRow(host, JObject(row)))
    && forall i: nat :: FirstUnsound(host.rt, RowsRead(host, rows), false, i) ==> RowsRead(host, rows)[i].event.sequence >= 1
  }

  lemma ReadsAreDecoded(host: Host, rows: seq<map<string, Json>>)
    requires forall row :: row in rows ==> ReadsAsRow(host, JObject(row))
    ensures forall k :: 0 <= k < |rows| ==> Accepted(host, Mappings(rows)[k])
    ensures var decoded := DecodedItems(host, Mappings(rows)); AllDecoded(decoded) && Values(decoded) == RowsRead(host, rows)
  {
    hide ReadsAsRow, RowOf;
    var items := Mappings(rows);
    forall k | 0 <= k < |rows| ensures Accepted(host, items[k]) { assert rows[k] in rows; }
    assert forall k :: 0 <= k < |rows| ==> DecodedItems(host, items)[k] == Some(RowOf(host, JObject(rows[k])));
  }

  lemma ReadOrNot(host: Host, rows: seq<map<string, Json>>)
    ensures DecodeRows(host, Mappings(rows)).Rows? <==> forall row :: row in rows ==> ReadsAsRow(host, JObject(row))
  {
    hide ReadsAsRow;
    var items := Mappings(rows);
    DecodeRowsCases(host, items);
    hide DecodeRows;
    if DecodeRows(host, items).Rows? {
      forall row | row in rows ensures ReadsAsRow(host, JObject(row)) {
        var k :| 0 <= k < |rows| && rows[k] == row;
        assert Accepted(host, items[k]);
      }
    }
    if forall row :: row in rows ==> ReadsAsRow(host, JObject(row)) {
      forall k | 0 <= k < |items| ensures Accepted(host, items[k]) { assert rows[k] in rows; }
    }
  }

  lemma ComputedIff(host: Host, rows: seq<map<string, Json>>)
    ensures ComputedVerdict(host, rows).Ok? <==> RowsCheck(host, rows)
  {
    hide ReadsAsRow, VerdictJson, FirstUnsound;
    ReadOrNot(host, rows);
    if forall row :: row in rows ==> ReadsAsRow(host, JObject(row)) {
      DecodeRowsCases(host, Mappings(rows));
      ReadsAreDecoded(host, rows);
      var chain := RowsRead(host, rows);
      hide DecodeRows, RowsRead, Mappings, DecodedItems;
      UnboundedSelection(chain);
      ScanIsVerdict(host.rt, chain, 0, false);
      ScanRefuses(host, chain);
      hide Scan;
    }
  }

  lemma ScanRefuses(host: Host, rows: seq<Row>)
    ensures Scan(host.rt, rows, 0, false).ValueError? <==>
              exists i: nat :: FirstUnsound(host.rt, rows, false, i) && rows[i].event.sequence < 1
  {
    hide Scan, RowSound, Describes;
    ScanIsVerdict(host.rt, rows, 0, false);
  }

  // ---------- the build ----------

  /** What a request must be to become a bundle. */
  ghost predicate Buildable(host: Host, req: Request)
  {
    && host.rt.Strip(req.bundleId) != ""
    && (forall row :: row in req.rows ==> RowComplete(row))
    && (if req.supplied.Some? then VerdictFits(req.supplied.value) else RowsCheck(host, req.rows))
    && ResolvedVerdict(host, req).Ok? && 1 <= |req.render(ResolvedVerdict(host, req).value)| <= 8_388_608
    && DistinctBy(IdOf, req.documents)
    && forall d :: d in req.documents ==> DocumentFits(host, req.store, d)
  }

  /**
   * A bundle is built exactly for a named bundle with complete rows that decode, or a well-formed verdict, a rendering
   * of one byte to eight mebibytes, and documents of different ids each of which is served whole or has a reason.
   */
  lemma BuiltIff(host: Host, req: Request)
    ensures Built(host, req).Ok? <==> Buildable(host, req)
  {
    hide WriteAll, ComputedVerdict, SuppliedVerdict, AuditRows, SortBy, Assemble, Files, DocumentFits, DistinctBy, RowsCheck, RowComplete,
         VerdictFits, AuditJson;
    var docs := SortBy(IdOf, req.documents);
    RowsIff(req.rows);
    if req.supplied.Some? { SuppliedIff(host, req.supplied.value); } else { ComputedIff(host, req.rows); }
    DocumentsIff(host, req.store, docs, {});
    PermutedDistinct(IdOf, req.documents, docs);
    forall d ensures d in docs <==> d in req.documents { SortMembers(IdOf, req.documents, d); }
  }
}
