/** Building an evidence bundle: the files, the manifest that lists them and its digest (audit/bundle.py). */
module EvidenceBundle {
  import opened Prelude
  import opened Ordering
  import opened Json
  import opened Runtime
  import opened AuditChain
  import opened BundlePaths
  import opened BundleChain
  import Utf8

  const SCHEMA_VERSION := 1
  const MAX_PDF_BYTES := 8 * 1024 * 1024
  const MAX_REASON_LENGTH := 2000

  /** A ZIP archive is the list of its files, in the order they were written. */
  datatype Entry = Entry(name: string, data: Bytes)

  type Archive = seq<Entry>

  datatype Status = Present | Purged | Absent

  datatype Document = Document(
    id: string,
    filename: string,
    storageKey: Option<string>,
    contentHash: Option<string>,
    status: Status,
    reason: Option<string>,
    byteSize: Option<nat>)

  /** How a document's byte stream ends. */
  datatype Ending = Complete | Vanished | Failed

  /** What a document store answers; an empty chunk stands for an empty or a non-binary one. */
  datatype Stream = NotFound | Unavailable | Open(chunks: seq<Bytes>, ending: Ending)

  type Store = string -> Stream

  datatype BuildError =
    | BadIdentifier
    | MissingRowField
    | BadRow
    | BadVerdict
    | BadPdf
    | PdfTooLarge
    | DuplicateDocument(id: string)
    | BadReason
    | StorageFailed
    | BadChunk
    | SizeExceeded
    | Disappeared
    | SizeChanged
    | ContentChanged

  datatype Request = Request(
    reconstruction: Json,
    forecastId: string,
    documents: seq<Document>,
    store: Option<Store>,
    rows: seq<map<string, Json>>,
    supplied: Option<map<string, Json>>,
    bundleId: string,
    createdAt: string,
    render: Json -> Bytes)

  datatype Bundle = Bundle(archive: Archive, bundleId: string, manifestHash: string)

  /** One file, its line in the manifest and, for a document that is not exported, its record there. */
  datatype Written = Written(entry: Entry, listing: Json, missing: Option<Json>)

  /** `_canonical_json_bytes`. */
  function CanonicalBytes(j: Json): Bytes
  {
    Utf8.Encode(Dumps(false, j))
  }

  // ---------- documents ----------

  /** The chunks joined; reading stops at the first unusable chunk or once the recorded size is exceeded. */
  function Gather(limit: Option<nat>, chunks: seq<Bytes>, read: Bytes): Result<Bytes, BuildError>
    decreases |chunks|
  {
    if chunks == [] then Ok(read)
    else if chunks[0] == [] then Err(BadChunk)
    else if limit.Some? && |read + chunks[0]| > limit.value then Err(SizeExceeded)
    else Gather(limit, chunks[1..], read + chunks[0])
  }

  /** The checks made once the stream has ended. */
  function Download(host: Host, doc: Document, chunks: seq<Bytes>, ending: Ending): Result<Bytes, BuildError>
  {
    match Gather(doc.byteSize, chunks, [])
    case Err(e) => Err(e)
    case Ok(data) =>
      match ending
      case Vanished => Err(Disappeared)
      case Failed => Err(StorageFailed)
      case Complete =>
        if doc.byteSize.Some? && |data| != doc.byteSize.value then Err(SizeChanged)
        else if HashRecorded(doc) && host.rt.sha256(data) != doc.contentHash.value then Err(ContentChanged)
        else Ok(data)
  }

  predicate HashRecorded(doc: Document)
  {
    doc.contentHash.Some? && IsDigest(doc.contentHash.value)
  }

  method StreamDocument(host: Host, doc: Document, chunks: seq<Bytes>, ending: Ending)
      returns (r: Result<Bytes, BuildError>)
    ensures r == Download(host, doc, chunks, ending)
  {
    var written: Bytes := [];
    var size := 0;
    assert chunks[0..] == chunks;
    for i := 0 to |chunks|
      invariant size == |written|
      invariant Gather(doc.byteSize, chunks, []) == Gather(doc.byteSize, chunks[i..], written)
    {
      var chunk := chunks[i];
      assert chunks[i..][0] == chunk && chunks[i..][1..] == chunks[i + 1..];
      if chunk == [] { return Err(BadChunk); }
      size := size + |chunk|;
      if doc.byteSize.Some? && size > doc.byteSize.value { return Err(SizeExceeded); }
      written := written + chunk;
    }
    match ending
    case Vanished => return Err(Disappeared);
    case Failed => return Err(StorageFailed);
    case Complete =>
      if doc.byteSize.Some? && size != doc.byteSize.value { return Err(SizeChanged); }
      if HashRecorded(doc) && host.rt.sha256(written) != doc.contentHash.value { return Err(ContentChanged); }
      return Ok(written);
  }

  /** `value or default` for optional text. */
  function TextOr(t: Option<string>, default: string): string
  {
    if t.Some? && t.value != "" then t.value else default
  }

  /** `_bounded_text`. */
  function BoundedText(rt: Runtime, text: string, maximum: nat): Result<string, BuildError>
  {
    var cleaned := rt.nfc(rt.Strip(text));
    if rt.Strip(text) == "" || |cleaned| > maximum then Err(BadReason)
    else if exists i :: 0 <= i < |cleaned| && IsControl(cleaned[i]) && cleaned[i] !in "\n\r\t" then Err(BadReason)
    else Ok(cleaned)
  }

  function MissingRecord(doc: Document, reason: string): Json
  {
    JObject(map[
      "status" := JString("absent"),
      "document_id" := JString(doc.id),
      "filename" := JString(doc.filename),
      "content_hash" := OptionalText(doc.contentHash),
      "storage_key" := OptionalText(doc.storageKey),
      "reason" := JString(reason)])
  }

  function MissingNote(doc: Document, reason: string): Json
  {
    JObject(map[
      "document_id" := JString(doc.id),
      "filename" := JString(doc.filename),
      "status" := JString("absent"),
      "reason" := JString(reason),
      "record_path" := JString(MissingPath(doc.id))])
  }

  /** `_write_missing_document`. */
  function WriteMissing(host: Host, doc: Document, reason: string): Result<Written, BuildError>
  {
    match BoundedText(host.rt, reason, MAX_REASON_LENGTH)
    case Err(e) => Err(e)
    case Ok(text) =>
      var content := CanonicalBytes(MissingRecord(doc, text));
      Ok(Written(
        Entry(MissingPath(doc.id), content),
        JObject(map[
          "path" := JString(MissingPath(doc.id)),
          "status" := JString("absent"),
          "sha256" := JString(host.rt.sha256(content)),
          "size" := JInt(|content|),
          "document_id" := JString(doc.id),
          "filename" := JString(doc.filename),
          "reason" := JString(text)]),
        Some(MissingNote(doc, text))))
  }

  /** The note used when the document gives no reason of its own for not being exported. */
  function AbsenceNote(store: Option<Store>, doc: Document): string
  {
    match doc.status
    case Purged => "Document is recorded as purged."
    case Absent => "Document is recorded as absent."
    case Present =>
      if TextOr(doc.storageKey, "") == "" then "Document has no storage key."
      else if store.None? then "Document storage is not configured for this export."
      else "Referenced document is missing from storage."
  }

  /** Is there a stream of bytes to export for this document? */
  predicate Exported(store: Option<Store>, doc: Document)
  {
    doc.status.Present? && TextOr(doc.storageKey, "") != "" && store.Some? && !store.value(doc.storageKey.value).NotFound?
  }

  function WriteExported(host: Host, doc: Document, data: Bytes): Written
  {
    var path := DocumentPath(doc.id, host.baseName(doc.filename));
    var digest := host.rt.sha256(data);
    Written(
      Entry(path, data),
      JObject(map[
        "path" := JString(path),
        "status" := JString("present"),
        "sha256" := JString(digest),
        "size" := JInt(|data|),
        "document_id" := JString(doc.id),
        "filename" := JString(doc.filename),
        "content_hash" := JString(TextOr(doc.contentHash, digest))]),
      None)
  }

  /** `_write_document_entry`. */
  function WriteDocument(host: Host, store: Option<Store>, doc: Document): Result<Written, BuildError>
  {
    if !Exported(store, doc) then WriteMissing(host, doc, TextOr(doc.reason, AbsenceNote(store, doc))) else
    match store.value(doc.storageKey.value)
    case Unavailable => Err(StorageFailed)
    case Open(chunks, ending) =>
      match Download(host, doc, chunks, ending)
      case Err(e) => Err(e)
      case Ok(data) => Ok(WriteExported(host, doc, data))
  }

  method StoreDocument(host: Host, store: Option<Store>, doc: Document) returns (r: Result<Written, BuildError>)
    ensures r == WriteDocument(host, store, doc)
  {
    hide Download, BoundedText, WriteExported;
    if !doc.status.Present? || TextOr(doc.storageKey, "") == "" || store.None? {
      r := WriteMissing(host, doc, TextOr(doc.reason, AbsenceNote(store, doc)));
    } else {
      match store.value(doc.storageKey.value)
      case NotFound => r := WriteMissing(host, doc, TextOr(doc.reason, AbsenceNote(store, doc)));
      case Unavailable => r := Err(StorageFailed);
      case Open(chunks, ending) =>
        var data := StreamDocument(host, doc, chunks, ending);
        r := match data case Err(e) => Err(e) case Ok(bytes) => Ok(WriteExported(host, doc, bytes));
    }
  }

  /** The documents in turn; an identifier may occur only once. */
  function WriteAll(host: Host, store: Option<Store>, docs: seq<Document>, seen: set<string>): (r: Result<seq<Written>, BuildError>)
    ensures r.Ok? ==> |r.value| == |docs|
    decreases |docs|
  {
    if docs == [] then Ok([])
    else if docs[0].id in seen then Err(DuplicateDocument(docs[0].id)) else
    match WriteDocument(host, store, docs[0])
    case Err(e) => Err(e)
    case Ok(first) =>
      match WriteAll(host, store, docs[1..], seen + {docs[0].id})
      case Err(e) => Err(e)
      case Ok(rest) => Ok([first] + rest)
  }

  // ---------- the audit chain ----------

  function AuditRows(rows: seq<map<string, Json>>): (r: Option<seq<Json>>)
    ensures r.Some? ==> |r.value| == |rows|
  {
    if rows == [] then Some([]) else
    var first := AuditRow(rows[0]);
    var rest := AuditRows(rows[1..]);
    if first.None? || rest.None? then None else Some([JObject(first.value)] + rest.value)
  }

  function Mappings(rows: seq<map<string, Json>>): (r: seq<Json>)
    ensures |r| == |rows|
  {
    seq(|rows|, i requires 0 <= i < |rows| => JObject(rows[i]))
  }

  /** `_normalise_chain_verification`. */
  function SuppliedVerdict(host: Host, supplied: map<string, Json>): Result<Json, BuildError>
  {
    var verified := Lookup(supplied, "verified");
    if !verified.JBool? then Err(BadVerdict) else
    var status :=
      if "status" in supplied then supplied["status"] else JString(if verified.flag then "verified" else "failed");
    if status != JString("verified") && status != JString("failed") then Err(BadVerdict) else
    var message := Lookup(supplied, "message");
    var text :=
      if Truthy(host, message) then StrOf(host, message)
      else if verified.flag then "Audit chain verified." else "Audit chain verification failed.";
    var verdict := map[
      "verified" := verified, "status" := status, "failure" := Lookup(supplied, "failure"), "message" := JString(text)];
    Ok(JObject(if "range" in supplied then verdict["range" := supplied["range"]] else verdict))
  }

  /** The verdict on the rows themselves. */
  function ComputedVerdict(host: Host, rows: seq<map<string, Json>>): Result<Json, BuildError>
  {
    match DecodeRows(host, Mappings(rows))
    case RowsUndecodable => Err(BadRow)
    case RowsOverflow => Err(BadRow)
    case Rows(decoded) =>
      match CheckRows(host, decoded, None, None)
      case Checked(report) => Ok(VerdictJson(host, report))
      case Refused => Err(BadRow)
      case Escapes => Err(BadRow)
  }

  function ResolvedVerdict(host: Host, req: Request): Result<Json, BuildError>
  {
    match req.supplied
    case Some(supplied) => SuppliedVerdict(host, supplied)
    case None => ComputedVerdict(host, req.rows)
  }

  function AuditJson(rows: seq<Json>, resolved: Json): Json
  {
    JObject(map[
      "schema_version" := JInt(1),
      "rows" := JArray(rows),
      "range" := if resolved.JObject? then Lookup(resolved.fields, "range") else JNull,
      "verification" := resolved,
      "verification_result" := resolved])
  }

  /** `_audit_payload`: the chain file and the verdict that the manifest repeats. */
  function AuditPayloadOf(host: Host, req: Request): Result<(Json, Json), BuildError>
  {
    match AuditRows(req.rows)
    case None => Err(MissingRowField)
    case Some(rows) =>
      match ResolvedVerdict(host, req)
      case Err(e) => Err(e)
      case Ok(resolved) => Ok((AuditJson(rows, resolved), resolved))
  }

  lemma {:induction false} MappingsDecode(host: Host, rows: seq<map<string, Json>>)
    ensures var d := DecodeRows(host, Mappings(rows)); d.Rows? ==> AllDecoded(d.rows)
  {
    hide DecodeRow;
    if rows != [] {
      MappingDecodes(host, rows[0]);
      MappingsDecode(host, rows[1..]);
      assert Mappings(rows)[1..] == Mappings(rows[1..]);
    }
  }

  lemma MappingDecodes(host: Host, row: map<string, Json>)
    ensures !DecodeRow(host, JObject(row)).Foreign?
  {
    hide StrOf, Truthy, CastInt;
  }

  lemma UnboundedSelection(rows: seq<Row>)
    ensures Selected(rows, None, None) == rows
  {
    if rows != [] { UnboundedSelection(rows[1..]); }
  }

  method VerifyMappings(host: Host, rows: seq<map<string, Json>>) returns (r: Result<Json, BuildError>)
    ensures r == ComputedVerdict(host, rows)
  {
    hide Scan, DecodeRows, VerdictJson, IsVerdict;
    MappingsDecode(host, rows);
    var decoded := DecodeRows(host, Mappings(rows));
    if !decoded.Rows? { return Err(BadRow); }
    if rows == [] { return Ok(VerdictJson(host, None)); }
    var chain := Values(decoded.rows);
    var v := VerifyChain(host.rt, chain, None, None);
    UnboundedSelection(chain);
    ScanIsVerdict(host.rt, chain, 0, false);
    VerdictUnique(host.rt, chain, false, v, Scan(host.rt, chain, 0, false));
    match v
    case Verified => r := Ok(VerdictJson(host, None));
    case Broken(fault) => r := Ok(VerdictJson(host, Some(fault)));
    case ValueError => r := Err(BadRow);
  }

  // ---------- the bundle ----------

  function WriteBytes(host: Host, path: string, data: Bytes): Written
  {
    Written(
      Entry(path, data),
      JObject(map[
        "path" := JString(path),
        "status" := JString("present"),
        "sha256" := JString(host.rt.sha256(data)),
        "size" := JInt(|data|)]),
      None)
  }

  function Entries(files: seq<Written>): (r: Archive)
    ensures |r| == |files|
  {
    seq(|files|, i requires 0 <= i < |files| => files[i].entry)
  }

  function NameOf(w: Written): string { w.entry.name }

  function Listings(files: seq<Written>): (r: seq<Json>)
    ensures |r| == |files|
  {
    var sorted := SortBy(NameOf, files);
    assert |sorted| == |multiset(sorted)| == |multiset(files)|;
    seq(|files|, i requires 0 <= i < |files| => sorted[i].listing)
  }

  function MissingNotes(files: seq<Written>): seq<Json>
  {
    if files == [] then []
    else (if files[0].missing.Some? then [files[0].missing.value] else []) + MissingNotes(files[1..])
  }

  function ManifestBase(req: Request, resolved: Json, listings: seq<Json>, notes: seq<Json>): map<string, Json>
  {
    map[
      "schema_version" := JInt(SCHEMA_VERSION),
      "bundle_id" := JString(req.bundleId),
      "forecast_id" := JString(req.forecastId),
      "created_at" := JString(req.createdAt),
      "hash_algorithm" := JString("sha256"),
      "files" := JArray(listings),
      "missing_documents" := JArray(notes),
      "chain_verification" := resolved]
  }

  function ManifestFile(digest: string): Json
  {
    JObject(map[
      "path" := JString(MANIFEST_PATH),
      "sha256" := JString(digest),
      "hash_scope" := JString("canonical_manifest_without_hash_metadata")])
  }

  /** The manifest together with the digest of everything else in it. */
  function Sealed(host: Host, base: map<string, Json>): map<string, Json>
  {
    var digest := host.rt.sha256(CanonicalBytes(JObject(base)));
    base["manifest_hash" := JString(digest)]["manifest_file" := ManifestFile(digest)]
  }

  /** The three fixed files and the documents, in the order they are written. */
  function Files(host: Host, req: Request, audit: Json, pdf: Bytes, documents: seq<Written>): seq<Written>
  {
    [WriteBytes(host, RECONSTRUCTION_PATH, CanonicalBytes(req.reconstruction)),
     WriteBytes(host, PDF_PATH, pdf),
     WriteBytes(host, AUDIT_PATH, CanonicalBytes(audit))] + documents
  }

  function Assemble(host: Host, req: Request, resolved: Json, files: seq<Written>): Bundle
  {
    var base := ManifestBase(req, resolved, Listings(files), MissingNotes(files));
    Bundle(
      Entries(files) + [Entry(MANIFEST_PATH, CanonicalBytes(JObject(Sealed(host, base))))],
      req.bundleId,
      host.rt.sha256(CanonicalBytes(JObject(base))))
  }

  function IdOf(doc: Document): string { doc.id }

  /** `build_bundle`. */
  function Built(host: Host, req: Request): Result<Bundle, BuildError>
  {
    if host.rt.Strip(req.bundleId) == "" then Err(BadIdentifier) else
    match AuditPayloadOf(host, req)
    case Err(e) => Err(e)
    case Ok((audit, resolved)) =>
      var pdf := req.render(resolved);
      if pdf == [] then Err(BadPdf)
      else if |pdf| > MAX_PDF_BYTES then Err(PdfTooLarge) else
      match WriteAll(host, req.store, SortBy(IdOf, req.documents), {})
      case Err(e) => Err(e)
      case Ok(documents) => Ok(Assemble(host, req, resolved, Files(host, req, audit, pdf, documents)))
  }

  /** The loop over the sorted documents. */
  method WriteDocuments(host: Host, store: Option<Store>, documents: seq<Document>)
      returns (r: Result<seq<Written>, BuildError>)
    ensures r == WriteAll(host, store, documents, {})
  {
    hide WriteDocument;
    var files: seq<Written> := [];
    var seen: set<string> := {};
    assert documents[0..] == documents && forall rest: seq<Written> :: files + rest == rest;
    for i := 0 to |documents|
      invariant WriteAll(host, store, documents, {})
             == match WriteAll(host, store, documents[i..], seen) case Err(e) => Err(e) case Ok(rest) => Ok(files + rest)
    {
      var doc := documents[i];
      assert documents[i..][0] == doc && documents[i..][1..] == documents[i + 1..];
      if doc.id in seen { return Err(DuplicateDocument(doc.id)); }
      seen := seen + {doc.id};
      var written := StoreDocument(host, store, doc);
      if written.Err? { return Err(written.error); }
      assert forall rest: seq<Written> :: files + ([written.value] + rest) == (files + [written.value]) + rest;
      files := files + [written.value];
    }
    assert documents[|documents|..] == [] && files + [] == files;
    return Ok(files);
  }

  method BuildBundle(host: Host, req: Request) returns (r: Result<Bundle, BuildError>)
    ensures r == Built(host, req)
  {
    hide WriteDocument, ComputedVerdict, SuppliedVerdict, Assemble, AuditJson, WriteBytes;
    if host.rt.Strip(req.bundleId) == "" { return Err(BadIdentifier); }
    var rows := AuditRows(req.rows);
    if rows.None? { return Err(MissingRowField); }
    var verdict: Result<Json, BuildError>;
    if req.supplied.Some? {
      verdict := SuppliedVerdict(host, req.supplied.value);
    } else {
      verdict := VerifyMappings(host, req.rows);
    }
    if verdict.Err? { return Err(verdict.error); }
    var resolved := verdict.value;
    var pdf := req.render(resolved);
    if pdf == [] { return Err(BadPdf); }
    if |pdf| > MAX_PDF_BYTES { return Err(PdfTooLarge); }

    var documents := WriteDocuments(host, req.store, SortBy(IdOf, req.documents));
    if documents.Err? { return Err(documents.error); }
    return Ok(Assemble(host, req, resolved, Files(host, req, AuditJson(rows.value, resolved), pdf, documents.value)));
  }
}
