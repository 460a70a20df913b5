/** The two promises of the evidence bundle: what is built verifies, and a verified manifest digest binds every file. */
module BundleTheorems {
  import opened Prelude
  import opened Ordering
  import opened Json
  import opened JsonRoundTrip
  import opened Runtime
  import opened BundlePaths
  import opened BundleChain
  import opened EvidenceBundle
  import opened BundleVerifier
  import opened BundleGuarantees
  import Utf8

  // ---------- when a built archive verifies ----------

  /** The verifier's size limits. */
  predicate WithinLimits(a: Archive)
  {
    |a| <= MAX_ARCHIVE_FILES && TotalSize(a) <= MAX_ARCHIVE_BYTES && ManifestFits(a)
  }

  predicate DistinctPaths(host: Host, req: Request)
  {
    DistinctBy((d: Document) => PathOf(host, req.store, d), req.documents)
  }

  /** Verifying the exported rows again, over the recorded range, gives the verdict that was recorded. */
  predicate VerdictHolds(host: Host, req: Request)
    requires Built(host, req).Ok?
  {
    var p := PartsOf(host, req);
    EmbeddedChain(host, p.audit).Checked? && Records(host, p.resolved, EmbeddedChain(host, p.audit).report.None?)
  }

  /** A file that lists itself under a safe name. */
  predicate Presentable(host: Host, w: Written)
  {
    && ListsItself(host, w) && ValidPath(w.entry.name) && w.entry.name != MANIFEST_PATH
    && (w.missing.Some? ==> FloatsExact(host.floatRepr, w.missing.value))
  }

  lemma FixedPresentable(host: Host, path: string, data: Bytes)
    requires path == RECONSTRUCTION_PATH || path == PDF_PATH || path == AUDIT_PATH
    ensures Presentable(host, WriteBytes(host, path, data))
  {
    hide ListsItself, ValidPath;
    BytesListed(host, path, data);
    FixedPathsValid();
    FixedNames();
  }

  /** Every file of a successful build lists itself, and names are safe. */
  lemma BuiltFiles(host: Host, req: Request)
    requires Built(host, req).Ok?
    ensures var p := PartsOf(host, req);
            |p.documents| == |req.documents| && |p.files| == |req.documents| + 3
            && AllListed(host, p.files) && NotesPlain(host, p.files) && SafelyNamed(p.files)
  {
    hide WriteAll, Presentable, WrittenFor, SortBy, AuditPayloadOf, CanonicalBytes, WriteBytes;
    var p := PartsOf(host, req);
    var docs := SortBy(IdOf, req.documents);
    BuiltWritten(host, req);
    FixedPresentable(host, RECONSTRUCTION_PATH, CanonicalBytes(req.reconstruction));
    FixedPresentable(host, PDF_PATH, req.render(p.resolved));
    FixedPresentable(host, AUDIT_PATH, CanonicalBytes(p.audit));
    forall i | 0 <= i < |docs| ensures Presentable(host, p.documents[i]) {
      WrittenFacts(host, req.store, docs[i], p.documents[i]);
      DocumentPresentable(host, p.documents[i]);
    }
    forall w | w in p.files ensures Presentable(host, w) {
      var i :| 0 <= i < |p.files| && p.files[i] == w;
      if i >= 3 { assert w == p.documents[i - 3]; }
    }
    AllPresentable(host, p.files);
  }

  lemma DocumentPresentable(host: Host, w: Written)
    requires ListsItself(host, w) && ValidPath(w.entry.name) && w.entry.name != MANIFEST_PATH
    requires w.missing.Some? ==> FloatsExact(host.floatRepr, w.missing.value)
    ensures Presentable(host, w)
  {}

  lemma AllPresentable(host: Host, files: seq<Written>)
    requires forall w :: w in files ==> Presentable(host, w)
    ensures AllListed(host, files) && NotesPlain(host, files) && SafelyNamed(files)
  {
    hide ListsItself, ValidPath, FloatsExact;
  }

  lemma FixedNames()
    ensures RECONSTRUCTION_PATH != PDF_PATH && RECONSTRUCTION_PATH != AUDIT_PATH && PDF_PATH != AUDIT_PATH
    ensures RECONSTRUCTION_PATH != MANIFEST_PATH && PDF_PATH != MANIFEST_PATH && AUDIT_PATH != MANIFEST_PATH
  {
    assert |MANIFEST_PATH| == 13 && |RECONSTRUCTION_PATH| == 19 && |PDF_PATH| == 18 && |AUDIT_PATH| == 16;
  }

  lemma WrittenFacts(host: Host, store: Option<Store>, doc: Document, w: Written)
    requires WrittenFor(host, store, doc, w)
    ensures ListsItself(host, w) && w.entry.name == PathOf(host, store, doc) && ValidPath(w.entry.name)
    ensures w.entry.name[0] == 'd' && w.entry.name != MANIFEST_PATH && w.entry.name !in REQUIRED_PATHS
    ensures w.missing.Some? ==> FloatsExact(host.floatRepr, w.missing.value)
  {
    hide ValidPath, ListsItself, FloatsExact, BoundedText, CanonicalBytes, MissingPath, DocumentPath;
    BuiltPathsValid(doc.id, host.baseName(doc.filename));
    DocumentsApart(doc.id, host.baseName(doc.filename));
    if w.missing.Some? { FlatExact(host.floatRepr, w.missing.value.fields); }
  }

  /** The archive of a successful build, taken apart. */
  lemma BuiltArchive(host: Host, req: Request)
    requires Built(host, req).Ok?
    ensures var p, a := PartsOf(host, req), Built(host, req).value.archive;
            a == Packed(host, req, p.resolved, p.files) && Holds(a, p.files)
            && a[0] == Entry(RECONSTRUCTION_PATH, CanonicalBytes(req.reconstruction))
            && a[1].name == PDF_PATH
            && a[2] == Entry(AUDIT_PATH, CanonicalBytes(p.audit))
            && |a| == |p.documents| + 4
            && forall i :: 0 <= i < |p.documents| ==> a[i + 3] == p.documents[i].entry
  {
    hide WriteAll, AuditPayloadOf, CanonicalBytes, SortBy, Sealed, ManifestBase, Listings, MissingNotes;
  }

  lemma RequiredPresent(host: Host, req: Request)
    requires Built(host, req).Ok?
    ensures forall p :: p in REQUIRED_PATHS ==> p in NameSet(Built(host, req).value.archive)
  {
    hide Built, PartsOf, Packed, Holds;
    BuiltArchive(host, req);
    var a := Built(host, req).value.archive;
    assert a[0].name in NameSet(a) && a[1].name in NameSet(a) && a[2].name in NameSet(a);
  }

  /** Document `i` comes after the three fixed files, under a name of the documents' folder. */
  predicate DocumentAt(a: Archive, i: nat, name: string)
  {
    i + 3 < |a| && a[i + 3].name == name && name != "" && name[0] == 'd'
  }

  lemma DocumentNames(host: Host, req: Request)
    requires Built(host, req).Ok?
    ensures |SortBy(IdOf, req.documents)| == |req.documents|
    ensures var a, docs := Built(host, req).value.archive, SortBy(IdOf, req.documents);
            |a| == |docs| + 4 && forall i :: 0 <= i < |docs| ==> DocumentAt(a, i, PathOf(host, req.store, docs[i]))
  {
    hide Built, PartsOf, Packed, WrittenFor, PathOf, SortBy;
    var a, p, docs := Built(host, req).value.archive, PartsOf(host, req), SortBy(IdOf, req.documents);
    BuiltArchive(host, req);
    BuiltWritten(host, req);
    forall i | 0 <= i < |docs| ensures DocumentAt(a, i, PathOf(host, req.store, docs[i])) {
      WrittenFacts(host, req.store, docs[i], p.documents[i]);
      assert a[i + 3] == p.documents[i].entry;
    }
  }

  /** Documents never take the name of another file, so names repeat only among documents. */
  lemma NamesRepeatAmongDocuments(host: Host, req: Request)
    requires Built(host, req).Ok?
    ensures DistinctNames(Built(host, req).value.archive) <==> DistinctPaths(host, req)
  {
    hide Built, Packed, PartsOf, PathOf, SortBy, DistinctNames, DistinctBy, CanonicalBytes;
    var a := Built(host, req).value.archive;
    var docs := SortBy(IdOf, req.documents);
    var key := (d: Document) => PathOf(host, req.store, d);
    BuiltArchive(host, req);
    DocumentNames(host, req);
    PermutedDistinct(key, req.documents, docs);
    forall i | 0 <= i < |docs| ensures DocumentAt(a, i, key(docs[i])) {
      assert key(docs[i]) == PathOf(host, req.store, docs[i]);
    }
    NamesSplit(a, docs, key);
  }

  lemma BuiltWritten(host: Host, req: Request)
    requires Built(host, req).Ok?
    ensures var p, docs := PartsOf(host, req), SortBy(IdOf, req.documents);
            |docs| == |req.documents| == |p.documents|
            && (forall i :: 0 <= i < |docs| ==> WrittenFor(host, req.store, docs[i], p.documents[i]))
            && DistinctBy(IdOf, docs)
  {
    hide WriteAll, WrittenFor, SortBy, AuditPayloadOf;
    var docs := SortBy(IdOf, req.documents);
    assert |docs| == |multiset(docs)| == |req.documents|;
    AllWritten(host, req.store, docs, {});
  }

  lemma NamesSplit(a: Archive, docs: seq<Document>, key: Document -> string)
    requires |a| == |docs| + 4
    requires a[0].name == RECONSTRUCTION_PATH && a[1].name == PDF_PATH && a[2].name == AUDIT_PATH && a[|a| - 1].name == MANIFEST_PATH
    requires forall i :: 0 <= i < |docs| ==> DocumentAt(a, i, key(docs[i]))
    ensures DistinctNames(a) <==> DistinctBy(key, docs)
  {
    FixedNames();
    if DistinctNames(a) {
      forall i, j | 0 <= i < j < |docs| ensures key(docs[i]) != key(docs[j]) {
        assert DocumentAt(a, i, key(docs[i])) && DocumentAt(a, j, key(docs[j]));
        assert a[i + 3].name != a[j + 3].name;
      }
    }
    if DistinctBy(key, docs) {
      forall i, j | 0 <= i < j < |a| ensures a[i].name != a[j].name {
        assert 3 <= i < |a| - 1 ==> DocumentAt(a, i - 3, key(docs[i - 3]));
        assert 3 <= j < |a| - 1 ==> DocumentAt(a, j - 3, key(docs[j - 3]));
      }
    }
  }

  /** The chain file reads back, so the verifier checks exactly what the builder wrote. */
  lemma AuditRead(host: Host, req: Request)
    requires Built(host, req).Ok? && ExactRequest(host, req)
    ensures var p, a := PartsOf(host, req), Built(host, req).value.archive;
            p.audit.JObject? && p.resolved.JObject? && FloatsExact(host.floatRepr, p.resolved)
            && Has(a, AUDIT_PATH) && LoadBytes(host, DataOf(a, AUDIT_PATH)) == Some(p.audit)
            && Lookup(p.audit.fields, "verification") == p.resolved && Lookup(p.audit.fields, "verification_result") == p.resolved
  {
    hide WriteAll, LoadBytes, CanonicalBytes, DataOf, FloatsExact, ResolvedVerdict, AuditRows, Files, Assemble, SortBy;
    var p, a := PartsOf(host, req), Built(host, req).value.archive;
    ResolvedExact(host, req);
    var rows := AuditRows(req.rows).value;
    RowsExact(host, req.rows);
    AuditExact(host, rows, p.resolved);
    LoadCanonical(host, p.audit.fields);
    AuditOnce(host, req);
    DataAt(a, 2);
  }

  lemma AuditOnce(host: Host, req: Request)
    requires Built(host, req).Ok?
    ensures var a := Built(host, req).value.archive;
            |a| >= 4 && a[2] == Entry(AUDIT_PATH, CanonicalBytes(PartsOf(host, req).audit))
            && forall j :: 2 < j < |a| ==> a[j].name != AUDIT_PATH
  {
    hide Built, Packed, WrittenFor, PartsOf, SortBy, CanonicalBytes;
    var a, p := Built(host, req).value.archive, PartsOf(host, req);
    BuiltArchive(host, req);
    BuiltWritten(host, req);
    FixedNames();
    var docs := SortBy(IdOf, req.documents);
    forall j | 2 < j < |a| - 1 ensures a[j].name != AUDIT_PATH {
      WrittenFacts(host, req.store, docs[j - 3], p.documents[j - 3]);
      assert a[(j - 3) + 3] == p.documents[j - 3].entry;
    }
  }

  lemma FixedOnce(host: Host, req: Request)
    requires Built(host, req).Ok?
    ensures var a := Built(host, req).value.archive;
            |a| >= 4 && forall i, j :: 0 <= i < 3 && i < j < |a| ==> a[j].name != a[i].name
  {
    hide Built, Packed, WrittenFor, PartsOf, SortBy, CanonicalBytes;
    var a, p := Built(host, req).value.archive, PartsOf(host, req);
    BuiltArchive(host, req);
    BuiltWritten(host, req);
    FixedNames();
    var docs := SortBy(IdOf, req.documents);
    forall j | 2 < j < |a| - 1 ensures a[j].name !in REQUIRED_PATHS {
      WrittenFacts(host, req.store, docs[j - 3], p.documents[j - 3]);
      assert a[(j - 3) + 3] == p.documents[j - 3].entry;
    }
  }

  /** The exported rows are the requested ones, in order. */
  ghost predicate RowsExported(rows: seq<map<string, Json>>, items: seq<Json>)
  {
    |items| == |rows| && forall i :: 0 <= i < |rows| ==>
      items[i].JObject? && RowExported(rows[i], items[i].fields)
  }

  /** Every member reads the same; a null is kept under the four members that may be null, and left out elsewhere. */
  ghost predicate RowExported(row: map<string, Json>, fields: map<string, Json>)
  {
    forall key ::
      && Lookup(fields, key) == Lookup(row, key)
      && (key in fields <==>
            key in row && (!row[key].JNull? || key in {"actor_id", "actor_label", "threshold_snapshot_id", "prev_hash"}))
  }

  lemma {:induction false} AuditRowsExported(rows: seq<map<string, Json>>)
    requires AuditRows(rows).Some?
    ensures RowsExported(rows, AuditRows(rows).value)
  {
    if rows != [] {
      AuditRowsExported(rows[1..]);
      AuditRowReads(rows[0]);
      hide AuditRow, RowExported;
      var items := AuditRows(rows).value;
      forall i | 0 <= i < |rows| ensures items[i].JObject? && RowExported(rows[i], items[i].fields) {
        assert i > 0 ==> items[i] == AuditRows(rows[1..]).value[i - 1] && rows[i] == rows[1..][i - 1];
      }
    }
  }

  lemma AuditRowReads(row: map<string, Json>)
    requires AuditRow(row).Some?
    ensures RowExported(row, AuditRow(row).value)
  {}

  /**
   * What the fixed files of a built archive hold, read back by name: the reconstruction, the rows that were asked
   * for, and the renderer's own bytes for the verdict in the audit file, which the manifest repeats.
   */
  lemma FixedFilesRead(host: Host, req: Request)
    requires Built(host, req).Ok? && ExactRequest(host, req)
    requires req.reconstruction.JObject? && FloatsExact(host.floatRepr, req.reconstruction)
    ensures var a := Built(host, req).value.archive;
            && Has(a, RECONSTRUCTION_PATH) && LoadBytes(host, DataOf(a, RECONSTRUCTION_PATH)) == Some(req.reconstruction)
            && Has(a, AUDIT_PATH) && LoadBytes(host, DataOf(a, AUDIT_PATH)).Some? && LoadBytes(host, DataOf(a, AUDIT_PATH)).value.JObject?
            && var audit := LoadBytes(host, DataOf(a, AUDIT_PATH)).value.fields;
               && Lookup(audit, "rows").JArray? && RowsExported(req.rows, Lookup(audit, "rows").items)
               && Lookup(audit, "schema_version") == JInt(1)
               && Lookup(audit, "verification").JObject?
               && Lookup(audit, "range") == Lookup(Lookup(audit, "verification").fields, "range")
               && Has(a, PDF_PATH) && DataOf(a, PDF_PATH) == req.render(Lookup(audit, "verification"))
               && ManifestOf(host, a).Some? && Lookup(ManifestOf(host, a).value, "chain_verification") == Lookup(audit, "verification")
  {
    hide Built, PartsOf, Packed, CanonicalBytes, LoadBytes, DataOf, Has, FloatsExact, ExactRequest, ManifestOf, Sealed, BaseOf, AuditRows,
         RowsExported;
    var a, p := Built(host, req).value.archive, PartsOf(host, req);
    BuiltArchive(host, req);
    FixedOnce(host, req);
    PdfWritten(host, req);
    DataAt(a, 0);
    DataAt(a, 1);
    LoadCanonical(host, req.reconstruction.fields);
    AuditRead(host, req);
    AuditHoldsRows(host, req);
    BuiltManifest(host, req);
    SealedFiles(host, req, p.resolved, p.files);
  }

  lemma PdfWritten(host: Host, req: Request)
    requires Built(host, req).Ok?
    ensures |Built(host, req).value.archive| >= 4
    ensures Built(host, req).value.archive[1] == Entry(PDF_PATH, req.render(PartsOf(host, req).resolved))
  {
    hide WriteAll, AuditPayloadOf, CanonicalBytes, SortBy, Sealed, ManifestBase, Listings, MissingNotes;
  }

  lemma AuditHoldsRows(host: Host, req: Request)
    requires Built(host, req).Ok?
    ensures var audit := PartsOf(host, req).audit;
            audit.JObject? && Lookup(audit.fields, "rows").JArray? && RowsExported(req.rows, Lookup(audit.fields, "rows").items)
            && Lookup(audit.fields, "schema_version") == JInt(1)
            && (Lookup(audit.fields, "verification").JObject? ==>
                  Lookup(audit.fields, "range") == Lookup(Lookup(audit.fields, "verification").fields, "range"))
  {
    hide WriteAll, ResolvedVerdict, AuditRows, Files, Assemble, SortBy, RowsExported;
    BuiltSteps(host, req);
    AuditRowsExported(req.rows);
  }

  /**
   * A built archive is accepted exactly when it keeps the size limits, no two documents share a path, and the
   * recorded verdict is the one the exported rows give.
   */
  lemma BuiltVerifies(host: Host, req: Request)
    requires host.rt.Lawful() && ExactRequest(host, req) && Built(host, req).Ok?
    ensures Sound(host, Built(host, req).value.archive)
        <==> WithinLimits(Built(host, req).value.archive) && DistinctPaths(host, req) && VerdictHolds(host, req)
    ensures Sound(host, Built(host, req).value.archive) ==>
              ManifestOf(host, Built(host, req).value.archive).Some?
              && ManifestHash(ManifestOf(host, Built(host, req).value.archive).value) == Some(Built(host, req).value.manifestHash)
  {
    hide Built, PartsOf, ManifestOf, SealSound, FilesSound, EntriesOf, ManifestHash, FullyListed, ManifestFits,
         DistinctPaths, DistinctNames, ExactRequest, TotalSize, WithinLimits, ValidPath, EmbeddedChain, Records, Runtime.Lawful;
    var a := Built(host, req).value.archive;
    BuiltSeal(host, req);
    NamesRepeatAmongDocuments(host, req);
    BuiltVerdict(host, req);
    BuiltNames(host, req);
    if DistinctNames(a) { BuiltListing(host, req); }
    LimitsMeaning(a);
  }

  lemma LimitsMeaning(a: Archive)
    ensures WithinLimits(a) <==> |a| <= MAX_ARCHIVE_FILES && TotalSize(a) <= MAX_ARCHIVE_BYTES && ManifestFits(a)
  {}

  lemma BuiltNames(host: Host, req: Request)
    requires Built(host, req).Ok?
    ensures var a := Built(host, req).value.archive; forall i :: 0 <= i < |a| ==> ValidPath(a[i].name)
  {
    hide Built, PartsOf, Packed, ValidPath, AllListed, NotesPlain;
    BuiltArchive(host, req);
    BuiltFiles(host, req);
    FixedPathsValid();
    var a, files := Built(host, req).value.archive, PartsOf(host, req).files;
    forall i | 0 <= i < |a| ensures ValidPath(a[i].name) {
      if i < |files| { assert files[i] in files; }
    }
  }

  lemma BuiltManifest(host: Host, req: Request)
    requires Built(host, req).Ok? && ExactRequest(host, req)
    ensures var p, b := PartsOf(host, req), Built(host, req).value;
            ManifestOf(host, b.archive) == Some(Sealed(host, BaseOf(req, p.resolved, p.files)))
            && b.manifestHash == host.rt.sha256(CanonicalBytes(JObject(BaseOf(req, p.resolved, p.files))))
  {
    hide ManifestOf, Packed, CanonicalBytes, Sealed, BaseOf, AllListed, NotesPlain, ExactRequest;
    BuiltArchive(host, req);
    BuiltFiles(host, req);
    AuditRead(host, req);
    var p := PartsOf(host, req);
    PackedManifest(host, req, p.resolved, p.files);
    DigestReturned(host, req);
  }

  lemma DigestReturned(host: Host, req: Request)
    requires Built(host, req).Ok?
    ensures var p := PartsOf(host, req);
            Built(host, req).value.manifestHash == host.rt.sha256(CanonicalBytes(JObject(BaseOf(req, p.resolved, p.files))))
  {
    hide WriteAll, AuditPayloadOf, CanonicalBytes, SortBy, Sealed, ManifestBase, Listings, MissingNotes;
  }

  lemma BuiltSeal(host: Host, req: Request)
    requires host.rt.Lawful() && ExactRequest(host, req) && Built(host, req).Ok?
    ensures var b := Built(host, req).value;
            ManifestOf(host, b.archive).Some? && SealSound(host, ManifestOf(host, b.archive).value)
            && ManifestHash(ManifestOf(host, b.archive).value) == Some(b.manifestHash)
  {
    hide Built, PartsOf, ManifestOf, Sealed, SealSound, ManifestHash, ExactRequest, Listings, MissingNotes, CanonicalBytes, Runtime.Lawful;
    BuiltManifest(host, req);
    var p := PartsOf(host, req);
    var base := BaseOf(req, p.resolved, p.files);
    assert base.Keys !! HASH_FIELDS;
    SealedSound(host, base);
  }

  lemma SealedFiles(host: Host, req: Request, resolved: Json, files: seq<Written>)
    ensures Lookup(Sealed(host, BaseOf(req, resolved, files)), "files") == JArray(Listings(files))
    ensures Lookup(Sealed(host, BaseOf(req, resolved, files)), "missing_documents") == JArray(MissingNotes(files))
    ensures Lookup(Sealed(host, BaseOf(req, resolved, files)), "chain_verification") == resolved
  {
    hide Listings, MissingNotes, CanonicalBytes;
  }

  lemma BuiltListing(host: Host, req: Request)
    requires host.rt.Lawful() && ExactRequest(host, req) && Built(host, req).Ok?
    requires DistinctNames(Built(host, req).value.archive) && ManifestOf(host, Built(host, req).value.archive).Some?
    ensures var a := Built(host, req).value.archive;
            FilesSound(host, a, ManifestOf(host, a).value) && FullyListed(a, ManifestOf(host, a).value)
  {
    hide Built, PartsOf, ManifestOf, Sealed, BaseOf, Packed, AllListed, NotesPlain, SafelyNamed, DistinctNames,
         EntriesSound, FullyListed, Listings, Objects, ExactRequest, Runtime.Lawful, REQUIRED_PATHS, NameSet;
    var a, p := Built(host, req).value.archive, PartsOf(host, req);
    BuiltArchive(host, req);
    BuiltFiles(host, req);
    BuiltManifest(host, req);
    SealedFiles(host, req, p.resolved, p.files);
    var m := ManifestOf(host, a).value;
    ListingsAre(host, p.files);
    PackedEntries(host, a, p.files);
    RequiredPresent(host, req);
    PackedComplete(host, a, p.files, m);
  }

  lemma BuiltVerdict(host: Host, req: Request)
    requires ExactRequest(host, req) && Built(host, req).Ok?
    requires ManifestOf(host, Built(host, req).value.archive).Some?
    ensures var a := Built(host, req).value.archive;
            (VerdictSound(host, a, ManifestOf(host, a).value) <==> VerdictHolds(host, req))
            && Has(a, AUDIT_PATH) && ChainOf(host, a) == EmbeddedChain(host, PartsOf(host, req).audit)
  {
    hide Built, PartsOf, ManifestOf, Sealed, BaseOf, LoadBytes, EmbeddedChain, Records, ExactRequest, DataOf, Has;
    var a, p := Built(host, req).value.archive, PartsOf(host, req);
    AuditRead(host, req);
    BuiltManifest(host, req);
    SealedFiles(host, req, p.resolved, p.files);
  }

  // ---------- bundles whose verdict the builder computed ----------

  lemma {:induction false} ExportedRowsDecode(host: Host, rows: seq<map<string, Json>>)
    requires AuditRows(rows).Some?
    ensures DecodeRows(host, AuditRows(rows).value) == DecodeRows(host, Mappings(rows))
  {
    hide DecodeRow, AuditRow;
    if rows != [] {
      AuditRowDecodes(host, rows[0]);
      ExportedRowsDecode(host, rows[1..]);
      assert Mappings(rows)[1..] == Mappings(rows[1..]);
      assert AuditRows(rows).value[1..] == AuditRows(rows[1..]).value;
    } else {
      assert Mappings(rows) == [];
    }
  }

  /** A verdict the builder computed is the one the exported rows give. */
  lemma ComputedVerdictHolds(host: Host, req: Request)
    requires Built(host, req).Ok? && req.supplied.None?
    ensures VerdictHolds(host, req)
    ensures var p := PartsOf(host, req);
            EmbeddedChain(host, p.audit).Checked? && p.resolved == VerdictJson(host, EmbeddedChain(host, p.audit).report)
  {
    hide WriteAll, DecodeRows, CheckRows, VerdictJson, AuditRows, SortBy, Files, Assemble;
    var p := PartsOf(host, req);
    var rows := AuditRows(req.rows).value;
    ExportedRowsDecode(host, req.rows);
    var report := CheckRows(host, DecodeRows(host, rows).rows, None, None).report;
    VerdictFlag(host, report);
    assert p.resolved == VerdictJson(host, report);
    assert Lookup(p.audit.fields, "rows") == JArray(rows) && Lookup(p.audit.fields, "range") == JNull;
  }

  predicate NamedByUuids(docs: seq<Document>)
  {
    forall d :: d in docs ==> exists u: Uuid :: d.id == UuidText(u)
  }

  lemma PathShape(host: Host, store: Option<Store>, doc: Document)
    ensures exists tail :: PathOf(host, store, doc) == DOCUMENT_PREFIX + (SafeIdentifier(doc.id) + tail)
  {
    hide SafeIdentifier, SafeName;
    if Exported(store, doc) {
      var tail := "-" + SafeName(host.baseName(doc.filename));
      assert PathOf(host, store, doc) == DOCUMENT_PREFIX + (SafeIdentifier(doc.id) + tail);
    } else {
      assert PathOf(host, store, doc) == DOCUMENT_PREFIX + (SafeIdentifier(doc.id) + MISSING_SUFFIX);
    }
  }

  lemma UuidDocumentsApart(host: Host, req: Request)
    requires Built(host, req).Ok? && NamedByUuids(req.documents)
    ensures DistinctPaths(host, req)
  {
    hide Built, PathOf, SafeIdentifier, PartsOf, WrittenFor, SortBy, UuidText;
    var docs := req.documents;
    BuiltWritten(host, req);
    PermutedDistinct(IdOf, docs, SortBy(IdOf, docs));
    forall i, j | 0 <= i < j < |docs| ensures PathOf(host, req.store, docs[i]) != PathOf(host, req.store, docs[j]) {
      assert docs[i] in docs && docs[j] in docs;
      assert IdOf(docs[i]) != IdOf(docs[j]);
      var a: Uuid :| docs[i].id == UuidText(a);
      var b: Uuid :| docs[j].id == UuidText(b);
      PathShape(host, req.store, docs[i]);
      PathShape(host, req.store, docs[j]);
      var tailA :| PathOf(host, req.store, docs[i]) == DOCUMENT_PREFIX + (SafeIdentifier(docs[i].id) + tailA);
      var tailB :| PathOf(host, req.store, docs[j]) == DOCUMENT_PREFIX + (SafeIdentifier(docs[j].id) + tailB);
      UuidPathsDiffer(a, b, tailA, tailB);
    }
  }

  /**
   * Every bundle built within the size limits, with documents named by UUIDs and a verdict computed from its rows,
   * is accepted, and re-verifying the embedded chain repeats that verdict.
   */
  lemma ComputedBundleVerifies(host: Host, req: Request)
    requires host.rt.Lawful() && ExactRequest(host, req) && Built(host, req).Ok?
    requires req.supplied.None? && NamedByUuids(req.documents) && WithinLimits(Built(host, req).value.archive)
    ensures var b := Built(host, req).value;
            Sound(host, b.archive) && ChainOf(host, b.archive).Checked?
            && Lookup(ManifestOf(host, b.archive).value, "chain_verification")
               == VerdictJson(host, ChainOf(host, b.archive).report)
            && ManifestHash(ManifestOf(host, b.archive).value) == Some(b.manifestHash)
  {
    hide Built, PartsOf, Sound, ManifestOf, ManifestHash, DistinctPaths, VerdictHolds, WithinLimits, EmbeddedChain,
         NamedByUuids, Sealed, BaseOf, ExactRequest, Runtime.Lawful, VerdictJson, VerdictSound;
    UuidDocumentsApart(host, req);
    ComputedVerdictHolds(host, req);
    BuiltVerifies(host, req);
    BuiltManifest(host, req);
    var p := PartsOf(host, req);
    SealedFiles(host, req, p.resolved, p.files);
    BuiltVerdict(host, req);
  }

  /** Two text identifiers that become one path make an archive that does not verify. */
  lemma CollidingIdentifiersRefused(host: Host, req: Request, first: Document, second: Document)
    requires host.rt.Lawful() && ExactRequest(host, req) && Built(host, req).Ok?
    requires req.documents == [first, second] && first.id == "a b" && second.id == "a_b"
    requires first.status.Purged? && second.status.Purged?
    ensures !Sound(host, Built(host, req).value.archive)
  {
    hide Built, Sound, VerdictHolds, WithinLimits, ExactRequest, Runtime.Lawful, MissingPath;
    BuiltVerifies(host, req);
    TextIdentifiersCollide();
    assert PathOf(host, req.store, req.documents[0]) == PathOf(host, req.store, req.documents[1]);
  }

  // ---------- every referenced document, once ----------

  /** The records of the documents that are not exported, in identifier order. */
  function AbsentNotes(host: Host, store: Option<Store>, docs: seq<Document>): seq<Json>
  {
    if docs == [] then [] else
    (if Exported(store, docs[0]) || ReasonOf(host, store, docs[0]).Err? then []
     else [MissingNote(docs[0], ReasonOf(host, store, docs[0]).value)])
    + AbsentNotes(host, store, docs[1..])
  }

  lemma {:induction false} NotesAreAbsentNotes(host: Host, store: Option<Store>, docs: seq<Document>, written: seq<Written>)
    requires |written| == |docs| && forall i :: 0 <= i < |docs| ==> WrittenFor(host, store, docs[i], written[i])
    ensures MissingNotes(written) == AbsentNotes(host, store, docs)
  {
    hide ListsItself, PathOf, ReasonOf, MissingNote, MissingRecord, CanonicalBytes;
    if docs != [] {
      assert forall i :: 0 <= i < |docs[1..]| ==> docs[1..][i] == docs[i + 1] && written[1..][i] == written[i + 1];
      NotesAreAbsentNotes(host, store, docs[1..], written[1..]);
      assert WrittenFor(host, store, docs[0], written[0]);
    }
  }

  lemma FixedHaveNoNotes(host: Host, req: Request, audit: Json, pdf: Bytes, documents: seq<Written>)
    ensures MissingNotes(Files(host, req, audit, pdf, documents)) == MissingNotes(documents)
  {
    hide CanonicalBytes, MissingNotes;
    var files := Files(host, req, audit, pdf, documents);
    SkipNote(files);
    SkipNote(files[1..]);
    SkipNote(files[1..][1..]);
    assert files[1..][1..][1..] == documents;
  }

  lemma SkipNote(files: seq<Written>)
    requires files != [] && files[0].missing.None?
    ensures MissingNotes(files) == MissingNotes(files[1..])
  {}

  /**
   * When no two documents share a path, each is in the archive under exactly one entry: the bytes its store served,
   * or the record of its absence; the manifest's missing documents are exactly the absent ones, in order.
   */
  lemma EachDocumentOnce(host: Host, req: Request, doc: Document)
    requires Built(host, req).Ok? && ExactRequest(host, req) && DistinctPaths(host, req) && doc in req.documents
    ensures var a, path := Built(host, req).value.archive, PathOf(host, req.store, doc);
            Has(a, path) && (forall i, j :: 0 <= i < j < |a| && a[i].name == path ==> a[j].name != path)
            && (if Exported(req.store, doc) then
                  var stream := req.store.value(doc.storageKey.value);
                  stream.Open? && DataOf(a, path) == Flatten(stream.chunks)
                else
                  ReasonOf(host, req.store, doc).Ok?
                  && DataOf(a, path) == CanonicalBytes(MissingRecord(doc, ReasonOf(host, req.store, doc).value)))
    ensures ManifestOf(host, Built(host, req).value.archive).Some?
    ensures Lookup(ManifestOf(host, Built(host, req).value.archive).value, "missing_documents")
         == JArray(AbsentNotes(host, req.store, SortBy(IdOf, req.documents)))
  {
    hide Built, PartsOf, SortBy, DistinctPaths, PathOf, ReasonOf, CanonicalBytes, ManifestOf, AbsentNotes, ExactRequest, DataOf, Has;
    DocumentEntry(host, req, doc);
    NotesRead(host, req);
  }

  lemma DocumentEntry(host: Host, req: Request, doc: Document)
    requires Built(host, req).Ok? && DistinctPaths(host, req) && doc in req.documents
    ensures var a, path := Built(host, req).value.archive, PathOf(host, req.store, doc);
            Has(a, path) && (forall i, j :: 0 <= i < j < |a| && a[i].name == path ==> a[j].name != path)
            && (if Exported(req.store, doc) then
                  var stream := req.store.value(doc.storageKey.value);
                  stream.Open? && DataOf(a, path) == Flatten(stream.chunks)
                else
                  ReasonOf(host, req.store, doc).Ok?
                  && DataOf(a, path) == CanonicalBytes(MissingRecord(doc, ReasonOf(host, req.store, doc).value)))
  {
    hide Built, PartsOf, Packed, SortBy, DistinctPaths, PathOf, ReasonOf, CanonicalBytes, ListsItself, DataOf, MissingNote;
    var a, p := Built(host, req).value.archive, PartsOf(host, req);
    var docs := SortBy(IdOf, req.documents);
    BuiltArchive(host, req);
    BuiltWritten(host, req);
    NamesRepeatAmongDocuments(host, req);
    SortMembers(IdOf, req.documents, doc);
    var i :| 0 <= i < |docs| && docs[i] == doc;
    assert a[i + 3] == p.documents[i].entry;
    assert WrittenFor(host, req.store, docs[i], p.documents[i]);
    DataAt(a, i + 3);
  }

  lemma NotesRead(host: Host, req: Request)
    requires Built(host, req).Ok? && ExactRequest(host, req)
    ensures ManifestOf(host, Built(host, req).value.archive).Some?
    ensures Lookup(ManifestOf(host, Built(host, req).value.archive).value, "missing_documents")
         == JArray(AbsentNotes(host, req.store, SortBy(IdOf, req.documents)))
  {
    hide Built, PartsOf, SortBy, ManifestOf, Sealed, BaseOf, AbsentNotes, MissingNotes, ExactRequest, WrittenFor;
    var p, docs := PartsOf(host, req), SortBy(IdOf, req.documents);
    BuiltWritten(host, req);
    BuiltManifest(host, req);
    SealedFiles(host, req, p.resolved, p.files);
    NotesAreAbsentNotes(host, req.store, docs, p.documents);
    PartsFiles(host, req);
    FixedHaveNoNotes(host, req, p.audit, req.render(p.resolved), p.documents);
  }

  /** The documents that are not exported, in order. */
  function Absentees(store: Option<Store>, docs: seq<Document>): seq<Document>
  {
    if docs == [] then [] else (if Exported(store, docs[0]) then [] else [docs[0]]) + Absentees(store, docs[1..])
  }

  /** A record in the manifest's list of missing documents: which document, why, and where its own record is. */
  predicate NoteFor(host: Host, store: Option<Store>, doc: Document, j: Json)
  {
    && j.JObject? && ReasonOf(host, store, doc).Ok?
    && Lookup(j.fields, "document_id") == JString(doc.id) && Lookup(j.fields, "filename") == JString(doc.filename)
    && Lookup(j.fields, "status") == JString("absent") && Lookup(j.fields, "reason") == JString(ReasonOf(host, store, doc).value)
    && Lookup(j.fields, "record_path") == JString(PathOf(host, store, doc))
  }

  lemma {:induction false} AbsentNotesDescribe(host: Host, store: Option<Store>, docs: seq<Document>)
    requires forall d :: d in docs && !Exported(store, d) ==> ReasonOf(host, store, d).Ok?
    ensures var notes, absent := AbsentNotes(host, store, docs), Absentees(store, docs);
            |notes| == |absent| && forall i :: 0 <= i < |notes| ==> NoteFor(host, store, absent[i], notes[i])
  {
    hide ReasonOf, Exported, NoteFor;
    if docs != [] {
      AbsentNotesDescribe(host, store, docs[1..]);
      var notes, absent := AbsentNotes(host, store, docs[1..]), Absentees(store, docs[1..]);
      if !Exported(store, docs[0]) {
        assert docs[0] in docs;
        NoteDescribes(host, store, docs[0]);
        assert AbsentNotes(host, store, docs) == [MissingNote(docs[0], ReasonOf(host, store, docs[0]).value)] + notes;
      } else {
        assert AbsentNotes(host, store, docs) == notes && Absentees(store, docs) == absent;
      }
    }
  }

  lemma NoteDescribes(host: Host, store: Option<Store>, doc: Document)
    requires !Exported(store, doc) && ReasonOf(host, store, doc).Ok?
    ensures NoteFor(host, store, doc, MissingNote(doc, ReasonOf(host, store, doc).value))
  {
    hide ReasonOf, MissingPath;
  }

  /** The manifest's missing documents are the ones that are not exported, each with its reason and the path of its record. */
  lemma MissingDescribed(host: Host, req: Request)
    requires Built(host, req).Ok? && ExactRequest(host, req)
    ensures ManifestOf(host, Built(host, req).value.archive).Some?
    ensures var missing := Lookup(ManifestOf(host, Built(host, req).value.archive).value, "missing_documents");
            var absent := Absentees(req.store, SortBy(IdOf, req.documents));
            missing.JArray? && |missing.items| == |absent|
            && forall i :: 0 <= i < |absent| ==> NoteFor(host, req.store, absent[i], missing.items[i])
  {
    hide Built, PartsOf, SortBy, ManifestOf, AbsentNotes, ExactRequest, Absentees, NoteFor, ReasonOf, PathOf, ListsItself;
    var docs, p := SortBy(IdOf, req.documents), PartsOf(host, req);
    NotesRead(host, req);
    BuiltWritten(host, req);
    forall d | d in docs && !Exported(req.store, d) ensures ReasonOf(host, req.store, d).Ok? {
      var i :| 0 <= i < |docs| && docs[i] == d;
      assert WrittenFor(host, req.store, docs[i], p.documents[i]);
    }
    AbsentNotesDescribe(host, req.store, docs);
  }

  lemma PartsFiles(host: Host, req: Request)
    requires Built(host, req).Ok?
    ensures var p := PartsOf(host, req); p.files == Files(host, req, p.audit, req.render(p.resolved), p.documents)
  {
    hide WriteAll, AuditPayloadOf, SortBy;
  }

  /** The record that stands for a missing document reads back with what is known about it. */
  lemma AbsenceRecordReads(host: Host, doc: Document, reason: string)
    ensures var j := LoadBytes(host, CanonicalBytes(MissingRecord(doc, reason)));
            j.Some? && j.value.JObject?
            && Lookup(j.value.fields, "document_id") == JString(doc.id)
            && Lookup(j.value.fields, "filename") == JString(doc.filename)
            && Lookup(j.value.fields, "status") == JString("absent")
            && Lookup(j.value.fields, "reason") == JString(reason)
            && Lookup(j.value.fields, "content_hash") == OptionalText(doc.contentHash)
            && Lookup(j.value.fields, "storage_key") == OptionalText(doc.storageKey)
  {
    hide LoadBytes, CanonicalBytes, FloatsExact;
    FlatExact(host.floatRepr, MissingRecord(doc, reason).fields);
    LoadCanonical(host, MissingRecord(doc, reason).fields);
  }

  /** The manifest of a built bundle says which bundle, forecast and moment it belongs to. */
  lemma ManifestDescribes(host: Host, req: Request)
    requires Built(host, req).Ok? && ExactRequest(host, req)
    ensures ManifestOf(host, Built(host, req).value.archive).Some?
    ensures var m := ManifestOf(host, Built(host, req).value.archive).value;
            Lookup(m, "bundle_id") == JString(req.bundleId) && Lookup(m, "forecast_id") == JString(req.forecastId)
            && Lookup(m, "created_at") == JString(req.createdAt) && Lookup(m, "schema_version") == JInt(1)
            && Lookup(m, "hash_algorithm") == JString("sha256")
  {
    hide Built, PartsOf, ManifestOf, ExactRequest;
    BuiltManifest(host, req);
    hide CanonicalBytes, Listings, MissingNotes;
    SealedFields(host, req, PartsOf(host, req).resolved, PartsOf(host, req).files);
  }

  lemma SealedFields(host: Host, req: Request, resolved: Json, files: seq<Written>)
    ensures var m := Sealed(host, BaseOf(req, resolved, files));
            Lookup(m, "bundle_id") == JString(req.bundleId) && Lookup(m, "forecast_id") == JString(req.forecastId)
            && Lookup(m, "created_at") == JString(req.createdAt) && Lookup(m, "schema_version") == JInt(1)
            && Lookup(m, "hash_algorithm") == JString("sha256")
  {
    hide Listings, MissingNotes, CanonicalBytes, ManifestFile;
    var base := BaseOf(req, resolved, files);
    assert forall k :: k in base && k !in HASH_FIELDS ==> k in Sealed(host, base) && Sealed(host, base)[k] == base[k];
  }

  /** A document's manifest line names it, its file and whether it is there. */
  predicate LineFor(host: Host, store: Option<Store>, doc: Document, e: map<string, Json>)
  {
    && Lookup(e, "path") == JString(PathOf(host, store, doc))
    && Lookup(e, "document_id") == JString(doc.id)
    && Lookup(e, "filename") == JString(doc.filename)
    && Lookup(e, "status") == JString(if Exported(store, doc) then "present" else "absent")
    && (Exported(store, doc) && doc.contentHash.Some? && doc.contentHash.value != "" ==>
          Lookup(e, "content_hash") == JString(doc.contentHash.value))
    && (!Exported(store, doc) ==>
          ReasonOf(host, store, doc).Ok? && Lookup(e, "reason") == JString(ReasonOf(host, store, doc).value))
  }

  lemma DocumentLine(host: Host, store: Option<Store>, doc: Document)
    requires WriteDocument(host, store, doc).Ok?
    ensures var w := WriteDocument(host, store, doc).value; w.listing.JObject? && LineFor(host, store, doc, w.listing.fields)
  {
    hide Download, BoundedText, CanonicalBytes, DocumentPath, MissingPath, AbsenceNote, MissingRecord, MissingNote;
  }

  lemma {:induction false} AllLines(host: Host, store: Option<Store>, docs: seq<Document>, seen: set<string>)
    requires WriteAll(host, store, docs, seen).Ok?
    ensures forall i :: 0 <= i < |docs| ==>
              WriteAll(host, store, docs, seen).value[i].listing.JObject?
              && LineFor(host, store, docs[i], WriteAll(host, store, docs, seen).value[i].listing.fields)
    decreases |docs|
  {
    hide WriteDocument, LineFor;
    if docs != [] {
      DocumentLine(host, store, docs[0]);
      AllLines(host, store, docs[1..], seen + {docs[0].id});
      var w := WriteAll(host, store, docs, seen).value;
      forall i | 0 <= i < |docs| ensures w[i].listing.JObject? && LineFor(host, store, docs[i], w[i].listing.fields) {
        assert i > 0 ==> docs[i] == docs[1..][i - 1] && w[i] == w[1..][i - 1];
      }
    }
  }

  /** Every referenced document has a line in the manifest that was read back. */
  lemma EachDocumentListed(host: Host, req: Request, doc: Document)
    requires Built(host, req).Ok? && ExactRequest(host, req) && doc in req.documents
    ensures ManifestOf(host, Built(host, req).value.archive).Some?
    ensures exists e :: e in EntriesOf(ManifestOf(host, Built(host, req).value.archive).value) && LineFor(host, req.store, doc, e)
  {
    hide Built, ManifestOf, SortBy, LineFor, Sealed, BaseOf, AllListed, NotesPlain, SafelyNamed, WriteAll, WrittenFor, Listings,
         ExactRequest, AuditPayloadOf, Files;
    BuiltManifest(host, req);
    BuiltFiles(host, req);
    BuiltWritten(host, req);
    BuiltSteps(host, req);
    var p, docs := PartsOf(host, req), SortBy(IdOf, req.documents);
    SealedFiles(host, req, p.resolved, p.files);
    AllLines(host, req.store, docs, {});
    SortMembers(IdOf, req.documents, doc);
    var i :| 0 <= i < |docs| && docs[i] == doc;
    var w := p.documents[i];
    PartsFiles(host, req);
    DocumentsAreFiles(host, req, p.audit, req.render(p.resolved), p.documents, i);
    ListingsAre(host, p.files);
    SortMembers(NameOf, p.files, w);
    var sorted, entries := SortBy(NameOf, p.files), Objects(Listings(p.files));
    var k :| 0 <= k < |sorted| && sorted[k] == w;
    assert entries[k] == w.listing.fields;
  }

  lemma DocumentsAreFiles(host: Host, req: Request, audit: Json, pdf: Bytes, documents: seq<Written>, i: nat)
    requires i < |documents|
    ensures documents[i] in Files(host, req, audit, pdf, documents)
  {
    hide CanonicalBytes, WriteBytes;
    assert Files(host, req, audit, pdf, documents)[i + 3] == documents[i];
  }

  // ---------- what a verified digest binds ----------

  /** Two byte strings with one digest. */
  predicate Collide(host: Host, x: Bytes, y: Bytes)
  {
    x != y && host.rt.sha256(x) == host.rt.sha256(y)
  }

  /** In a sound archive the payload names are exactly the listed paths. */
  lemma ListedExactly(host: Host, a: Archive)
    requires Sound(host, a)
    ensures NameSet(a) - {MANIFEST_PATH} == ListedPaths(EntriesOf(ManifestOf(host, a).value))
  {
    hide NamesSound, ManifestFits, ManifestOf, SealSound, VerdictSound, ValidPath, DigestMatches, SizeMatches, HasDigest;
    var m := ManifestOf(host, a).value;
    var entries := EntriesOf(m);
    forall p | p in ListedPaths(entries) ensures p in NameSet(a) - {MANIFEST_PATH} {
      var i :| 0 <= i < |entries| && ListsSafely(entries[i]) && PathText(entries[i]) == p;
      assert EntrySound(host, a, entries[i]);
    }
  }

  lemma ListedDigest(host: Host, a: Archive, i: nat)
    requires Sound(host, a) && i < |EntriesOf(ManifestOf(host, a).value)|
    ensures var e := EntriesOf(ManifestOf(host, a).value)[i];
            HasPath(e) && Has(a, PathText(e)) && Lookup(e, "sha256") == JString(host.rt.sha256(DataOf(a, PathText(e))))
  {
    hide NamesSound, ManifestFits, ManifestOf, SealSound, VerdictSound, ValidPath, SizeMatches, HasDigest, FullyListed, DataOf, Has;
    assert EntrySound(host, a, EntriesOf(ManifestOf(host, a).value)[i]);
  }

  lemma SealedDigest(host: Host, a: Archive, digest: string)
    requires Sound(host, a) && ManifestHash(ManifestOf(host, a).value) == Some(digest)
    ensures host.rt.sha256(CanonicalBytes(JObject(ManifestOf(host, a).value - HASH_FIELDS))) == digest
  {
    hide NamesSound, ManifestFits, ManifestOf, FilesSound, FullyListed, VerdictSound, CanonicalBytes;
  }

  lemma SoundManifest(host: Host, a: Archive)
    requires Sound(host, a)
    ensures ManifestOf(host, a).Some?
  {}

  lemma FilesKept(m: map<string, Json>, n: map<string, Json>)
    requires m - HASH_FIELDS == n - HASH_FIELDS
    ensures EntriesOf(m) == EntriesOf(n)
  {
    assert "files" in m <==> "files" in m - HASH_FIELDS;
    assert "files" in n <==> "files" in n - HASH_FIELDS;
    assert "files" in m ==> m["files"] == (m - HASH_FIELDS)["files"];
    assert "files" in n ==> n["files"] == (n - HASH_FIELDS)["files"];
  }

  /**
   * Two archives that verify with the same manifest digest hold the same payload files with the same bytes, unless
   * they exhibit a collision of the digest: in their manifests, or in two versions of one file.
   */
  lemma SameDigestSameFiles(host: Host, a: Archive, b: Archive, digest: string)
    requires Sound(host, a) && ManifestHash(ManifestOf(host, a).value) == Some(digest)
    requires Sound(host, b) && ManifestHash(ManifestOf(host, b).value) == Some(digest)
    ensures var unsignedA := CanonicalBytes(JObject(ManifestOf(host, a).value - HASH_FIELDS));
            var unsignedB := CanonicalBytes(JObject(ManifestOf(host, b).value - HASH_FIELDS));
            || Collide(host, unsignedA, unsignedB)
            || (exists p :: Has(a, p) && Has(b, p) && Collide(host, DataOf(a, p), DataOf(b, p)))
            || (NameSet(a) - {MANIFEST_PATH} == NameSet(b) - {MANIFEST_PATH}
                && ManifestOf(host, a).value - HASH_FIELDS == ManifestOf(host, b).value - HASH_FIELDS
                && forall p :: p in NameSet(a) - {MANIFEST_PATH} ==> Has(a, p) && Has(b, p) && DataOf(a, p) == DataOf(b, p))
  {
    hide Sound, ManifestOf, ManifestHash, EntriesOf, DataOf, Utf8.Encode, Dumps, ValidPath, HASH_FIELDS, NameSet, Has;
    SoundManifest(host, a);
    SoundManifest(host, b);
    var m, n := ManifestOf(host, a).value - HASH_FIELDS, ManifestOf(host, b).value - HASH_FIELDS;
    SealedDigest(host, a, digest);
    SealedDigest(host, b, digest);
    if CanonicalBytes(JObject(m)) == CanonicalBytes(JObject(n)) {
      Utf8.EncodeInjective(Dumps(false, JObject(m)), Dumps(false, JObject(n)));
      DumpsInjective(false, JObject(m), JObject(n));
      assert JObject(m).fields == JObject(n).fields;
      FilesKept(ManifestOf(host, a).value, ManifestOf(host, b).value);
      ListedExactly(host, a);
      ListedExactly(host, b);
      var entries := EntriesOf(ManifestOf(host, a).value);
      forall p | p in NameSet(a) - {MANIFEST_PATH}
        ensures Has(a, p) && Has(b, p) && (DataOf(a, p) != DataOf(b, p) ==> Collide(host, DataOf(a, p), DataOf(b, p)))
      {
        var i :| 0 <= i < |entries| && ListsSafely(entries[i]) && PathText(entries[i]) == p;
        ListedDigest(host, a, i);
        ListedDigest(host, b, i);
      }
    }
  }
}
