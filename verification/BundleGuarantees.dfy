/** What builder and verifier promise together: built bundles verify, and a verified digest binds every file. */
module BundleGuarantees {
  import opened Prelude
  import opened Ordering
  import opened Json
  import opened JsonRoundTrip
  import opened Runtime
  import opened AuditChain
  import opened BundlePaths
  import opened BundleChain
  import opened BundleEscapes
  import opened EvidenceBundle
  import opened BundleVerifier
  import Utf8

  // ---------- reading back what was written ----------

  /** The canonical bytes of an object are read as UTF-8 and give the object back. */
  lemma LoadCanonical(host: Host, fields: map<string, Json>)
    requires FloatsExact(host.floatRepr, JObject(fields))
    ensures LoadBytes(host, CanonicalBytes(JObject(fields))) == Some(JObject(fields))
  {
    hide Dumps, Loads, Utf8.Decode, FloatsExact;
    var j := JObject(fields);
    var s := Dumps(false, j);
    ObjectText(j);
    assert Utf8.Encode(s) == Utf8.EncodeChar(s[0]) + Utf8.Encode(s[1..]);
    assert Utf8.Encode(s[1..]) == Utf8.EncodeChar(s[1]) + Utf8.Encode(s[1..][1..]);
    Utf8.DecodeEncode(s);
    LoadsDumps(host.floatRepr, false, j);
  }

  /** Two audit files that make the verifier raise: the row `1`, and a lower bound that is a list. */
  lemma AuditFilesThatEscape(host: Host, a: Archive)
    requires Has(a, AUDIT_PATH)
    requires DataOf(a, AUDIT_PATH) == CanonicalBytes(NUMBER_ROW) || DataOf(a, AUDIT_PATH) == CanonicalBytes(LIST_BOUND)
    ensures AuditEscapes(host, a)
  {
    hide CanonicalBytes, LoadBytes, PayloadEscapes;
    ConcreteEscapes(host);
    assert FloatsExact(host.floatRepr, NUMBER_ROW) && FloatsExact(host.floatRepr, LIST_BOUND);
    LoadCanonical(host, NUMBER_ROW.fields);
    LoadCanonical(host, LIST_BOUND.fields);
  }

  /** An object's text starts with a brace and then a quote or the closing brace. */
  lemma ObjectText(j: Json)
    requires j.JObject?
    ensures |Dumps(false, j)| >= 2 && Dumps(false, j)[0] == '{' && Dumps(false, j)[1] in "\"}"
  {
    hide DumpMembers, SortedKeys;
    var keys := SortedKeys(j.fields.Keys);
    if keys != [] {
      ObjectLayout(false, j);
      DumpMembersStart(false, j, keys);
    }
  }

  lemma {:induction false} DataAt(a: Archive, i: nat)
    requires i < |a| && forall j :: i < j < |a| ==> a[j].name != a[i].name
    ensures Has(a, a[i].name) && DataOf(a, a[i].name) == a[i].data
  {
    if i < |a| - 1 {
      var front := a[..|a| - 1];
      assert front[i] == a[i];
      DataAt(front, i);
    }
  }

  // ---------- sequences without repeated keys ----------

  predicate DistinctBy<T>(key: T -> string, s: seq<T>)
  {
    forall i, j :: 0 <= i < j < |s| ==> key(s[i]) != key(s[j])
  }

  function Keys<T>(key: T -> string, s: seq<T>): set<string>
  {
    set i | 0 <= i < |s| :: key(s[i])
  }

  lemma {:induction false} DistinctByCount<T>(key: T -> string, s: seq<T>)
    ensures |Keys(key, s)| <= |s|
    ensures DistinctBy(key, s) <==> |Keys(key, s)| == |s|
  {
    if s != [] {
      var h, t := s[0], s[1..];
      DistinctByCount(key, t);
      assert Keys(key, s) == Keys(key, t) + {key(h)} by {
        forall i | 0 <= i < |t| ensures key(t[i]) in Keys(key, s) { assert t[i] == s[i + 1]; }
        forall i | 0 <= i < |s| ensures key(s[i]) in Keys(key, t) + {key(h)} {
          assert i > 0 ==> s[i] == t[i - 1];
        }
      }
      assert DistinctBy(key, s) <==> DistinctBy(key, t) && key(h) !in Keys(key, t) by { DistinctHead(key, s); }
    } else {
      assert Keys(key, s) == {};
    }
  }

  lemma DistinctHead<T>(key: T -> string, s: seq<T>)
    requires s != []
    ensures DistinctBy(key, s) <==> DistinctBy(key, s[1..]) && key(s[0]) !in Keys(key, s[1..])
  {
    var t := s[1..];
    assert forall i :: 0 <= i < |t| ==> t[i] == s[i + 1];
    if DistinctBy(key, s) {
      forall i | 0 <= i < |t| ensures key(t[i]) != key(s[0]) { assert key(s[0]) != key(s[i + 1]); }
    }
    if DistinctBy(key, t) && key(s[0]) !in Keys(key, t) {
      forall i, j | 0 <= i < j < |s| ensures key(s[i]) != key(s[j]) {
        assert s[j] == t[j - 1] && key(t[j - 1]) in Keys(key, t);
        assert i > 0 ==> s[i] == t[i - 1];
      }
    }
  }

  /** Whether keys repeat does not depend on the order of a sequence. */
  lemma PermutedDistinct<T>(key: T -> string, a: seq<T>, b: seq<T>)
    requires multiset(a) == multiset(b)
    ensures DistinctBy(key, a) <==> DistinctBy(key, b)
  {
    DistinctByCount(key, a);
    DistinctByCount(key, b);
    assert |a| == |multiset(a)| && |b| == |multiset(b)|;
    forall x ensures x in a <==> x in b { assert x in multiset(a) <==> x in multiset(b); }
    assert Keys(key, a) == Keys(key, b) by {
      forall i | 0 <= i < |a| ensures key(a[i]) in Keys(key, b) { assert a[i] in b; }
      forall i | 0 <= i < |b| ensures key(b[i]) in Keys(key, a) { assert b[i] in a; }
    }
  }

  // ---------- what the builder writes ----------

  /** The path under which a document is written, whether it is exported or missing. */
  function PathOf(host: Host, store: Option<Store>, doc: Document): string
  {
    if Exported(store, doc) then DocumentPath(doc.id, host.baseName(doc.filename)) else MissingPath(doc.id)
  }

  /** The manifest line of a file names it and carries its digest and size. */
  predicate ListsItself(host: Host, w: Written)
  {
    && w.listing.JObject?
    && Lookup(w.listing.fields, "path") == JString(w.entry.name)
    && Lookup(w.listing.fields, "sha256") == JString(host.rt.sha256(w.entry.data))
    && Lookup(w.listing.fields, "size") == JInt(|w.entry.data|)
    && FloatsExact(host.floatRepr, w.listing)
  }

  lemma FlatExact(fr: FloatText -> FloatText, fields: map<string, Json>)
    requires forall k :: k in fields ==> fields[k].JString? || fields[k].JInt? || fields[k].JNull?
    ensures FloatsExact(fr, JObject(fields))
  {}

  lemma BytesListed(host: Host, path: string, data: Bytes)
    ensures ListsItself(host, WriteBytes(host, path, data))
  {
    hide FloatsExact;
    FlatExact(host.floatRepr, WriteBytes(host, path, data).listing.fields);
  }

  /** The text recorded as the reason a document is missing. */
  function ReasonOf(host: Host, store: Option<Store>, doc: Document): Result<string, BuildError>
  {
    BoundedText(host.rt, TextOr(doc.reason, AbsenceNote(store, doc)), MAX_REASON_LENGTH)
  }

  /** Reading stops early only with an error, so accepted chunks are the whole content. */
  lemma {:induction false} GatherJoins(limit: Option<nat>, chunks: seq<Bytes>, read: Bytes)
    ensures Gather(limit, chunks, read).Ok? ==> Gather(limit, chunks, read).value == read + Flatten(chunks)
    ensures Gather(limit, chunks, read).Ok?
        <==> (forall c :: c in chunks ==> c != []) && (limit.Some? && chunks != [] ==> |read + Flatten(chunks)| <= limit.value)
    decreases |chunks|
  {
    if chunks != [] {
      var first, rest := chunks[0], chunks[1..];
      assert chunks == [first] + rest;
      GatherJoins(limit, rest, read + first);
      assert (read + first) + Flatten(rest) == read + Flatten(chunks);
      assert |read + Flatten(chunks)| == |read + first| + |Flatten(rest)|;
      assert first in chunks && forall c :: c in rest ==> c in chunks;
    }
  }

  /** A download succeeds exactly for a complete stream with the recorded size and digest, and returns its bytes. */
  lemma DownloadExact(host: Host, doc: Document, chunks: seq<Bytes>, ending: Ending)
    ensures var r, data := Download(host, doc, chunks, ending), Flatten(chunks);
            (r.Ok? ==> r.value == data)
            && (r.Ok? <==>
                 (forall c :: c in chunks ==> c != []) && ending.Complete?
                 && (doc.byteSize.Some? ==> |data| == doc.byteSize.value)
                 && (HashRecorded(doc) ==> host.rt.sha256(data) == doc.contentHash.value))
  {
    GatherJoins(doc.byteSize, chunks, []);
    assert [] + Flatten(chunks) == Flatten(chunks);
  }

  /** What one document turns into: its exact bytes, or one record of why it is missing. */
  predicate WrittenFor(host: Host, store: Option<Store>, doc: Document, w: Written)
  {
    && ListsItself(host, w)
    && w.entry.name == PathOf(host, store, doc)
    && if Exported(store, doc) then
         var stream := store.value(doc.storageKey.value);
         stream.Open? && w.entry.data == Flatten(stream.chunks) && w.missing.None?
         && (HashRecorded(doc) ==> host.rt.sha256(w.entry.data) == doc.contentHash.value)
         && (doc.byteSize.Some? ==> |w.entry.data| == doc.byteSize.value)
       else
         ReasonOf(host, store, doc).Ok?
         && var reason := ReasonOf(host, store, doc).value;
            w.entry.data == CanonicalBytes(MissingRecord(doc, reason)) && w.missing == Some(MissingNote(doc, reason))
  }

  lemma ExportedWritten(host: Host, store: Option<Store>, doc: Document)
    requires WriteDocument(host, store, doc).Ok? && Exported(store, doc)
    ensures WrittenFor(host, store, doc, WriteDocument(host, store, doc).value)
  {
    hide FloatsExact, BoundedText, Download, DocumentPath, WriteMissing, ReasonOf;
    var w := WriteDocument(host, store, doc).value;
    var stream := store.value(doc.storageKey.value);
    DownloadExact(host, doc, stream.chunks, stream.ending);
    FlatExact(host.floatRepr, w.listing.fields);
  }

  lemma MissingWritten(host: Host, store: Option<Store>, doc: Document)
    requires WriteDocument(host, store, doc).Ok? && !Exported(store, doc)
    ensures WrittenFor(host, store, doc, WriteDocument(host, store, doc).value)
  {
    hide FloatsExact, BoundedText, Download, CanonicalBytes, MissingPath, WriteExported, AbsenceNote, MissingRecord, MissingNote;
    FlatExact(host.floatRepr, WriteDocument(host, store, doc).value.listing.fields);
  }

  lemma DocumentWritten(host: Host, store: Option<Store>, doc: Document)
    requires WriteDocument(host, store, doc).Ok?
    ensures WrittenFor(host, store, doc, WriteDocument(host, store, doc).value)
  {
    hide WriteDocument, WrittenFor;
    if Exported(store, doc) {
      ExportedWritten(host, store, doc);
    } else {
      MissingWritten(host, store, doc);
    }
  }

  lemma {:induction false} AllWritten(host: Host, store: Option<Store>, docs: seq<Document>, seen: set<string>)
    requires WriteAll(host, store, docs, seen).Ok?
    ensures forall i :: 0 <= i < |docs| ==> WrittenFor(host, store, docs[i], WriteAll(host, store, docs, seen).value[i])
    ensures forall i :: 0 <= i < |docs| ==> docs[i].id !in seen
    ensures DistinctBy(IdOf, docs)
    decreases |docs|
  {
    hide WriteDocument, WrittenFor;
    if docs != [] {
      DocumentWritten(host, store, docs[0]);
      AllWritten(host, store, docs[1..], seen + {docs[0].id});
      var w := WriteAll(host, store, docs, seen).value;
      forall i | 0 <= i < |docs| ensures WrittenFor(host, store, docs[i], w[i]) && docs[i].id !in seen {
        assert i > 0 ==> docs[i] == docs[1..][i - 1] && w[i] == w[1..][i - 1];
      }
      forall i, j | 0 <= i < j < |docs| ensures IdOf(docs[i]) != IdOf(docs[j]) {
        assert docs[j] == docs[1..][j - 1];
        assert i > 0 ==> docs[i] == docs[1..][i - 1];
      }
    }
  }

  /** The parts of a successful build. */
  datatype Parts = Parts(audit: Json, resolved: Json, documents: seq<Written>, files: seq<Written>)

  lemma BuiltSteps(host: Host, req: Request)
    requires Built(host, req).Ok?
    ensures AuditPayloadOf(host, req).Ok? && WriteAll(host, req.store, SortBy(IdOf, req.documents), {}).Ok?
  {
    hide AuditPayloadOf, WriteAll, SortBy, Files, Assemble;
  }

  function PartsOf(host: Host, req: Request): Parts
    requires Built(host, req).Ok?
  {
    BuiltSteps(host, req);
    var (audit, resolved) := AuditPayloadOf(host, req).value;
    var documents := WriteAll(host, req.store, SortBy(IdOf, req.documents), {}).value;
    Parts(audit, resolved, documents, Files(host, req, audit, req.render(resolved), documents))
  }

  /** Floats in a request are spelled as Python prints them. */
  predicate ExactRequest(host: Host, req: Request)
  {
    && (forall row :: row in req.rows ==> FloatsExact(host.floatRepr, JObject(row)))
    && (req.supplied.Some? ==> FloatsExact(host.floatRepr, JObject(req.supplied.value)))
  }

  // ---------- the built manifest, read back ----------

  lemma VerdictExact(fr: FloatText -> FloatText, host: Host, report: Option<ChainBreak>)
    ensures FloatsExact(fr, VerdictJson(host, report))
  {
    hide BreakMessage, ReasonText;
    if report.Some? { FlatExact(fr, BreakJson(host, report.value).fields); }
  }

  lemma ResolvedExact(host: Host, req: Request)
    requires ExactRequest(host, req) && ResolvedVerdict(host, req).Ok?
    ensures var resolved := ResolvedVerdict(host, req).value;
            resolved.JObject? && Lookup(resolved.fields, "verified").JBool? && FloatsExact(host.floatRepr, resolved)
  {
    hide StrOf, Truthy, DecodeRows, CheckRows, VerdictJson;
    match req.supplied
    case Some(supplied) =>
    case None =>
      var decoded := DecodeRows(host, Mappings(req.rows));
      var report := CheckRows(host, decoded.rows, None, None).report;
      VerdictExact(host.floatRepr, host, report);
      VerdictFlag(host, report);
  }

  lemma VerdictFlag(host: Host, report: Option<ChainBreak>)
    ensures VerdictJson(host, report).JObject?
    ensures Lookup(VerdictJson(host, report).fields, "verified") == JBool(report.None?)
    ensures Lookup(VerdictJson(host, report).fields, "range") == JNull
  {
    hide BreakJson, BreakMessage;
  }

  lemma {:induction false} RowsExact(host: Host, rows: seq<map<string, Json>>)
    requires AuditRows(rows).Some? && forall row :: row in rows ==> FloatsExact(host.floatRepr, JObject(row))
    ensures forall j :: j in AuditRows(rows).value ==> FloatsExact(host.floatRepr, j)
  {
    hide AuditRow;
    if rows != [] {
      RowExact(host, rows[0]);
      RowsExact(host, rows[1..]);
    }
  }

  lemma RowExact(host: Host, row: map<string, Json>)
    requires AuditRow(row).Some? && FloatsExact(host.floatRepr, JObject(row))
    ensures FloatsExact(host.floatRepr, JObject(AuditRow(row).value))
  {}

  lemma AuditExact(host: Host, rows: seq<Json>, resolved: Json)
    requires forall j :: j in rows ==> FloatsExact(host.floatRepr, j)
    requires resolved.JObject? && FloatsExact(host.floatRepr, resolved)
    ensures FloatsExact(host.floatRepr, AuditJson(rows, resolved))
  {
    var fields := AuditJson(rows, resolved).fields;
    forall k | k in fields ensures FloatsExact(host.floatRepr, fields[k]) {}
  }

  lemma {:induction false} ObjectsAll(items: seq<Json>)
    requires forall i :: 0 <= i < |items| ==> items[i].JObject?
    ensures |Objects(items)| == |items| && forall i :: 0 <= i < |items| ==> Objects(items)[i] == items[i].fields
  {
    if items != [] {
      ObjectsAll(items[1..]);
      forall i | 0 <= i < |items| ensures Objects(items)[i] == items[i].fields {
        assert i > 0 ==> items[i] == items[1..][i - 1];
      }
    }
  }

  predicate AllListed(host: Host, files: seq<Written>)
  {
    forall w :: w in files ==> ListsItself(host, w)
  }

  /** The manifest's file list is the lines of the files, in path order. */
  lemma ListingsAre(host: Host, files: seq<Written>)
    requires AllListed(host, files)
    ensures var sorted, entries := SortBy(NameOf, files), Objects(Listings(files));
            |sorted| == |files| && |entries| == |files| && forall i :: 0 <= i < |files| ==>
              sorted[i] in files && entries[i] == sorted[i].listing.fields && Listings(files)[i] == sorted[i].listing
  {
    hide SortBy, ListsItself;
    var sorted := SortBy(NameOf, files);
    forall w: Written ensures w in sorted <==> w in files { SortMembers(NameOf, files, w); }
    assert |sorted| == |multiset(sorted)| == |files|;
    forall i | 0 <= i < |files| ensures sorted[i].listing.JObject? {
      assert sorted[i] in sorted;
      ListedObject(host, sorted[i]);
    }
    forall i | 0 <= i < |files| ensures sorted[i] in files { assert sorted[i] in sorted; }
    ObjectsAll(Listings(files));
  }

  lemma ListedObject(host: Host, w: Written)
    requires ListsItself(host, w)
    ensures w.listing.JObject? && FloatsExact(host.floatRepr, w.listing)
  {}

  lemma {:induction false} NotesExact(host: Host, files: seq<Written>)
    requires forall w :: w in files && w.missing.Some? ==> FloatsExact(host.floatRepr, w.missing.value)
    ensures forall j :: j in MissingNotes(files) ==> FloatsExact(host.floatRepr, j)
  {
    if files != [] { NotesExact(host, files[1..]); }
  }

  predicate NotesPlain(host: Host, files: seq<Written>)
  {
    forall w :: w in files && w.missing.Some? ==> FloatsExact(host.floatRepr, w.missing.value)
  }

  lemma ListingsExact(host: Host, files: seq<Written>)
    requires AllListed(host, files)
    ensures FloatsExact(host.floatRepr, JArray(Listings(files)))
  {
    hide ListsItself, Listings, SortBy;
    ListingsAre(host, files);
    var listings, sorted := Listings(files), SortBy(NameOf, files);
    forall j | j in listings ensures FloatsExact(host.floatRepr, j) {
      var i :| 0 <= i < |listings| && listings[i] == j;
      ListedObject(host, sorted[i]);
    }
  }

  lemma BaseExact(fr: FloatText -> FloatText, req: Request, resolved: Json, listings: seq<Json>, notes: seq<Json>)
    requires FloatsExact(fr, resolved) && FloatsExact(fr, JArray(listings)) && FloatsExact(fr, JArray(notes))
    ensures FloatsExact(fr, JObject(ManifestBase(req, resolved, listings, notes)))
  {
    var base := ManifestBase(req, resolved, listings, notes);
    forall k | k in base ensures FloatsExact(fr, base[k]) {}
  }

  lemma SealedExact(host: Host, base: map<string, Json>)
    requires FloatsExact(host.floatRepr, JObject(base))
    ensures FloatsExact(host.floatRepr, JObject(Sealed(host, base)))
  {
    hide CanonicalBytes;
    var sealed := Sealed(host, base);
    FlatExact(host.floatRepr, sealed["manifest_file"].fields);
    forall k | k in sealed ensures FloatsExact(host.floatRepr, sealed[k]) {}
  }

  function BaseOf(req: Request, resolved: Json, files: seq<Written>): map<string, Json>
  {
    ManifestBase(req, resolved, Listings(files), MissingNotes(files))
  }

  lemma ManifestExact(host: Host, req: Request, resolved: Json, files: seq<Written>)
    requires AllListed(host, files) && NotesPlain(host, files) && FloatsExact(host.floatRepr, resolved)
    ensures FloatsExact(host.floatRepr, JObject(Sealed(host, BaseOf(req, resolved, files))))
  {
    hide ListsItself, MissingNotes, Listings, Sealed, ManifestBase;
    NotesExact(host, files);
    ListingsExact(host, files);
    BaseExact(host.floatRepr, req, resolved, Listings(files), MissingNotes(files));
    SealedExact(host, BaseOf(req, resolved, files));
  }

  /** Taking the two digest members out of the sealed manifest gives back what was hashed. */
  lemma SealedSound(host: Host, base: map<string, Json>)
    requires host.rt.Lawful() && base.Keys !! HASH_FIELDS
    ensures SealSound(host, Sealed(host, base))
    ensures ManifestHash(Sealed(host, base)) == Some(host.rt.sha256(CanonicalBytes(JObject(base))))
  {
    hide CanonicalBytes, IsDigest;
    var m := Sealed(host, base);
    assert m - HASH_FIELDS == base;
  }

  // ---------- a built archive ----------

  function Packed(host: Host, req: Request, resolved: Json, files: seq<Written>): Archive
  {
    Assemble(host, req, resolved, files).archive
  }

  lemma PackedManifest(host: Host, req: Request, resolved: Json, files: seq<Written>)
    requires AllListed(host, files) && NotesPlain(host, files) && FloatsExact(host.floatRepr, resolved)
    ensures ManifestOf(host, Packed(host, req, resolved, files)) == Some(Sealed(host, BaseOf(req, resolved, files)))
  {
    hide LoadBytes, Sealed, ManifestBase, Listings, MissingNotes, DataOf, AllListed, NotesPlain, FloatsExact, CanonicalBytes;
    var a := Packed(host, req, resolved, files);
    DataAt(a, |a| - 1);
    ManifestExact(host, req, resolved, files);
    LoadCanonical(host, Sealed(host, BaseOf(req, resolved, files)));
  }

  lemma EntryOfFile(host: Host, a: Archive, files: seq<Written>, w: Written)
    requires w in files && |files| < |a| && (forall i :: 0 <= i < |files| ==> a[i] == files[i].entry)
    requires host.rt.Lawful() && DistinctNames(a) && ListsItself(host, w)
    requires ValidPath(w.entry.name) && w.entry.name != MANIFEST_PATH
    ensures EntrySound(host, a, w.listing.fields) && PathText(w.listing.fields) == w.entry.name
  {
    hide ValidPath, FloatsExact, IsDigest, DataOf;
    var i :| 0 <= i < |files| && files[i] == w;
    DataAt(a, i);
    assert IsDigest(host.rt.sha256(w.entry.data));
  }

  /** The archive holds the files in order, then the manifest. */
  predicate Holds(a: Archive, files: seq<Written>)
  {
    |a| == |files| + 1 && a[|files|].name == MANIFEST_PATH && forall i :: 0 <= i < |files| ==> a[i] == files[i].entry
  }

  predicate SafelyNamed(files: seq<Written>)
  {
    forall w :: w in files ==> ValidPath(w.entry.name) && w.entry.name != MANIFEST_PATH
  }

  lemma SortedDistinct(a: Archive, files: seq<Written>)
    requires Holds(a, files) && DistinctNames(a)
    ensures DistinctBy(NameOf, SortBy(NameOf, files))
  {
    hide SortBy;
    forall i, j | 0 <= i < j < |files| ensures NameOf(files[i]) != NameOf(files[j]) {
      assert a[i].name != a[j].name;
    }
    PermutedDistinct(NameOf, files, SortBy(NameOf, files));
  }

  lemma PackedEntries(host: Host, a: Archive, files: seq<Written>)
    requires host.rt.Lawful() && AllListed(host, files) && DistinctNames(a) && Holds(a, files) && SafelyNamed(files)
    ensures EntriesSound(host, a, Objects(Listings(files)))
  {
    hide ValidPath, ListsItself, EntrySound, Listings, Objects, DistinctNames, SortBy, Runtime.Lawful, HasPath, PathText;
    var sorted, entries := SortBy(NameOf, files), Objects(Listings(files));
    ListingsAre(host, files);
    SortedDistinct(a, files);
    forall i | 0 <= i < |entries|
      ensures EntrySound(host, a, entries[i]) && HasPath(entries[i]) && PathText(entries[i]) == NameOf(sorted[i])
    {
      EntryOfFile(host, a, files, sorted[i]);
      SoundLists(host, a, entries[i]);
    }
  }

  lemma FileIsListed(host: Host, files: seq<Written>, w: Written)
    requires AllListed(host, files) && w in files && ValidPath(w.entry.name)
    ensures w.entry.name in ListedPaths(Objects(Listings(files)))
  {
    hide ValidPath, Listings, Objects, SortBy;
    ListingsAre(host, files);
    var sorted, entries := SortBy(NameOf, files), Objects(Listings(files));
    SortMembers(NameOf, files, w);
    var k :| 0 <= k < |sorted| && sorted[k] == w;
    assert ListsItself(host, w);
    assert ListsSafely(entries[k]) && PathText(entries[k]) == w.entry.name;
  }

  lemma PackedComplete(host: Host, a: Archive, files: seq<Written>, m: map<string, Json>)
    requires AllListed(host, files) && EntriesOf(m) == Objects(Listings(files)) && Holds(a, files) && SafelyNamed(files)
    requires forall p :: p in REQUIRED_PATHS ==> p in NameSet(a)
    ensures FullyListed(a, m)
  {
    hide ValidPath, Listings, Objects, EntriesOf, ListedPaths, AllListed;
    forall name | name in NameSet(a) - {MANIFEST_PATH} ensures name in ListedPaths(EntriesOf(m)) {
      var i :| 0 <= i < |a| && a[i].name == name;
      FileIsListed(host, files, files[i]);
    }
  }
}
