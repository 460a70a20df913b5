/** Verifying an evidence bundle without the application: archive, manifest, digests and chain (audit/bundle.py). */
module BundleVerifier {
  import opened Prelude
  import opened Ordering
  import opened Json
  import opened Runtime
  import opened AuditChain
  import opened BundlePaths
  import opened BundleChain
  import opened BundleEscapes
  import opened EvidenceBundle
  import Utf8

  const MAX_ARCHIVE_FILES := 10_000
  const MAX_MANIFEST_BYTES := 4 * 1024 * 1024
  const MAX_ARCHIVE_BYTES := 4 * 1024 * 1024 * 1024
  const HASH_FIELDS: set<string> := {"manifest_hash", "manifest_file"}

  datatype Failure =
    | TooManyFiles
    | DuplicateNames
    | UnsafePath(path: string)
    | ArchiveTooLarge
    | ManifestMissing
    | ManifestTooLarge
    | ManifestInvalid
    | NoManifestHash
    | ManifestHashMismatch
    | ManifestFileInvalid
    | ManifestFileMismatch
    | FilesNotAList
    | NonObjectEntry
    | EntryWithoutPath
    | ListedTwice(path: string)
    | ManifestListed
    | ListedFileMissing(path: string)
    | InvalidDigest(path: string)
    | FileHashMismatch(path: string)
    | FileSizeMismatch(path: string)
    | RequiredFileMissing(path: string)
    | UnlistedFile(path: string)
    | ChainMissing
    | ChainInvalid
    | VerdictMismatch
    | ManifestVerdictMismatch

  datatype Report = Report(
    valid: bool,
    manifestHash: Option<string>,
    checked: nat,
    failures: seq<Failure>,
    chainVerified: Option<bool>,
    chainFault: Option<ChainBreak>,
    manifest: Option<map<string, Json>>)

  // ---------- reading an archive ----------

  predicate Has(a: Archive, name: string)
  {
    exists i :: 0 <= i < |a| && a[i].name == name
  }

  /** Reading by name gives the last file written under it. */
  function DataOf(a: Archive, name: string): (data: Bytes)
    requires Has(a, name)
    ensures Entry(name, data) in a
  {
    if a[|a| - 1].name == name then a[|a| - 1].data else DataOf(a[..|a| - 1], name)
  }

  function NameSet(a: Archive): set<string>
  {
    set i | 0 <= i < |a| :: a[i].name
  }

  function TotalSize(a: Archive): nat
  {
    if a == [] then 0 else |a[0].data| + TotalSize(a[1..])
  }

  predicate DistinctNames(a: Archive)
  {
    forall i, j :: 0 <= i < j < |a| ==> a[i].name != a[j].name
  }

  /** Does `json.loads` read these bytes as UTF-16 or UTF-32? */
  predicate IsWide(b: Bytes)
  {
    || (|b| >= 2 && ((b[0] == 0xFE && b[1] == 0xFF) || (b[0] == 0xFF && b[1] == 0xFE)))
    || (|b| >= 4 && (b[0] == 0 || b[1] == 0))
    || (|b| == 2 && (b[0] == 0 || b[1] == 0))
  }

  predicate HasMark(b: Bytes) { |b| >= 3 && b[0] == 0xEF && b[1] == 0xBB && b[2] == 0xBF }

  /** `json.loads` of bytes. */
  function LoadBytes(host: Host, b: Bytes): Option<Json>
  {
    var text := if IsWide(b) then host.wideText(b) else Utf8.Decode(if HasMark(b) then b[3..] else b);
    if text.None? then None else Loads(host.floatRepr, text.value)
  }

  // ---------- what a sound archive is ----------

  predicate NamesSound(a: Archive)
  {
    && |a| <= MAX_ARCHIVE_FILES
    && DistinctNames(a)
    && (forall i :: 0 <= i < |a| ==> ValidPath(a[i].name))
    && TotalSize(a) <= MAX_ARCHIVE_BYTES
  }

  function ManifestOf(host: Host, a: Archive): Option<map<string, Json>>
  {
    if !Has(a, MANIFEST_PATH) then None else
    match LoadBytes(host, DataOf(a, MANIFEST_PATH))
    case Some(JObject(fields)) => Some(fields)
    case _ => None
  }

  predicate ManifestFits(a: Archive)
  {
    Has(a, MANIFEST_PATH) && |DataOf(a, MANIFEST_PATH)| <= MAX_MANIFEST_BYTES
  }

  function ManifestHash(m: map<string, Json>): Option<string>
  {
    var h := Lookup(m, "manifest_hash");
    if h.JString? && IsDigest(h.text) then Some(h.text) else None
  }

  /** The manifest's digest covers everything in it except the two members that carry the digest. */
  predicate HashCovers(host: Host, m: map<string, Json>, digest: string)
  {
    host.rt.sha256(CanonicalBytes(JObject(m - HASH_FIELDS))) == digest
  }

  predicate NamesManifest(m: map<string, Json>)
  {
    var f := Lookup(m, "manifest_file");
    f.JObject? && Lookup(f.fields, "path") == JString(MANIFEST_PATH)
  }

  predicate RepeatsHash(m: map<string, Json>, digest: string)
  {
    var f := Lookup(m, "manifest_file");
    f.JObject? && Lookup(f.fields, "sha256") == JString(digest)
  }

  predicate SealSound(host: Host, m: map<string, Json>)
  {
    var h := ManifestHash(m);
    h.Some? && HashCovers(host, m, h.value) && NamesManifest(m) && RepeatsHash(m, h.value)
  }

  predicate HasPath(e: map<string, Json>) { Lookup(e, "path").JString? }

  function PathText(e: map<string, Json>): string
    requires HasPath(e)
  {
    Lookup(e, "path").text
  }

  predicate ListsSafely(e: map<string, Json>) { HasPath(e) && ValidPath(PathText(e)) }

  predicate HasDigest(e: map<string, Json>)
  {
    var d := Lookup(e, "sha256");
    d.JString? && IsDigest(d.text)
  }

  /** Python counts a boolean as an integer here. */
  function SizeOf(e: map<string, Json>): Option<int>
  {
    match Lookup(e, "size")
    case JInt(n) => Some(n)
    case JBool(b) => Some(if b then 1 else 0)
    case _ => None
  }

  predicate DigestMatches(host: Host, a: Archive, e: map<string, Json>)
    requires HasPath(e) && Has(a, PathText(e))
  {
    Lookup(e, "sha256") == JString(host.rt.sha256(DataOf(a, PathText(e))))
  }

  predicate SizeMatches(a: Archive, e: map<string, Json>)
    requires HasPath(e) && Has(a, PathText(e))
  {
    SizeOf(e).Some? ==> SizeOf(e).value == |DataOf(a, PathText(e))|
  }

  predicate EntrySound(host: Host, a: Archive, e: map<string, Json>)
  {
    && ListsSafely(e)
    && PathText(e) != MANIFEST_PATH
    && Has(a, PathText(e))
    && HasDigest(e)
    && DigestMatches(host, a, e)
    && SizeMatches(a, e)
  }

  predicate EntriesSound(host: Host, a: Archive, entries: seq<map<string, Json>>)
  {
    && (forall i :: 0 <= i < |entries| ==> EntrySound(host, a, entries[i]))
    && (forall i, j :: 0 <= i < j < |entries| ==> PathText(entries[i]) != PathText(entries[j]))
  }

  function ListedPaths(entries: seq<map<string, Json>>): set<string>
  {
    set i | 0 <= i < |entries| && ListsSafely(entries[i]) :: PathText(entries[i])
  }

  /** The members of a list that are objects. */
  function Objects(items: seq<Json>): (r: seq<map<string, Json>>)
    ensures |r| <= |items|
  {
    if items == [] then []
    else (if items[0].JObject? then [items[0].fields] else []) + Objects(items[1..])
  }

  function EntriesOf(m: map<string, Json>): seq<map<string, Json>>
  {
    var files := Lookup(m, "files");
    if files.JArray? then Objects(files.items) else []
  }

  predicate FilesSound(host: Host, a: Archive, m: map<string, Json>)
  {
    var files := Lookup(m, "files");
    files.JArray? && |Objects(files.items)| == |files.items| && EntriesSound(host, a, Objects(files.items))
  }

  /** Nothing required is absent and nothing present is unlisted. */
  predicate FullyListed(a: Archive, m: map<string, Json>)
  {
    && REQUIRED_PATHS <= NameSet(a)
    && NameSet(a) - {MANIFEST_PATH} <= ListedPaths(EntriesOf(m))
  }

  /** The result of verifying the embedded rows again. */
  function ChainOf(host: Host, a: Archive): ChainResult
    requires Has(a, AUDIT_PATH)
  {
    match LoadBytes(host, DataOf(a, AUDIT_PATH))
    case None => Refused
    case Some(payload) => EmbeddedChain(host, payload)
  }

  /** The archive's audit file is one that makes the verifier raise what it does not catch. */
  predicate AuditEscapes(host: Host, a: Archive)
  {
    Has(a, AUDIT_PATH) && LoadBytes(host, DataOf(a, AUDIT_PATH)).Some? && PayloadEscapes(host, LoadBytes(host, DataOf(a, AUDIT_PATH)).value)
  }

  function ChainPayload(host: Host, a: Archive): map<string, Json>
    requires Has(a, AUDIT_PATH)
  {
    match LoadBytes(host, DataOf(a, AUDIT_PATH))
    case Some(JObject(fields)) => fields
    case _ => map[]
  }

  predicate PayloadAgrees(host: Host, a: Archive, verified: bool)
    requires Has(a, AUDIT_PATH)
  {
    && Records(host, Lookup(ChainPayload(host, a), "verification"), verified)
    && Records(host, Lookup(ChainPayload(host, a), "verification_result"), verified)
  }

  predicate VerdictSound(host: Host, a: Archive, m: map<string, Json>)
  {
    Has(a, AUDIT_PATH) && ChainOf(host, a).Checked?
    && var verified := ChainOf(host, a).report.None?;
       PayloadAgrees(host, a, verified) && Records(host, Lookup(m, "chain_verification"), verified)
  }

  /** Everything the verifier promises of an archive it accepts. */
  predicate Sound(host: Host, a: Archive)
  {
    && NamesSound(a)
    && ManifestFits(a)
    && ManifestOf(host, a).Some?
    && var m := ManifestOf(host, a).value;
       SealSound(host, m) && FilesSound(host, a, m) && FullyListed(a, m) && VerdictSound(host, a, m)
  }

  // ---------- what each defect is reported as ----------

  predicate NamesFault(a: Archive, f: Failure)
  {
    match f
    case TooManyFiles => |a| > MAX_ARCHIVE_FILES
    case DuplicateNames => !DistinctNames(a)
    case UnsafePath(p) => !ValidPath(p) && exists i :: 0 <= i < |a| && a[i].name == p
    case ArchiveTooLarge => TotalSize(a) > MAX_ARCHIVE_BYTES
    case _ => false
  }

  predicate SealFault(host: Host, m: map<string, Json>, f: Failure)
  {
    var h := ManifestHash(m);
    match f
    case NoManifestHash => h.None?
    case ManifestHashMismatch => h.Some? && !HashCovers(host, m, h.value)
    case ManifestFileInvalid => h.Some? && !NamesManifest(m)
    case ManifestFileMismatch => h.Some? && NamesManifest(m) && !RepeatsHash(m, h.value)
    case _ => false
  }

  /** The defect of one entry that lists a safe path for the first time; the digest is only looked at in a file that is there. */
  predicate EntryFault(host: Host, a: Archive, e: map<string, Json>, f: Failure)
    requires ListsSafely(e)
  {
    var path := PathText(e);
    if path == MANIFEST_PATH then f == ManifestListed
    else if !Has(a, path) then f == ListedFileMissing(path)
    else if !HasDigest(e) then f == InvalidDigest(path)
    else (f == FileHashMismatch(path) && !DigestMatches(host, a, e)) || (f == FileSizeMismatch(path) && !SizeMatches(a, e))
  }

  /** The defect of entry `i` in its place. */
  predicate FaultAt(host: Host, a: Archive, entries: seq<map<string, Json>>, i: nat, f: Failure)
    requires i < |entries|
  {
    var e := entries[i];
    if !HasPath(e) then f == EntryWithoutPath
    else if !ValidPath(PathText(e)) then f == UnsafePath(PathText(e))
    else if PathText(e) in ListedPaths(entries[..i]) then f == ListedTwice(PathText(e))
    else EntryFault(host, a, e, f)
  }

  predicate EntriesFault(host: Host, a: Archive, entries: seq<map<string, Json>>, f: Failure)
  {
    exists i :: 0 <= i < |entries| && FaultAt(host, a, entries, i, f)
  }

  predicate FilesFault(host: Host, a: Archive, m: map<string, Json>, f: Failure)
  {
    var files := Lookup(m, "files");
    || (f == FilesNotAList && !files.JArray?)
    || (f == NonObjectEntry && files.JArray? && exists i :: 0 <= i < |files.items| && !files.items[i].JObject?)
    || EntriesFault(host, a, EntriesOf(m), f)
  }

  predicate ListingFault(a: Archive, m: map<string, Json>, f: Failure)
  {
    match f
    case RequiredFileMissing(p) => p in REQUIRED_PATHS && p !in NameSet(a)
    case UnlistedFile(p) => p in NameSet(a) && p != MANIFEST_PATH && p !in ListedPaths(EntriesOf(m))
    case _ => false
  }

  predicate ChainFault(host: Host, a: Archive, m: map<string, Json>, f: Failure)
  {
    match f
    case ChainMissing => !Has(a, AUDIT_PATH)
    case ChainInvalid => Has(a, AUDIT_PATH) && ChainOf(host, a).Refused?
    case VerdictMismatch =>
      Has(a, AUDIT_PATH) && ChainOf(host, a).Checked? && !PayloadAgrees(host, a, ChainOf(host, a).report.None?)
    case ManifestVerdictMismatch =>
      Has(a, AUDIT_PATH) && ChainOf(host, a).Checked?
      && !Records(host, Lookup(m, "chain_verification"), ChainOf(host, a).report.None?)
    case _ => false
  }

  /** Every defect the verifier reports of an archive, and nothing else. */
  predicate Reported(host: Host, a: Archive, f: Failure)
  {
    || NamesFault(a, f)
    || (f == ManifestMissing && !Has(a, MANIFEST_PATH))
    || (f == ManifestTooLarge && Has(a, MANIFEST_PATH) && !ManifestFits(a))
    || (f == ManifestInvalid && Has(a, MANIFEST_PATH) && ManifestOf(host, a).None?)
    || (ManifestOf(host, a).Some?
        && var m := ManifestOf(host, a).value;
           SealFault(host, m, f) || FilesFault(host, a, m, f) || ListingFault(a, m, f) || ChainFault(host, a, m, f))
  }

  predicate Lists(e: map<string, Json>, p: string) { ListsSafely(e) && PathText(e) == p }

  /** `tuple(dict.fromkeys(failures))`: each failure once, where it first occurs. */
  function Distinct(failures: seq<Failure>): (r: seq<Failure>)
    ensures forall f :: f in r <==> f in failures
    ensures r == [] <==> failures == []
    ensures forall i, j :: 0 <= i < j < |r| ==> r[i] != r[j]
  {
    if failures == [] then [] else
    var last := failures[|failures| - 1];
    var before := Distinct(failures[..|failures| - 1]);
    assert failures == failures[..|failures| - 1] + [last];
    if last in before then before else before + [last]
  }

  // ---------- the verifier ----------

  method CheckNames(a: Archive) returns (failures: seq<Failure>)
    ensures failures == [] <==> NamesSound(a)
    ensures forall f :: f in failures <==> NamesFault(a, f)
  {
    hide ValidPath, TotalSize;
    failures := [];
    if |a| > MAX_ARCHIVE_FILES { failures := failures + [TooManyFiles]; }
    if !DistinctNames(a) { failures := failures + [DuplicateNames]; }
    ghost var first := failures;
    for i := 0 to |a|
      invariant failures == [] <==> first == [] && forall k :: 0 <= k < i ==> ValidPath(a[k].name)
      invariant forall f :: f in failures <==>
        f in first || (f.UnsafePath? && !ValidPath(f.path) && exists k :: 0 <= k < i && a[k].name == f.path)
    {
      if !ValidPath(a[i].name) { failures := failures + [UnsafePath(a[i].name)]; }
    }
    if TotalSize(a) > MAX_ARCHIVE_BYTES { failures := failures + [ArchiveTooLarge]; }
  }

  method CheckSeal(host: Host, m: map<string, Json>) returns (failures: seq<Failure>)
    ensures failures == [] <==> SealSound(host, m)
    ensures forall f :: f in failures <==> SealFault(host, m, f)
  {
    hide HashCovers, RepeatsHash, NamesManifest, ManifestHash;
    failures := [];
    var digest := ManifestHash(m);
    if digest.None? {
      failures := [NoManifestHash];
    } else {
      if !HashCovers(host, m, digest.value) { failures := failures + [ManifestHashMismatch]; }
      if !NamesManifest(m) {
        failures := failures + [ManifestFileInvalid];
      } else if !RepeatsHash(m, digest.value) {
        failures := failures + [ManifestFileMismatch];
      }
    }
  }

  /** The failures found for one entry whose path is already known to be safe and new. */
  method CheckEntry(host: Host, a: Archive, e: map<string, Json>) returns (failures: seq<Failure>, hashed: bool)
    requires ListsSafely(e)
    ensures failures == [] <==> EntrySound(host, a, e)
    ensures failures == [] ==> hashed
    ensures forall f :: f in failures <==> EntryFault(host, a, e, f)
  {
    hide ValidPath, HasDigest, DigestMatches, SizeMatches, DataOf, Has;
    failures, hashed := [], false;
    var path := PathText(e);
    if path == MANIFEST_PATH { failures := [ManifestListed]; return; }
    if !Has(a, path) { failures := [ListedFileMissing(path)]; return; }
    if !HasDigest(e) { failures := [InvalidDigest(path)]; return; }
    hashed := true;
    if !DigestMatches(host, a, e) { failures := failures + [FileHashMismatch(path)]; }
    if !SizeMatches(a, e) { failures := failures + [FileSizeMismatch(path)]; }
  }

  lemma ListedStep(entries: seq<map<string, Json>>, i: nat)
    requires i < |entries|
    ensures ListedPaths(entries[..i + 1])
         == (ListedPaths(entries[..i]) + if ListsSafely(entries[i]) then {PathText(entries[i])} else {})
  {
    hide ValidPath;
    var before, after := entries[..i], entries[..i + 1];
    forall p ensures p in ListedPaths(after) <==> p in ListedPaths(before) || (ListsSafely(entries[i]) && p == PathText(entries[i])) {
      if p in ListedPaths(before) {
        var k :| 0 <= k < i && ListsSafely(before[k]) && PathText(before[k]) == p;
        assert after[k] == before[k];
      }
      if ListsSafely(entries[i]) { assert after[i] == entries[i]; }
    }
  }

  lemma SoundStep(host: Host, a: Archive, entries: seq<map<string, Json>>, i: nat)
    requires i < |entries|
    ensures EntriesSound(host, a, entries[..i + 1])
        <==> EntriesSound(host, a, entries[..i]) && EntrySound(host, a, entries[i]) && PathText(entries[i]) !in ListedPaths(entries[..i])
  {
    hide ValidPath, HasDigest, DigestMatches, SizeMatches, Has;
    var before, after := entries[..i], entries[..i + 1];
    assert after[i] == entries[i] && forall k :: 0 <= k < i ==> after[k] == before[k];
    if EntriesSound(host, a, after) {
      assert EntrySound(host, a, after[i]);
      forall k | 0 <= k < i ensures PathText(before[k]) != PathText(entries[i]) {
        assert PathText(after[k]) != PathText(after[i]);
      }
    }
    if EntriesSound(host, a, before) && EntrySound(host, a, entries[i]) && PathText(entries[i]) !in ListedPaths(before) {
      forall k | 0 <= k < i ensures PathText(before[k]) != PathText(entries[i]) {
        assert ListsSafely(before[k]);
      }
    }
  }

  lemma FaultStep(host: Host, a: Archive, entries: seq<map<string, Json>>, i: nat)
    requires i < |entries|
    ensures forall f :: EntriesFault(host, a, entries[..i + 1], f)
              <==> EntriesFault(host, a, entries[..i], f) || FaultAt(host, a, entries, i, f)
  {
    hide ValidPath, EntryFault, ListedPaths;
    var before, after := entries[..i], entries[..i + 1];
    assert forall k :: 0 <= k < i ==> after[k] == before[k] == entries[k] && after[..k] == before[..k] == entries[..k];
    assert after[i] == entries[i] && after[..i] == entries[..i];
    forall f ensures EntriesFault(host, a, after, f) <==> EntriesFault(host, a, before, f) || FaultAt(host, a, entries, i, f) {
      if EntriesFault(host, a, before, f) {
        var k :| 0 <= k < i && FaultAt(host, a, before, k, f);
        assert FaultAt(host, a, after, k, f);
      }
      if FaultAt(host, a, entries, i, f) { assert FaultAt(host, a, after, i, f); }
      if EntriesFault(host, a, after, f) {
        var k :| 0 <= k < i + 1 && FaultAt(host, a, after, k, f);
        if k < i { assert FaultAt(host, a, before, k, f); }
      }
    }
  }

  method CheckEntries(host: Host, a: Archive, entries: seq<map<string, Json>>)
      returns (failures: seq<Failure>, listed: set<string>, checked: nat)
    ensures listed == ListedPaths(entries)
    ensures failures == [] <==> EntriesSound(host, a, entries)
    ensures failures == [] ==> checked == |entries|
    ensures forall f :: f in failures <==> EntriesFault(host, a, entries, f)
  {
    hide EntrySound, EntriesSound, ListedPaths, ValidPath, EntryFault, EntriesFault;
    failures, listed, checked := [], {}, 0;
    NothingListed(host, a, entries);
    for i := 0 to |entries|
      invariant listed == ListedPaths(entries[..i])
      invariant failures == [] <==> EntriesSound(host, a, entries[..i])
      invariant failures == [] ==> checked == i
      invariant forall f :: f in failures <==> EntriesFault(host, a, entries[..i], f)
    {
      var e := entries[i];
      ListedStep(entries, i);
      SoundStep(host, a, entries, i);
      FaultStep(host, a, entries, i);
      assert EntrySound(host, a, e) ==> ListsSafely(e) by { SoundLists(host, a, e); }
      var found: seq<Failure>;
      if !HasPath(e) {
        found := [EntryWithoutPath];
      } else if !ValidPath(PathText(e)) {
        found := [UnsafePath(PathText(e))];
      } else if PathText(e) in listed {
        found := [ListedTwice(PathText(e))];
      } else {
        listed := listed + {PathText(e)};
        var hashed: bool;
        found, hashed := CheckEntry(host, a, e);
        if hashed { checked := checked + 1; }
      }
      assert forall f :: f in found <==> FaultAt(host, a, entries, i, f);
      failures := failures + found;
    }
    assert entries[..|entries|] == entries;
  }

  lemma NothingListed(host: Host, a: Archive, entries: seq<map<string, Json>>)
    ensures ListedPaths(entries[..0]) == {} && EntriesSound(host, a, entries[..0])
    ensures forall f :: !EntriesFault(host, a, entries[..0], f)
  {}

  lemma SoundLists(host: Host, a: Archive, e: map<string, Json>)
    ensures EntrySound(host, a, e) ==> ListsSafely(e)
  {}

  lemma {:induction false} ObjectsKeepAll(items: seq<Json>)
    ensures |Objects(items)| == |items| <==> forall i :: 0 <= i < |items| ==> items[i].JObject?
  {
    if items != [] {
      ObjectsKeepAll(items[1..]);
      if forall i :: 0 <= i < |items[1..]| ==> items[1..][i].JObject? {
        forall i | 0 < i < |items| ensures items[i].JObject? { assert items[i] == items[1..][i - 1]; }
      } else {
        var i :| 0 <= i < |items[1..]| && !items[1..][i].JObject?;
        assert items[i + 1] == items[1..][i];
      }
    }
  }

  method CheckFiles(host: Host, a: Archive, m: map<string, Json>)
      returns (failures: seq<Failure>, listed: set<string>, checked: nat)
    ensures listed == ListedPaths(EntriesOf(m))
    ensures failures == [] <==> FilesSound(host, a, m)
    ensures failures == [] ==> checked == |EntriesOf(m)|
    ensures forall f :: f in failures <==> FilesFault(host, a, m, f)
  {
    hide EntriesSound, ListedPaths, Objects, EntriesFault;
    var files := Lookup(m, "files");
    if files.JArray? { ObjectsKeepAll(files.items); }
    var shape: seq<Failure> :=
      if !files.JArray? then [FilesNotAList]
      else if |Objects(files.items)| != |files.items| then [NonObjectEntry]
      else [];
    failures, listed, checked := CheckEntries(host, a, EntriesOf(m));
    failures := shape + failures;
  }

  method CheckRequired(a: Archive) returns (failures: seq<Failure>)
    ensures failures == [] <==> REQUIRED_PATHS <= NameSet(a)
    ensures forall f :: f in failures <==> f.RequiredFileMissing? && f.path in REQUIRED_PATHS && f.path !in NameSet(a)
  {
    hide SortedKeys, NameSet, REQUIRED_PATHS;
    var absent := REQUIRED_PATHS - (NameSet(a) - {MANIFEST_PATH});
    var missing := SortedKeys(absent);
    ManifestNotRequired();
    EmptySorted(absent);
    AbsentMeaning(REQUIRED_PATHS, NameSet(a));
    failures := seq(|missing|, i requires 0 <= i < |missing| => RequiredFileMissing(missing[i]));
    forall f ensures f in failures <==> f.RequiredFileMissing? && f.path in REQUIRED_PATHS && f.path !in NameSet(a) {
      if f.RequiredFileMissing? && f.path in REQUIRED_PATHS && f.path !in NameSet(a) {
        assert f.path in missing;
        var i :| 0 <= i < |missing| && missing[i] == f.path;
        assert failures[i] == f;
      }
      if f in failures {
        var i :| 0 <= i < |missing| && f == RequiredFileMissing(missing[i]);
        assert missing[i] in missing;
      }
    }
  }

  lemma AbsentMeaning(required: set<string>, names: set<string>)
    requires MANIFEST_PATH !in required
    ensures required - (names - {MANIFEST_PATH}) == {} <==> required <= names
  {
    if required - (names - {MANIFEST_PATH}) == {} {
      forall p | p in required ensures p in names {
        assert p !in required - (names - {MANIFEST_PATH});
      }
    }
  }

  method CheckUnlisted(a: Archive, listed: set<string>) returns (failures: seq<Failure>)
    ensures failures == [] <==> NameSet(a) - {MANIFEST_PATH} <= listed
    ensures forall f :: f in failures <==> f.UnlistedFile? && f.path in NameSet(a) && f.path != MANIFEST_PATH && f.path !in listed
  {
    hide SortedKeys, NameSet;
    var extra := NameSet(a) - {MANIFEST_PATH} - listed;
    var unlisted := SortedKeys(extra);
    EmptySorted(extra);
    failures := seq(|unlisted|, i requires 0 <= i < |unlisted| => UnlistedFile(unlisted[i]));
    forall f ensures f in failures <==> f.UnlistedFile? && f.path in extra {
      if f.UnlistedFile? && f.path in extra {
        assert f.path in unlisted;
        var i :| 0 <= i < |unlisted| && unlisted[i] == f.path;
        assert failures[i] == f;
      }
      if f in failures {
        var i :| 0 <= i < |unlisted| && f == UnlistedFile(unlisted[i]);
        assert unlisted[i] in unlisted;
      }
    }
  }

  method CheckComplete(a: Archive, m: map<string, Json>, listed: set<string>) returns (failures: seq<Failure>)
    requires listed == ListedPaths(EntriesOf(m))
    ensures failures == [] <==> FullyListed(a, m)
    ensures forall f :: f in failures <==> ListingFault(a, m, f)
  {
    hide EntriesOf, NameSet, ListedPaths, REQUIRED_PATHS;
    var absent := CheckRequired(a);
    var extra := CheckUnlisted(a, listed);
    failures := absent + extra;
  }

  lemma ManifestNotRequired()
    ensures MANIFEST_PATH !in REQUIRED_PATHS
  {
    assert |MANIFEST_PATH| == 13 && |RECONSTRUCTION_PATH| == 19 && |PDF_PATH| == 18 && |AUDIT_PATH| == 16;
  }

  lemma EmptySorted(keys: set<string>)
    ensures SortedKeys(keys) == [] <==> keys == {}
  {}

  /** Whether the embedded chain holds and where it breaks, when it could be checked. */
  function Rechecked(host: Host, a: Archive): (Option<bool>, Option<ChainBreak>)
  {
    if Has(a, AUDIT_PATH) && ChainOf(host, a).Checked? then (Some(ChainOf(host, a).report.None?), ChainOf(host, a).report) else (None, None)
  }

  /** `_verify_embedded_chain`; the first result is None when an exception escapes. */
  method CheckChain(host: Host, a: Archive, m: map<string, Json>)
      returns (failures: Option<seq<Failure>>, verified: Option<bool>, fault: Option<ChainBreak>)
    ensures failures.None? <==> AuditEscapes(host, a)
    ensures failures.Some? ==> (failures.value == [] <==> VerdictSound(host, a, m))
    ensures failures.Some? ==> forall f :: f in failures.value <==> ChainFault(host, a, m, f)
    ensures (verified, fault) == Rechecked(host, a)
  {
    hide Has, LoadBytes, EmbeddedChain, DataOf, Records, PayloadEscapes;
    failures, verified, fault := Some([]), None, None;
    if !Has(a, AUDIT_PATH) { failures := Some([ChainMissing]); return; }
    var payload := LoadBytes(host, DataOf(a, AUDIT_PATH));
    if payload.None? { failures := Some([ChainInvalid]); return; }
    var result := RecheckRows(host, payload.value);
    EscapesExactly(host, payload.value);
    if result.Refused? { failures := Some([ChainInvalid]); return; }
    if result.Escapes? { failures := None; return; }
    CheckedIsObject(host, payload.value);
    var sound := result.report.None?;
    var found: seq<Failure> := [];
    if !Records(host, Lookup(payload.value.fields, "verification"), sound)
      || !Records(host, Lookup(payload.value.fields, "verification_result"), sound)
    {
      found := found + [VerdictMismatch];
    }
    if !Records(host, Lookup(m, "chain_verification"), sound) { found := found + [ManifestVerdictMismatch]; }
    failures, verified, fault := Some(found), Some(sound), result.report;
  }

  lemma CheckedIsObject(host: Host, payload: Json)
    requires EmbeddedChain(host, payload).Checked?
    ensures payload.JObject?
  {}

  /** Decode the rows and the range, then verify the chain. */
  method RecheckRows(host: Host, payload: Json) returns (r: ChainResult)
    ensures r == EmbeddedChain(host, payload)
  {
    hide DecodeRows, RangeOf, Scan, IsVerdict, Selected;
    if !payload.JObject? { return Refused; }
    var rows := Lookup(payload.fields, "rows");
    if !rows.JArray? { return Refused; }
    var decoded := DecodeRows(host, rows.items);
    if decoded.RowsUndecodable? { return Refused; }
    if decoded.RowsOverflow? { return Escapes; }
    var bounds := RangeOf(host, Lookup(payload.fields, "range"));
    if bounds.BoundsRefused? { return Refused; }
    if bounds.BoundsEscape? { return Escapes; }
    var from, to := bounds.from, bounds.to;
    if decoded.rows == [] || !ValidRange(from, to) || !AllDecoded(decoded.rows) {
      return CheckRows(host, decoded.rows, from, to);
    }
    var chain := Values(decoded.rows);
    var v := VerifyChain(host.rt, chain, from, to);
    var selected := Selected(chain, from, to);
    ScanIsVerdict(host.rt, selected, 0, from.Some?);
    VerdictUnique(host.rt, selected, from.Some?, v, Scan(host.rt, selected, 0, from.Some?));
    r := ResultOf(v);
  }

  function Failed(failures: seq<Failure>): Report
  {
    Report(false, None, 0, failures, None, None, None)
  }

  /**
   * `_verify_archive`: accepts exactly the sound archives, and of any other reports exactly its defects. None stands for
   * an exception the verifier does not catch, which exactly the audit files of `PayloadEscapes` raise.
   */
  method VerifyArchive(host: Host, a: Archive) returns (r: Option<Report>)
    ensures r.None? <==> ManifestOf(host, a).Some? && AuditEscapes(host, a)
    ensures r.Some? ==> (r.value.valid <==> Sound(host, a))
    ensures r.Some? ==> (r.value.valid <==> r.value.failures == [])
    ensures r.Some? ==> forall f :: f in r.value.failures <==> Reported(host, a, f)
    ensures r.Some? ==> r.value.manifest == ManifestOf(host, a)
    ensures r.Some? && r.value.manifest.Some? ==>
              r.value.manifestHash == ManifestHash(r.value.manifest.value)
              && (r.value.chainVerified, r.value.chainFault) == Rechecked(host, a)
    ensures r.Some? && r.value.manifest.None? ==>
              r.value.manifestHash.None? && r.value.chainVerified.None? && r.value.chainFault.None?
    ensures r.Some? && r.value.valid ==> r.value.checked == |EntriesOf(r.value.manifest.value)|
  {
    hide NamesSound, SealSound, FilesSound, FullyListed, LoadBytes, EntriesOf, ListedPaths, ManifestHash, AuditEscapes,
         Rechecked, NamesFault, SealFault, FilesFault, ListingFault, ChainFault;
    var failures := CheckNames(a);
    if !Has(a, MANIFEST_PATH) { return Some(Failed(failures + [ManifestMissing])); }
    if |DataOf(a, MANIFEST_PATH)| > MAX_MANIFEST_BYTES { failures := failures + [ManifestTooLarge]; }
    var loaded := LoadBytes(host, DataOf(a, MANIFEST_PATH));
    if loaded.None? || !loaded.value.JObject? { return Some(Failed(failures + [ManifestInvalid])); }
    var manifest := loaded.value.fields;
    var sealFailures := CheckSeal(host, manifest);
    var fileFailures, listed, checked := CheckFiles(host, a, manifest);
    var gaps := CheckComplete(a, manifest, listed);
    var chainFailures, verified, fault := CheckChain(host, a, manifest);
    if chainFailures.None? { return None; }
    failures := failures + sealFailures + fileFailures + gaps + chainFailures.value;
    return Some(Report(failures == [], ManifestHash(manifest), checked, Distinct(failures), verified, fault, Some(manifest)));
  }
}
