/** From the recorder to the verifier: a recorded chain, exported in a bundle, is found sound (audit/record.py, audit/bundle.py). */
module RecordedBundles {
  import opened Prelude
  import opened Ordering
  import opened Json
  import opened Runtime
  import opened AuditPayload
  import opened AuditChain
  import opened ChainRanges
  import AuditStore
  import opened BundlePaths
  import opened BundleChain
  import opened EvidenceBundle
  import opened BundleVerifier
  import opened BundleGuarantees
  import opened BundleTheorems
  import opened RowExport

  /** The chain that the verifier finds in a bundle is the chain that was exported. */
  lemma ExportedChainRechecked(host: Host, req: Request, rows: seq<Row>, v: ChainVerdict)
    requires host.rt.Lawful() && ReadsInstants(host) && ExactRequest(host, req)
    requires Built(host, req).Ok? && req.supplied.None? && ChainExports(rows, req.rows)
    requires IsVerdict(host.rt, rows, false, v)
    ensures Has(Built(host, req).value.archive, AUDIT_PATH) && ChainOf(host, Built(host, req).value.archive) == ResultOf(v)
  {
    hide Built, ExactRequest, IsVerdict, ChainExports, ReadsInstants, Runtime.Lawful, DecodeRows, CheckRows, ManifestOf, EmbeddedChain, PartsOf,
         VerdictHolds, VerdictSound;
    ExportedVerdict(host, rows, req.rows, v);
    ExportedAudit(host, req);
    BuiltManifest(host, req);
    BuiltVerdict(host, req);
  }

  /** Re-verifying the audit file of a bundle is checking the rows that were asked for. */
  lemma ExportedAudit(host: Host, req: Request)
    requires Built(host, req).Ok? && req.supplied.None? && DecodeRows(host, Mappings(req.rows)).Rows?
    ensures EmbeddedChain(host, PartsOf(host, req).audit) == CheckRows(host, DecodeRows(host, Mappings(req.rows)).rows, None, None)
  {
    hide WriteAll, DecodeRows, CheckRows, VerdictJson, AuditRows, SortBy, Files, Assemble;
    BuiltSteps(host, req);
    var p := PartsOf(host, req);
    var rows := AuditRows(req.rows).value;
    ExportedRowsDecode(host, req.rows);
    VerdictFlag(host, CheckRows(host, DecodeRows(host, rows).rows, None, None).report);
    assert Lookup(p.audit.fields, "rows") == JArray(rows) && Lookup(p.audit.fields, "range") == JNull;
  }

  /** A stored verdict that says the chain holds. */
  predicate SaysVerified(j: Json)
  {
    j.JObject? && Lookup(j.fields, "verified") == JBool(true) && Lookup(j.fields, "status") == JString("verified")
    && Lookup(j.fields, "failure") == JNull
  }

  /** A stored verdict that names row `i` as the place where the chain breaks. */
  predicate SaysBroken(j: Json, rows: seq<Row>, i: nat)
    requires i < |rows|
  {
    j.JObject? && Lookup(j.fields, "verified") == JBool(false) && Lookup(j.fields, "status") == JString("failed")
    && Lookup(j.fields, "failure").JObject?
    && var failure := Lookup(j.fields, "failure").fields;
       && Lookup(failure, "sequence") == JInt(rows[i].event.sequence)
       && Lookup(failure, "actual_hash") == JString(rows[i].hash)
       && Lookup(failure, "actual_prev_hash") == OptionalText(rows[i].event.prevHash)
       && Lookup(failure, "previous_sequence") == (if i == 0 then JNull else JInt(rows[i - 1].event.sequence))
       && Lookup(failure, "expected_prev_hash") == (if i == 0 then JNull else JString(rows[i - 1].hash))
  }

  lemma VerdictTells(host: Host, rows: seq<Row>, i: nat, fault: ChainBreak)
    requires i < |rows| && Describes(host.rt, rows, false, i, fault)
    ensures SaysBroken(VerdictJson(host, Some(fault)), rows, i)
  {
    hide EventHash, ReasonText, BreakMessage;
  }

  lemma SoundTells(host: Host)
    ensures SaysVerified(VerdictJson(host, None))
  {}

  lemma ManifestVerdict(host: Host, req: Request)
    requires ExactRequest(host, req) && Built(host, req).Ok?
    ensures ManifestOf(host, Built(host, req).value.archive).Some?
    ensures Lookup(ManifestOf(host, Built(host, req).value.archive).value, "chain_verification") == PartsOf(host, req).resolved
  {
    hide Built, PartsOf, ManifestOf, Sealed, BaseOf, ExactRequest;
    BuiltManifest(host, req);
    SealedFiles(host, req, PartsOf(host, req).resolved, PartsOf(host, req).files);
  }

  lemma ResolvedIsComputed(host: Host, req: Request)
    requires Built(host, req).Ok? && req.supplied.None?
    ensures ComputedVerdict(host, req.rows) == Ok(PartsOf(host, req).resolved)
  {
    hide WriteAll, ComputedVerdict, AuditRows, SortBy, Files, Assemble;
    BuiltSteps(host, req);
  }

  /**
   * A sound chain that is exported gets a verdict that says so, in the manifest and again from the verifier; within
   * the size limits, and with documents named by UUIDs, the bundle is accepted.
   */
  lemma SoundChainBundle(host: Host, req: Request, rows: seq<Row>)
    requires host.rt.Lawful() && ReadsInstants(host) && ExactRequest(host, req)
    requires Built(host, req).Ok? && req.supplied.None? && ChainExports(rows, req.rows)
    requires ChainSound(host.rt, rows, false)
    ensures var a := Built(host, req).value.archive;
            && Has(a, AUDIT_PATH) && ChainOf(host, a) == Checked(None)
            && ManifestOf(host, a).Some? && SaysVerified(Lookup(ManifestOf(host, a).value, "chain_verification"))
            && (NamedByUuids(req.documents) && WithinLimits(a) ==> Sound(host, a))
  {
    hide Built, ExactRequest, ChainExports, ReadsInstants, Runtime.Lawful, ManifestOf, PartsOf, ChainOf, ComputedVerdict, ChainSound,
         VerdictJson, NamedByUuids, WithinLimits, Sound, Has, SaysVerified;
    ExportedChainRechecked(host, req, rows, Verified);
    ExportedVerdict(host, rows, req.rows, Verified);
    ResolvedIsComputed(host, req);
    ManifestVerdict(host, req);
    SoundTells(host);
    if NamedByUuids(req.documents) && WithinLimits(Built(host, req).value.archive) { ComputedBundleVerifies(host, req); }
  }

  /** A chain that does not hold gets a verdict that names its first unsound row. */
  lemma BrokenChainBundle(host: Host, req: Request, rows: seq<Row>, i: nat)
    requires host.rt.Lawful() && ReadsInstants(host) && ExactRequest(host, req)
    requires Built(host, req).Ok? && req.supplied.None? && ChainExports(rows, req.rows)
    requires FirstUnsound(host.rt, rows, false, i) && rows[i].event.sequence >= 1
    ensures var a := Built(host, req).value.archive;
            && Has(a, AUDIT_PATH) && ChainOf(host, a).Checked? && ChainOf(host, a).report.Some?
            && ManifestOf(host, a).Some? && SaysBroken(Lookup(ManifestOf(host, a).value, "chain_verification"), rows, i)
  {
    hide Built, ExactRequest, ChainExports, ReadsInstants, Runtime.Lawful, ManifestOf, PartsOf, ChainOf, ComputedVerdict,
         VerdictJson, Has, SaysBroken, Describes, RowSound, CheckRow;
    CheckRowMeaning(host.rt, rows, i, false);
    UnsoundFails(host.rt, rows, i);
    var fault := CheckRow(host.rt, Previous(rows, i), false, rows[i]).value;
    assert IsVerdict(host.rt, rows, false, Broken(fault));
    ExportedChainRechecked(host, req, rows, Broken(fault));
    ExportedVerdict(host, rows, req.rows, Broken(fault));
    ResolvedIsComputed(host, req);
    ManifestVerdict(host, req);
    VerdictTells(host, rows, i, fault);
  }

  lemma UnsoundFails(rt: Runtime, rows: seq<Row>, i: nat)
    requires FirstUnsound(rt, rows, false, i) && rows[i].event.sequence >= 1
    ensures CheckRow(rt, Previous(rows, i), false, rows[i]).Some?
    ensures Describes(rt, rows, false, i, CheckRow(rt, Previous(rows, i), false, rows[i]).value)
  {
    hide EventHash;
    CheckRowMeaning(rt, rows, i, false);
  }

  /** A range as a verdict states it. */
  function RangeJson(from: Option<int>, to: Option<int>): Json
  {
    JObject(map[
      "from" := match from case None => JNull case Some(n) => JInt(n),
      "to" := match to case None => JNull case Some(n) => JInt(n)])
  }

  lemma RangeReadBack(host: Host, from: Option<int>, to: Option<int>)
    ensures RangeOf(host, RangeJson(from, to)) == Bounds(from, to)
  {}

  lemma SuppliedAudit(host: Host, req: Request)
    requires Built(host, req).Ok? && req.supplied.Some?
    ensures var audit := PartsOf(host, req).audit;
            audit.JObject? && AuditRows(req.rows).Some? && Lookup(audit.fields, "rows") == JArray(AuditRows(req.rows).value)
            && Lookup(audit.fields, "range") == Lookup(req.supplied.value, "range")
  {
    hide WriteAll, SuppliedVerdict, AuditRows, SortBy, Files, Assemble;
    BuiltSteps(host, req);
    SuppliedPassesOn(host, req.supplied.value);
  }

  /** A verdict supplied for a range of the chain is checked over that range, with the row before it as its context. */
  lemma SuppliedRangeRechecked(host: Host, req: Request, rows: seq<Row>, from: Option<int>, to: Option<int>, v: ChainVerdict)
    requires host.rt.Lawful() && ReadsInstants(host) && ExactRequest(host, req) && Built(host, req).Ok?
    requires req.supplied.Some? && Lookup(req.supplied.value, "range") == RangeJson(from, to) && ValidRange(from, to)
    requires rows != [] && ChainExports(rows, req.rows) && IsVerdict(host.rt, Selected(rows, from, to), from.Some?, v)
    ensures Has(Built(host, req).value.archive, AUDIT_PATH) && ChainOf(host, Built(host, req).value.archive) == ResultOf(v)
  {
    hide Built, ExactRequest, IsVerdict, ReadsInstants, Runtime.Lawful, ManifestOf, PartsOf, VerdictHolds, VerdictSound, EmbeddedChain,
         ChainExports, Scan, Selected, LoadBytes, Has, DataOf;
    SuppliedEmbedded(host, req, rows, from, to);
    ScanIsVerdict(host.rt, Selected(rows, from, to), 0, from.Some?);
    VerdictUnique(host.rt, Selected(rows, from, to), from.Some?, v, Scan(host.rt, Selected(rows, from, to), 0, from.Some?));
    BuiltManifest(host, req);
    BuiltVerdict(host, req);
  }

  lemma SuppliedEmbedded(host: Host, req: Request, rows: seq<Row>, from: Option<int>, to: Option<int>)
    requires host.rt.Lawful() && ReadsInstants(host) && Built(host, req).Ok? && ChainExports(rows, req.rows)
    requires req.supplied.Some? && Lookup(req.supplied.value, "range") == RangeJson(from, to)
    ensures EmbeddedChain(host, PartsOf(host, req).audit) == CheckRows(host, AllRows(rows), from, to)
  {
    hide Built, ReadsInstants, Runtime.Lawful, DecodeRows, PartsOf, ChainExports, RangeOf, AuditRows, CheckRows, RangeJson;
    SuppliedAudit(host, req);
    ExportedRowsDecode(host, req.rows);
    ChainDecodes(host, rows, req.rows);
    RangeReadBack(host, from, to);
  }

  /** So a supplied verdict over any range of a sound chain is accepted exactly when it says that the range holds. */
  lemma SuppliedRangeVerifies(host: Host, req: Request, rows: seq<Row>, from: Option<int>, to: Option<int>)
    requires host.rt.Lawful() && ReadsInstants(host) && ExactRequest(host, req) && Built(host, req).Ok?
    requires req.supplied.Some? && Lookup(req.supplied.value, "range") == RangeJson(from, to) && ValidRange(from, to)
    requires rows != [] && ChainExports(rows, req.rows) && ChainSound(host.rt, rows, false)
    requires NamedByUuids(req.documents) && WithinLimits(Built(host, req).value.archive)
    ensures Sound(host, Built(host, req).value.archive) <==> Lookup(req.supplied.value, "verified") == JBool(true)
  {
    hide Built, ExactRequest, ReadsInstants, Runtime.Lawful, ManifestOf, PartsOf, Sound, ChainSound, Selected, ChainExports, EmbeddedChain,
         WithinLimits, NamedByUuids, DistinctPaths, LoadBytes, Has, DataOf, ManifestHash;
    WholeImpliesRange(host.rt, rows, from, to);
    SuppliedRangeRechecked(host, req, rows, from, to, Verified);
    BuiltManifest(host, req);
    BuiltVerdict(host, req);
    UuidDocumentsApart(host, req);
    BuiltVerifies(host, req);
    ResolvedIsSupplied(host, req);
    SuppliedPassesOn(host, req.supplied.value);
  }

  /** A verdict that came with the request is passed on: flag, failure and range as given, status and message unless left out. */
  predicate PassesOn(supplied: map<string, Json>, verdict: Json)
  {
    verdict.JObject? && Lookup(supplied, "verified").JBool?
    && var verified := Lookup(supplied, "verified").flag;
       && Lookup(verdict.fields, "verified") == JBool(verified)
       && Lookup(verdict.fields, "failure") == Lookup(supplied, "failure")
       && ("range" in verdict.fields <==> "range" in supplied) && Lookup(verdict.fields, "range") == Lookup(supplied, "range")
       && Lookup(verdict.fields, "status").JString? && Lookup(verdict.fields, "status").text in {"verified", "failed"}
       && Lookup(verdict.fields, "status")
          == (if "status" in supplied then supplied["status"] else JString(if verified then "verified" else "failed"))
       && (Lookup(supplied, "message").JString? && Lookup(supplied, "message") != JString("") ==>
             Lookup(verdict.fields, "message") == Lookup(supplied, "message"))
       && (Lookup(supplied, "message") in {JNull, JString("")} ==>
             Lookup(verdict.fields, "message")
             == JString(if verified then "Audit chain verified." else "Audit chain verification failed."))
  }

  lemma SuppliedPassesOn(host: Host, supplied: map<string, Json>)
    requires SuppliedVerdict(host, supplied).Ok?
    ensures PassesOn(supplied, SuppliedVerdict(host, supplied).value)
  {}

  /** So the manifest of a bundle built with a verdict carries that verdict. */
  lemma SuppliedVerdictKept(host: Host, req: Request)
    requires ExactRequest(host, req) && Built(host, req).Ok? && req.supplied.Some?
    ensures ManifestOf(host, Built(host, req).value.archive).Some?
    ensures PassesOn(req.supplied.value, Lookup(ManifestOf(host, Built(host, req).value.archive).value, "chain_verification"))
  {
    hide Built, PartsOf, ManifestOf, ExactRequest, PassesOn, SuppliedVerdict;
    ManifestVerdict(host, req);
    ResolvedIsSupplied(host, req);
    SuppliedPassesOn(host, req.supplied.value);
  }

  lemma ResolvedIsSupplied(host: Host, req: Request)
    requires Built(host, req).Ok? && req.supplied.Some?
    ensures SuppliedVerdict(host, req.supplied.value) == Ok(PartsOf(host, req).resolved)
  {
    hide WriteAll, SuppliedVerdict, AuditRows, SortBy, Files, Assemble;
    BuiltSteps(host, req);
  }

  // ---------- recorded chains ----------

  predicate AllPlain(rt: Runtime, rows: seq<Row>)
  {
    forall i :: 0 <= i < |rows| ==> PlainRow(rt, rows[i])
  }

  lemma NextIsPlain(rt: Runtime, rows: seq<Row>, record: AuditStore.Record)
    requires AuditStore.NextRow(rt, rows, record).Ok? && rt.Lawful()
    ensures PlainRow(rt, AuditStore.NextRow(rt, rows, record).value)
  {
    hide NormalisePayload;
    NormaliseIdempotent(rt, record.payload);
  }

  /** Everything the recorder stores has an export. */
  lemma {:induction false} RecordedIsPlain(rt: Runtime, requests: seq<AuditStore.Request>)
    requires rt.Lawful()
    ensures AllPlain(rt, AuditStore.Recorded(rt, requests))
  {
    hide AuditStore.Validate, AuditStore.NextRow, PlainRow;
    if requests != [] {
      var last := requests[|requests| - 1];
      var before := AuditStore.Recorded(rt, requests[..|requests| - 1]);
      RecordedIsPlain(rt, requests[..|requests| - 1]);
      if AuditStore.Validate(rt, last).Ok? && AuditStore.NextRow(rt, before, AuditStore.Validate(rt, last).value).Ok? {
        NextIsPlain(rt, before, AuditStore.Validate(rt, last).value);
      }
    }
  }

  function Exported(rt: Runtime, rows: seq<Row>): (mappings: seq<map<string, Json>>)
    requires AllPlain(rt, rows)
    ensures ChainExports(rows, mappings)
  {
    seq(|rows|, i requires 0 <= i < |rows| => RowMapping(rt, rows[i]))
  }

  /**
   * Whatever is requested of the recorder, the rows it stored, exported in a bundle, are found sound by builder and
   * verifier alike.
   */
  lemma RecordedBundleVerifies(host: Host, requests: seq<AuditStore.Request>, req: Request)
    requires host.rt.Lawful() && ReadsInstants(host) && ExactRequest(host, req) && Built(host, req).Ok? && req.supplied.None?
    requires ChainExports(AuditStore.Recorded(host.rt, requests), req.rows)
    ensures var a := Built(host, req).value.archive;
            && Has(a, AUDIT_PATH) && ChainOf(host, a) == Checked(None)
            && ManifestOf(host, a).Some? && SaysVerified(Lookup(ManifestOf(host, a).value, "chain_verification"))
            && (NamedByUuids(req.documents) && WithinLimits(a) ==> Sound(host, a))
  {
    hide Built, ExactRequest, ChainExports, ReadsInstants, Runtime.Lawful, ManifestOf, ChainOf, ChainSound, AuditStore.Recorded,
         NamedByUuids, WithinLimits, Sound, Has, SaysVerified;
    AuditStore.RecordedIsSound(host.rt, requests);
    SoundChainBundle(host, req, AuditStore.Recorded(host.rt, requests));
  }
}
