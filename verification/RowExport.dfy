/** An audit row written as the JSON mapping of a bundle and decoded again is the same row (audit/bundle.py). */
module RowExport {
  import opened Prelude
  import opened Numerals
  import opened Json
  import opened Runtime
  import opened AuditPayload
  import opened AuditChain
  import opened BundleChain
  import opened EvidenceBundle

  // ---------- instants ----------

  /** `isoformat()` of a UTC datetime: the fraction is left out when it is zero. */
  function IsoText(t: Instant): (s: string)
    requires t.Utc?
    ensures |s| == if t.micro == 0 then 25 else 32
  {
    DayText(t) + "T" + ClockText(t) + (if t.micro == 0 then "" else "." + Padded(t.micro, 6)) + "+00:00"
  }

  function DayText(t: Instant): (s: string)
    requires t.Utc?
    ensures |s| == 10
  {
    Padded(t.year, 4) + "-" + Padded(t.month, 2) + "-" + Padded(t.day, 2)
  }

  function ClockText(t: Instant): (s: string)
    requires t.Utc?
    ensures |s| == 8
  {
    Padded(t.hour, 2) + ":" + Padded(t.minute, 2) + ":" + Padded(t.second, 2)
  }

  lemma DayInjective(t: Instant, u: Instant)
    requires t.Utc? && u.Utc? && DayText(t) == DayText(u)
    ensures t.year == u.year && t.month == u.month && t.day == u.day
  {
    hide Padded, Pow10;
    var s := DayText(t);
    assert s[..4] == Padded(t.year, 4) == Padded(u.year, 4);
    assert s[5..7] == Padded(t.month, 2) == Padded(u.month, 2);
    assert s[8..] == Padded(t.day, 2) == Padded(u.day, 2);
    Powers();
    PaddedInjective(t.year, u.year, 4);
    PaddedInjective(t.month, u.month, 2);
    PaddedInjective(t.day, u.day, 2);
  }

  lemma ClockInjective(t: Instant, u: Instant)
    requires t.Utc? && u.Utc? && ClockText(t) == ClockText(u)
    ensures t.hour == u.hour && t.minute == u.minute && t.second == u.second
  {
    hide Padded, Pow10;
    var s := ClockText(t);
    assert s[..2] == Padded(t.hour, 2) == Padded(u.hour, 2);
    assert s[3..5] == Padded(t.minute, 2) == Padded(u.minute, 2);
    assert s[6..] == Padded(t.second, 2) == Padded(u.second, 2);
    Powers();
    PaddedInjective(t.hour, u.hour, 2);
    PaddedInjective(t.minute, u.minute, 2);
    PaddedInjective(t.second, u.second, 2);
  }

  lemma Powers()
    ensures Pow10(2) == 100 && Pow10(4) == 10_000 && Pow10(6) == 1_000_000
  {}

  lemma IsoInjective(t: Instant, u: Instant)
    requires t.Utc? && u.Utc? && IsoText(t) == IsoText(u)
    ensures t == u
  {
    hide Padded, Pow10, DayText, ClockText;
    var s := IsoText(t);
    assert s[..10] == DayText(t) == DayText(u);
    assert s[11..19] == ClockText(t) == ClockText(u);
    DayInjective(t, u);
    ClockInjective(t, u);
    if t.micro != 0 {
      assert s[20..26] == Padded(t.micro, 6) == Padded(u.micro, 6);
      Powers();
      PaddedInjective(t.micro, u.micro, 6);
    }
  }

  /** `datetime.fromisoformat` reads back what `isoformat` writes. */
  ghost predicate ReadsInstants(host: Host)
  {
    forall t: Instant :: t.Utc? ==> host.parseInstant(IsoText(t)) == Some(t)
  }

  ghost function InstantOf(s: string): Option<Instant>
  {
    if exists t: Instant :: t.Utc? && IsoText(t) == s then
      var t: Instant :| t.Utc? && IsoText(t) == s;
      Some(t)
    else None
  }

  /** The law can be met. */
  lemma InstantsCanBeRead(host: Host)
    ensures ReadsInstants(host.(parseInstant := s => InstantOf(s)))
  {
    hide IsoText;
    forall t: Instant | t.Utc? ensures InstantOf(IsoText(t)) == Some(t) {
      forall u: Instant | u.Utc? && IsoText(u) == IsoText(t) ensures u == t { IsoInjective(u, t); }
    }
  }

  // ---------- one row ----------

  function OptionalUuid(id: Option<Uuid>): Json
  {
    match id case Some(u) => JString(UuidText(u)) case None => JNull
  }

  /** The mapping says what the row says; further members, as ids and snapshots, are free. */
  predicate Exports(row: Row, f: map<string, Json>)
  {
    var e := row.event;
    && e.occurredAt.Utc?
    && Lookup(f, "sequence") == JInt(e.sequence)
    && Lookup(f, "occurred_at") == JString(IsoText(e.occurredAt))
    && Lookup(f, "actor_id") == OptionalUuid(e.actorId)
    && Lookup(f, "actor_label") == OptionalText(e.actorLabel)
    && Lookup(f, "event_type") == JString(e.eventType)
    && Lookup(f, "subject_type") == JString(e.subjectType)
    && Lookup(f, "subject_id") == JString(UuidText(e.subjectId))
    && Lookup(f, "payload").JObject? && e.payload == FromJson(Lookup(f, "payload"))
    && Lookup(f, "prev_hash") == OptionalText(e.prevHash)
    && Lookup(f, "hash") == JString(row.hash)
  }

  /** Decoding undoes exporting. */
  lemma ExportDecodes(host: Host, row: Row, f: map<string, Json>)
    requires host.rt.Lawful() && ReadsInstants(host) && Exports(row, f)
    ensures DecodeRow(host, JObject(f)) == Decoded(row)
  {
    hide FromJson, IsoText, UuidText;
    var e := row.event;
    forall key | key in REQUIRED_FIELDS ensures key in f {}
    assert {"sequence", "occurred_at", "event_type", "subject_type", "subject_id", "payload", "hash"} == REQUIRED_FIELDS;
    assert host.rt.parseUuid(StrOf(host, f["subject_id"])) == Some(e.subjectId);
    var actor := Lookup(f, "actor_id");
    assert Truthy(host, actor) <==> e.actorId.Some?;
    assert e.actorId.Some? ==> host.rt.parseUuid(StrOf(host, actor)) == e.actorId;
    assert host.parseInstant(StrOf(host, f["occurred_at"])) == Some(e.occurredAt);
  }

  lemma ExportComplete(row: Row, f: map<string, Json>)
    requires Exports(row, f)
    ensures AuditRow(f).Some?
  {
    hide FromJson, IsoText, UuidText;
    assert {"sequence", "occurred_at", "event_type", "subject_type", "subject_id", "payload", "hash"} == REQUIRED_FIELDS;
  }

  /** A row whose payload is what normalisation leaves, at an aware instant. */
  predicate PlainRow(rt: Runtime, row: Row)
  {
    var payload := NormalisePayload(rt, row.event.payload);
    row.event.occurredAt.Utc? && payload.Ok? && row.event.payload == FromJson(payload.value)
  }

  /** Such a row can be exported. */
  function RowMapping(rt: Runtime, row: Row): (f: map<string, Json>)
    requires PlainRow(rt, row)
    ensures Exports(row, f)
  {
    hide FromJson, IsoText, UuidText, NormalisePayload;
    var e := row.event;
    map[
      "sequence" := JInt(e.sequence),
      "occurred_at" := JString(IsoText(e.occurredAt)),
      "actor_id" := OptionalUuid(e.actorId),
      "actor_label" := OptionalText(e.actorLabel),
      "event_type" := JString(e.eventType),
      "subject_type" := JString(e.subjectType),
      "subject_id" := JString(UuidText(e.subjectId)),
      "payload" := NormalisePayload(rt, e.payload).value,
      "prev_hash" := OptionalText(e.prevHash),
      "hash" := JString(row.hash)]
  }

  // ---------- a chain ----------

  predicate ChainExports(rows: seq<Row>, mappings: seq<map<string, Json>>)
  {
    |mappings| == |rows| && forall i :: 0 <= i < |rows| ==> Exports(rows[i], mappings[i])
  }

  function AllRows(rows: seq<Row>): (r: seq<Option<Row>>)
    ensures |r| == |rows| && AllDecoded(r) && Values(r) == rows
  {
    seq(|rows|, i requires 0 <= i < |rows| => Some(rows[i]))
  }

  lemma {:induction false} ChainDecodes(host: Host, rows: seq<Row>, mappings: seq<map<string, Json>>)
    requires host.rt.Lawful() && ReadsInstants(host) && ChainExports(rows, mappings)
    ensures DecodeRows(host, Mappings(mappings)) == DecodedRows.Rows(AllRows(rows))
  {
    hide DecodeRow, Exports, ReadsInstants, Runtime.Lawful;
    if rows != [] {
      ExportDecodes(host, rows[0], mappings[0]);
      ChainDecodes(host, rows[1..], mappings[1..]);
      assert Mappings(mappings)[1..] == Mappings(mappings[1..]);
      assert AllRows(rows) == [Some(rows[0])] + AllRows(rows[1..]);
    } else {
      assert Mappings(mappings) == [];
    }
  }

  lemma {:induction false} ChainComplete(rows: seq<Row>, mappings: seq<map<string, Json>>)
    requires ChainExports(rows, mappings)
    ensures AuditRows(mappings).Some?
  {
    hide Exports, AuditRow;
    if rows != [] {
      ExportComplete(rows[0], mappings[0]);
      ChainComplete(rows[1..], mappings[1..]);
    }
  }

  /** What checking exported rows finds is the verdict on the rows they were exported from. */
  lemma ExportedVerdict(host: Host, rows: seq<Row>, mappings: seq<map<string, Json>>, v: ChainVerdict)
    requires host.rt.Lawful() && ReadsInstants(host) && ChainExports(rows, mappings)
    requires IsVerdict(host.rt, rows, false, v)
    ensures DecodeRows(host, Mappings(mappings)).Rows?
    ensures CheckRows(host, DecodeRows(host, Mappings(mappings)).rows, None, None) == ResultOf(v)
    ensures ComputedVerdict(host, mappings)
         == match v
            case Verified => Ok(VerdictJson(host, None))
            case Broken(fault) => Ok(VerdictJson(host, Some(fault)))
            case ValueError => Err(BadRow)
  {
    hide Scan, IsVerdict, VerdictJson, ChainExports, ReadsInstants, Runtime.Lawful;
    ChainDecodes(host, rows, mappings);
    UnboundedSelection(rows);
    ScanIsVerdict(host.rt, rows, 0, false);
    VerdictUnique(host.rt, rows, false, v, Scan(host.rt, rows, 0, false));
    if rows == [] { EmptyPasses(host.rt); }
  }

  lemma EmptyPasses(rt: Runtime)
    ensures Scan(rt, [], 0, false) == Verified
  {}
}
