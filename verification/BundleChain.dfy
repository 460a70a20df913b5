/** The audit rows inside an evidence bundle: written as JSON, read back and verified again (audit/bundle.py). */
module BundleChain {
  import opened Prelude
  import opened Numerals
  import opened Json
  import opened Runtime
  import opened AuditPayload
  import opened AuditChain

  /** What reading JSON values back into Python needs besides `Runtime`. */
  datatype Host = Host(
    rt: Runtime,
    floatRepr: FloatText -> FloatText,               // repr(float(text))
    truncate: FloatText -> Option<int>,              // int(x); None is its OverflowError
    floatEquals: (FloatText, int) -> bool,           // x == n
    parseInt: string -> Option<int>,                 // int(s); None is its ValueError
    parseInstant: string -> Option<Instant>,         // datetime.fromisoformat(s); None is its ValueError
    collectionText: Json -> string,                  // str() of a list or a dictionary
    reasonText: HashError -> string,                 // the message of the error that refused a row's content
    wideText: Bytes -> Option<string>,               // decoding of UTF-16 and UTF-32 documents
    baseName: string -> string)                      // Path(s).name

  /** `fields.get(key)`. */
  function Lookup(fields: map<string, Json>, key: string): Json
  {
    if key in fields then fields[key] else JNull
  }

  /** `str(j)`. */
  function StrOf(host: Host, j: Json): string
  {
    match j
    case JNull => "None"
    case JBool(b) => if b then "True" else "False"
    case JInt(n) => IntText(n)
    case JFloat(t) => t
    case JString(s) => s
    case _ => host.collectionText(j)
  }

  /** `bool(j)`. */
  predicate Truthy(host: Host, j: Json)
  {
    match j
    case JNull => false
    case JBool(b) => b
    case JInt(n) => n != 0
    case JFloat(t) => !host.floatEquals(t, 0)
    case JString(s) => s != ""
    case JArray(items) => items != []
    case JObject(fields) => fields != map[]
  }

  datatype Cast = Integer(n: int) | BadText | NotNumeric | TooLarge

  /** `int(j)`. */
  function CastInt(host: Host, j: Json): Cast
  {
    match j
    case JBool(b) => Integer(if b then 1 else 0)
    case JInt(n) => Integer(n)
    case JFloat(t) => (match host.truncate(t) case Some(n) => Integer(n) case None => TooLarge)
    case JString(s) => (match host.parseInt(s) case Some(n) => Integer(n) case None => BadText)
    case _ => NotNumeric
  }

  /** `j == b`: Python's booleans equal the numbers 0 and 1. */
  predicate EqualsBool(host: Host, j: Json, b: bool)
  {
    match j
    case JBool(x) => x == b
    case JInt(n) => n == if b then 1 else 0
    case JFloat(t) => host.floatEquals(t, if b then 1 else 0)
    case _ => false
  }

  // ---------- rows ----------

  const NULLABLE_FIELDS: set<string> := {"actor_id", "actor_label", "threshold_snapshot_id", "prev_hash"}
  const REQUIRED_FIELDS: set<string> :=
    {"sequence", "occurred_at", "event_type", "subject_type", "subject_id", "payload", "hash"}

  /** `_audit_row` of a mapping: null members are dropped unless the format keeps them. */
  function AuditRow(row: map<string, Json>): Option<map<string, Json>>
  {
    if exists key :: key in REQUIRED_FIELDS && Lookup(row, key).JNull? then None
    else Some(map key | key in row && (!row[key].JNull? || key in NULLABLE_FIELDS) :: row[key])
  }

  /** `Foreign` is an item that is not an object and is passed on undecoded. */
  datatype DecodedRow = Decoded(row: Row) | Foreign | Undecodable | Overflow

  function TextOrNone(j: Json): Option<string>
  {
    if j.JString? then Some(j.text) else None
  }

  /** `_audit_row_object`. */
  function DecodeRow(host: Host, j: Json): DecodedRow
  {
    if !j.JObject? then Foreign else
    var f := j.fields;
    if "subject_id" !in f then Undecodable else
    match host.rt.parseUuid(StrOf(host, f["subject_id"]))
    case None => Undecodable
    case Some(subjectId) =>
      var actor := Lookup(f, "actor_id");
      var actorId := if Truthy(host, actor) then host.rt.parseUuid(StrOf(host, actor)) else None;
      if Truthy(host, actor) && actorId.None? then Undecodable
      else if "occurred_at" !in f then Undecodable else
      match host.parseInstant(StrOf(host, f["occurred_at"]))
      case None => Undecodable
      case Some(occurredAt) =>
        if "sequence" !in f then Undecodable else
        match CastInt(host, f["sequence"])
        case TooLarge => Overflow
        case BadText => Undecodable
        case NotNumeric => Undecodable
        case Integer(sequence) =>
          if "event_type" !in f || "subject_type" !in f || "payload" !in f || "hash" !in f then Undecodable else
          Decoded(Row(
            Event(
              sequence,
              occurredAt,
              actorId,
              TextOrNone(Lookup(f, "actor_label")),
              StrOf(host, f["event_type"]),
              StrOf(host, f["subject_type"]),
              subjectId,
              if f["payload"].JObject? then FromJson(f["payload"]) else PyDict([]),
              TextOrNone(Lookup(f, "prev_hash"))),
            StrOf(host, f["hash"])))
  }

  /** All rows decoded in order; the first failure decides. A foreign item is kept as None. */
  datatype DecodedRows = RowsUndecodable | RowsOverflow | Rows(rows: seq<Option<Row>>)

  function DecodeRows(host: Host, items: seq<Json>): (r: DecodedRows)
    ensures r.Rows? ==> |r.rows| == |items|
  {
    if items == [] then Rows([]) else
    var first := DecodeRow(host, items[0]);
    if first.Undecodable? then RowsUndecodable
    else if first.Overflow? then RowsOverflow else
    match DecodeRows(host, items[1..])
    case RowsUndecodable => RowsUndecodable
    case RowsOverflow => RowsOverflow
    case Rows(rest) => Rows([if first.Decoded? then Some(first.row) else None] + rest)
  }

  /** Dropping null members never changes what a row decodes to. */
  lemma AuditRowDecodes(host: Host, row: map<string, Json>)
    requires AuditRow(row).Some?
    ensures DecodeRow(host, JObject(AuditRow(row).value)) == DecodeRow(host, JObject(row))
  {
    hide StrOf, Truthy, CastInt, FromJson;
    var kept := AuditRow(row).value;
    forall key | key in REQUIRED_FIELDS ensures key in kept && key in row && kept[key] == row[key] {
      assert !Lookup(row, key).JNull?;
    }
    forall key | key in NULLABLE_FIELDS ensures Lookup(kept, key) == Lookup(row, key) {}
    assert {"sequence", "occurred_at", "event_type", "subject_type", "subject_id", "payload", "hash"} == REQUIRED_FIELDS;
    assert {"actor_id", "actor_label", "prev_hash"} <= NULLABLE_FIELDS;
  }

  // ---------- verdicts ----------

  /** The verdict reached by checking the rows from index `i` on. */
  function Scan(rt: Runtime, rows: seq<Row>, i: nat, bounded: bool): ChainVerdict
    requires i <= |rows|
    decreases |rows| - i
  {
    if i == |rows| then Verified
    else if rows[i].event.sequence < 1 then ValueError
    else match CheckRow(rt, Previous(rows, i), bounded, rows[i])
      case Some(fault) => Broken(fault)
      case None => Scan(rt, rows, i + 1, bounded)
  }

  lemma {:induction false} ScanIsVerdict(rt: Runtime, rows: seq<Row>, i: nat, bounded: bool)
    requires i <= |rows| && forall k :: 0 <= k < i ==> RowSound(rt, rows, k, bounded)
    ensures IsVerdict(rt, rows, bounded, Scan(rt, rows, i, bounded))
    decreases |rows| - i
  {
    hide CheckRow, RowSound, Describes;
    if i < |rows| {
      if rows[i].event.sequence < 1 {
        NotPositive(rt, rows, i, bounded);
      } else {
        CheckRowMeaning(rt, rows, i, bounded);
        if CheckRow(rt, Previous(rows, i), bounded, rows[i]).None? {
          ScanIsVerdict(rt, rows, i + 1, bounded);
        } else {
          assert FirstUnsound(rt, rows, bounded, i);
        }
      }
    }
  }

  /** `Refused` is an error the bundle code catches; `Escapes` one it does not. */
  datatype ChainResult = Checked(report: Option<ChainBreak>) | Refused | Escapes

  function ResultOf(v: ChainVerdict): ChainResult
  {
    match v
    case Verified => Checked(None)
    case Broken(fault) => Checked(Some(fault))
    case ValueError => Refused
  }

  predicate AllDecoded(rows: seq<Option<Row>>) { forall i :: 0 <= i < |rows| ==> rows[i].Some? }

  function Values(rows: seq<Option<Row>>): (r: seq<Row>)
    requires AllDecoded(rows)
    ensures |r| == |rows|
  {
    seq(|rows|, i requires 0 <= i < |rows| => rows[i].value)
  }

  /** The rows before the first foreign item. */
  function DecodedPrefix(rows: seq<Option<Row>>): (r: seq<Option<Row>>)
    ensures AllDecoded(r) && r <= rows
  {
    if rows == [] || rows[0].None? then [] else [rows[0]] + DecodedPrefix(rows[1..])
  }

  /**
   * `verify_chain` over decoded rows. A bound makes it read every row's sequence first, and a foreign item has
   * none; without bounds the foreign item is only reached when the rows before it pass.
   */
  function CheckRows(host: Host, rows: seq<Option<Row>>, from: Option<int>, to: Option<int>): ChainResult
  {
    if rows == [] then Checked(None)
    else if !ValidRange(from, to) then Refused
    else if AllDecoded(rows) then ResultOf(Scan(host.rt, Selected(Values(rows), from, to), 0, from.Some?))
    else if from.Some? || to.Some? then Escapes
    else
      var v := Scan(host.rt, Values(DecodedPrefix(rows)), 0, false);
      if v.Verified? then Escapes else ResultOf(v)
  }

  datatype Bounds = Bounds(from: Option<int>, to: Option<int>) | BoundsRefused | BoundsEscape

  function BoundOf(host: Host, j: Json): Bounds
  {
    if j.JNull? then Bounds(None, None) else
    match CastInt(host, j)
    case Integer(n) => Bounds(Some(n), None)
    case BadText => BoundsRefused
    case _ => BoundsEscape
  }

  /** The `range` member: bounds only when it is an object. */
  function RangeOf(host: Host, j: Json): Bounds
  {
    if !j.JObject? then Bounds(None, None) else
    match BoundOf(host, Lookup(j.fields, "from"))
    case BoundsRefused => BoundsRefused
    case BoundsEscape => BoundsEscape
    case Bounds(from, _) =>
      match BoundOf(host, Lookup(j.fields, "to"))
      case BoundsRefused => BoundsRefused
      case BoundsEscape => BoundsEscape
      case Bounds(to, _) => Bounds(from, to)
  }

  /** Verifying again what `audit_chain.json` holds. */
  function EmbeddedChain(host: Host, payload: Json): ChainResult
  {
    if !payload.JObject? then Refused else
    var rows := Lookup(payload.fields, "rows");
    if !rows.JArray? then Refused else
    match DecodeRows(host, rows.items)
    case RowsUndecodable => Refused
    case RowsOverflow => Escapes
    case Rows(decoded) =>
      match RangeOf(host, Lookup(payload.fields, "range"))
      case BoundsRefused => Refused
      case BoundsEscape => Escapes
      case Bounds(from, to) => CheckRows(host, decoded, from, to)
  }

  /** The `verified` member of a stored verdict says what verification found. */
  predicate Records(host: Host, stored: Json, verified: bool)
  {
    stored.JObject? && EqualsBool(host, Lookup(stored.fields, "verified"), verified)
  }

  // ---------- the stored verdict ----------

  function OptionalText(t: Option<string>): Json
  {
    match t case Some(s) => JString(s) case None => JNull
  }

  function ReasonText(host: Host, reason: BreakReason): string
  {
    match reason
    case FirstRowHasPrevious => "the first row has a previous hash"
    case SequenceNotIncreasing => "sequence is not strictly increasing"
    case LinkMismatch => "previous hash does not match the preceding row"
    case NotHashable(error) => "row content is not hashable (" + host.reasonText(error) + ")"
    case HashMismatch => "stored hash does not cover the stored row content"
  }

  function BreakMessage(host: Host, b: ChainBreak): string
  {
    "Audit chain break at sequence " + IntText(b.sequence) + " after "
    + (match b.previousSequence case None => "no previous row" case Some(n) => "sequence " + IntText(n))
    + ": " + ReasonText(host, b.reason) + "."
  }

  /** `_chain_verification`. */
  function VerdictJson(host: Host, report: Option<ChainBreak>): Json
  {
    match report
    case None =>
      JObject(map[
        "verified" := JBool(true), "status" := JString("verified"), "failure" := JNull,
        "message" := JString("Audit chain verified.")])
    case Some(b) =>
      JObject(map[
        "verified" := JBool(false), "status" := JString("failed"), "failure" := BreakJson(host, b),
        "message" := JString(BreakMessage(host, b))])
  }

  function BreakJson(host: Host, b: ChainBreak): Json
  {
    JObject(map[
      "sequence" := JInt(b.sequence),
      "previous_sequence" := match b.previousSequence case Some(n) => JInt(n) case None => JNull,
      "reason" := JString(ReasonText(host, b.reason)),
      "expected_prev_hash" := OptionalText(b.expectedPrevHash),
      "actual_prev_hash" := OptionalText(b.actualPrevHash),
      "expected_hash" := OptionalText(b.expectedHash),
      "actual_hash" := JString(b.actualHash),
      "message" := JString(BreakMessage(host, b))])
  }
}
