/** The digest of one audit row and the verification of a chain of rows (audit/chain.py). */
module AuditChain {
  import opened Prelude
  import opened Numerals
  import opened Runtime
  import opened AuditPayload
  import opened Framing
  import Utf8

  const HASH_SEPARATOR: char := '\U{1F}'
  const NULL_LINK := "<null>"

  /** A datetime: naive, or the UTC instant an aware one stands for. */
  datatype RawInstant =
    | Naive
    | Utc(year: nat, month: nat, day: nat, hour: nat, minute: nat, second: nat, micro: nat)
  {
    predicate InRange()
    {
      Naive? || (year < 10000 && month < 100 && day < 100 && hour < 100 && minute < 100 && second < 100 && micro < 1000000)
    }
  }

  type Instant = t: RawInstant | t.InRange() witness Naive

  /** `isoformat(timespec="microseconds")` of a UTC datetime. */
  function TimestampText(t: Instant): (s: string)
    requires t.Utc?
    ensures |s| == 32
  {
    Padded(t.year, 4) + "-" + Padded(t.month, 2) + "-" + Padded(t.day, 2) + "T"
    + Padded(t.hour, 2) + ":" + Padded(t.minute, 2) + ":" + Padded(t.second, 2) + "."
    + Padded(t.micro, 6) + "+00:00"
  }

  /** Everything in a row except its own digest. */
  datatype Event = Event(
    sequence: int,
    occurredAt: Instant,
    actorId: Option<Uuid>,
    actorLabel: Option<string>,
    eventType: string,
    subjectType: string,
    subjectId: Uuid,
    payload: Value,
    prevHash: Option<string>)

  datatype Row = Row(event: Event, hash: string)

  datatype HashError = BadSequence | NaiveTimestamp | BadPayload(error: PayloadError)

  function TextToken(rt: Runtime, s: string): string { rt.nfc(s) }

  /** The actor's id wins over its label; no actor is the empty token. */
  function ActorToken(rt: Runtime, e: Event): string
  {
    match e.actorId
    case Some(id) => TextToken(rt, UuidText(id))
    case None => match e.actorLabel case Some(name) => TextToken(rt, name) case None => ""
  }

  function LinkToken(prevHash: Option<string>): string
  {
    match prevHash case Some(h) => h case None => NULL_LINK
  }

  /** The eight fields of the digest material, in order. */
  function Tokens(rt: Runtime, e: Event): (r: Result<seq<string>, HashError>)
    ensures r.Ok? ==> |r.value| == 8
  {
    if e.sequence < 1 then Err(BadSequence)
    else if e.occurredAt.Naive? then Err(NaiveTimestamp)
    else match CanonicalPayload(rt, e.payload)
      case Err(error) => Err(BadPayload(error))
      case Ok(canonical) => Ok([
        IntText(e.sequence),
        TimestampText(e.occurredAt),
        ActorToken(rt, e),
        TextToken(rt, e.eventType),
        TextToken(rt, e.subjectType),
        TextToken(rt, UuidText(e.subjectId)),
        canonical,
        LinkToken(e.prevHash)])
  }

  function Material(rt: Runtime, e: Event): Result<string, HashError>
  {
    match Tokens(rt, e)
    case Err(error) => Err(error)
    case Ok(tokens) => Ok(Join(HASH_SEPARATOR, tokens))
  }

  /** `compute_event_hash`. */
  function EventHash(rt: Runtime, e: Event): Result<string, HashError>
  {
    match Material(rt, e)
    case Err(error) => Err(error)
    case Ok(material) => Ok(rt.sha256(Utf8.Encode(material)))
  }

  // ---------- verification ----------

  datatype BreakReason =
    | FirstRowHasPrevious
    | SequenceNotIncreasing
    | LinkMismatch
    | NotHashable(error: HashError)
    | HashMismatch

  datatype ChainBreak = ChainBreak(
    sequence: int,
    previousSequence: Option<int>,
    reason: BreakReason,
    expectedPrevHash: Option<string>,
    actualPrevHash: Option<string>,
    expectedHash: Option<string>,
    actualHash: string)

  /** `ValueError` is raised for an invalid range and for a selected row whose sequence is not positive. */
  datatype ChainVerdict = Verified | Broken(fault: ChainBreak) | ValueError

  predicate ValidRange(from: Option<int>, to: Option<int>)
  {
    && (from.Some? ==> from.value >= 1)
    && (to.Some? ==> to.value >= 1)
    && (from.Some? && to.Some? ==> from.value <= to.value)
  }

  predicate Fits(row: Row, low: Option<int>, high: Option<int>)
  {
    && (low.Some? ==> row.event.sequence >= low.value)
    && (high.Some? ==> row.event.sequence <= high.value)
  }

  function Between(rows: seq<Row>, low: Option<int>, high: Option<int>): seq<Row>
  {
    if rows == [] then []
    else (if Fits(rows[0], low, high) then [rows[0]] else []) + Between(rows[1..], low, high)
  }

  /** `max(rows, key=sequence)`: the first of the rows with the greatest sequence. */
  function Latest(rows: seq<Row>): Row
    requires rows != []
  {
    if |rows| == 1 then rows[0] else
    var best, last := Latest(rows[..|rows| - 1]), rows[|rows| - 1];
    if last.event.sequence > best.event.sequence then last else best
  }

  /** The row just before a bounded range, when there is one. */
  function Context(rows: seq<Row>, from: int): seq<Row>
  {
    var preceding := Between(rows, None, Some(from - 1));
    if preceding == [] then [] else [Latest(preceding)]
  }

  function Selected(rows: seq<Row>, from: Option<int>, to: Option<int>): seq<Row>
  {
    match from
    case None => Between(rows, None, to)
    case Some(low) => Context(rows, low) + Between(rows, from, to)
  }

  predicate Linked(rows: seq<Row>, i: nat, bounded: bool)
    requires i < |rows|
  {
    if i == 0 then bounded || rows[0].event.prevHash.None?
    else
      && rows[i - 1].event.sequence < rows[i].event.sequence
      && rows[i].event.prevHash == Some(rows[i - 1].hash)
  }

  /** Row `i` increases, links to its predecessor and is covered by its own digest. */
  predicate RowSound(rt: Runtime, rows: seq<Row>, i: nat, bounded: bool)
    requires i < |rows|
  {
    && rows[i].event.sequence >= 1
    && Linked(rows, i, bounded)
    && EventHash(rt, rows[i].event) == Ok(rows[i].hash)
  }

  predicate ChainSound(rt: Runtime, rows: seq<Row>, bounded: bool)
  {
    forall i :: 0 <= i < |rows| ==> RowSound(rt, rows, i, bounded)
  }

  predicate FirstUnsound(rt: Runtime, rows: seq<Row>, bounded: bool, i: nat)
  {
    && i < |rows|
    && !RowSound(rt, rows, i, bounded)
    && forall k :: 0 <= k < i ==> RowSound(rt, rows, k, bounded)
  }

  /** The report names row `i` and its predecessor, and its reason is the first check that fails there. */
  predicate Describes(rt: Runtime, rows: seq<Row>, bounded: bool, i: nat, b: ChainBreak)
    requires i < |rows|
  {
    var row := rows[i];
    && b.sequence == row.event.sequence
    && b.actualPrevHash == row.event.prevHash
    && b.actualHash == row.hash
    && b.previousSequence == (if i == 0 then None else Some(rows[i - 1].event.sequence))
    && b.expectedPrevHash == (if i == 0 then None else Some(rows[i - 1].hash))
    && (b.reason.HashMismatch? <==> b.expectedHash.Some?)
    && match b.reason
       case FirstRowHasPrevious => i == 0 && !Linked(rows, i, bounded)
       case SequenceNotIncreasing => i > 0 && row.event.sequence <= rows[i - 1].event.sequence
       case LinkMismatch =>
         i > 0 && row.event.sequence > rows[i - 1].event.sequence && row.event.prevHash != Some(rows[i - 1].hash)
       case NotHashable(error) => Linked(rows, i, bounded) && EventHash(rt, row.event) == Err(error)
       case HashMismatch =>
         Linked(rows, i, bounded) && b.expectedHash != Some(row.hash) && EventHash(rt, row.event) == Ok(b.expectedHash.value)
  }

  ghost predicate IsVerdict(rt: Runtime, rows: seq<Row>, bounded: bool, v: ChainVerdict)
  {
    match v
    case Verified => ChainSound(rt, rows, bounded)
    case ValueError => exists i: nat :: FirstUnsound(rt, rows, bounded, i) && rows[i].event.sequence < 1
    case Broken(b) =>
      exists i: nat ::
        FirstUnsound(rt, rows, bounded, i) && rows[i].event.sequence >= 1 && Describes(rt, rows, bounded, i, b)
  }

  /** The checks made on one row whose sequence is positive, in the order they are made. */
  function CheckRow(rt: Runtime, previous: Option<Row>, bounded: bool, row: Row): Option<ChainBreak>
  {
    var e := row.event;
    var previousSequence := match previous case None => None case Some(p) => Some(p.event.sequence);
    var expectedPrev := match previous case None => None case Some(p) => Some(p.hash);
    var report := (reason: BreakReason, expectedHash: Option<string>) =>
      Some(ChainBreak(e.sequence, previousSequence, reason, expectedPrev, e.prevHash, expectedHash, row.hash));
    if previous.None? && !bounded && e.prevHash.Some? then report(FirstRowHasPrevious, None)
    else if previous.Some? && e.sequence <= previous.value.event.sequence then report(SequenceNotIncreasing, None)
    else if previous.Some? && e.prevHash != Some(previous.value.hash) then report(LinkMismatch, None)
    else match EventHash(rt, e)
      case Err(error) => report(NotHashable(error), None)
      case Ok(expected) => if row.hash != expected then report(HashMismatch, Some(expected)) else None
  }

  function Previous(rows: seq<Row>, i: nat): Option<Row>
    requires i <= |rows|
  {
    if i == 0 then None else Some(rows[i - 1])
  }

  lemma CheckRowMeaning(rt: Runtime, rows: seq<Row>, i: nat, bounded: bool)
    requires i < |rows| && rows[i].event.sequence >= 1
    ensures CheckRow(rt, Previous(rows, i), bounded, rows[i]).None? <==> RowSound(rt, rows, i, bounded)
    ensures CheckRow(rt, Previous(rows, i), bounded, rows[i]).Some?
        ==> Describes(rt, rows, bounded, i, CheckRow(rt, Previous(rows, i), bounded, rows[i]).value)
  {
    hide EventHash;
  }

  method VerifyChain(rt: Runtime, rows: seq<Row>, from: Option<int>, to: Option<int>) returns (v: ChainVerdict)
    ensures !ValidRange(from, to) ==> v == ValueError
    ensures ValidRange(from, to) ==> IsVerdict(rt, Selected(rows, from, to), from.Some?, v)
  {
    hide CheckRow, Describes, RowSound;
    if !ValidRange(from, to) { return ValueError; }
    var selected := Selected(rows, from, to);
    var previous: Option<Row> := None;
    for i := 0 to |selected|
      invariant forall k :: 0 <= k < i ==> RowSound(rt, selected, k, from.Some?)
      invariant previous == Previous(selected, i)
    {
      var row := selected[i];
      if row.event.sequence < 1 {
        NotPositive(rt, selected, i, from.Some?);
        return ValueError;
      }
      CheckRowMeaning(rt, selected, i, from.Some?);
      var fault := CheckRow(rt, previous, from.Some?, row);
      if fault.Some? {
        assert FirstUnsound(rt, selected, from.Some?, i);
        return Broken(fault.value);
      }
      previous := Some(row);
    }
    return Verified;
  }

  lemma NotPositive(rt: Runtime, rows: seq<Row>, i: nat, bounded: bool)
    requires i < |rows| && rows[i].event.sequence < 1
    requires forall k :: 0 <= k < i ==> RowSound(rt, rows, k, bounded)
    ensures FirstUnsound(rt, rows, bounded, i)
  {}

  /** The verdict is fully determined by the selected rows. */
  lemma VerdictUnique(rt: Runtime, rows: seq<Row>, bounded: bool, v: ChainVerdict, w: ChainVerdict)
    requires IsVerdict(rt, rows, bounded, v) && IsVerdict(rt, rows, bounded, w)
    ensures v == w
  {
    hide EventHash;
    if !v.Verified? {
      var i: nat :| FirstUnsound(rt, rows, bounded, i)
        && (v.ValueError? ==> rows[i].event.sequence < 1)
        && (v.Broken? ==> rows[i].event.sequence >= 1 && Describes(rt, rows, bounded, i, v.fault));
      assert !w.Verified?;
      var j: nat :| FirstUnsound(rt, rows, bounded, j)
        && (w.ValueError? ==> rows[j].event.sequence < 1)
        && (w.Broken? ==> rows[j].event.sequence >= 1 && Describes(rt, rows, bounded, j, w.fault));
      assert i == j;
    }
  }
}
