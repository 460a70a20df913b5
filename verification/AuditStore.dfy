/** The recorder that validates audit events and the append-only store behind it (audit/record.py, audit/store.py). */
module AuditStore {
  import opened Prelude
  import opened Runtime
  import opened AuditPayload
  import opened PayloadAcceptance
  import opened AuditChain
  import opened TamperEvidence
  import opened ChainRanges

  const EVENT_TYPE_MAX_LENGTH := 100
  const SUBJECT_TYPE_MAX_LENGTH := 50
  const SUBJECT_REFERENCE_MAX_LENGTH := 200
  const ACTOR_LABEL_MAX_LENGTH := 200
  const REQUEST_ID_MAX_LENGTH := 40

  /** The validated content of one audit event. */
  datatype Record = Record(
    eventType: string,
    subjectType: string,
    subjectId: Uuid,
    payload: Value,
    actorId: Option<Uuid>,
    actorLabel: Option<string>,
    occurredAt: Instant,
    requestId: string)

  datatype RecordError = BadText | BadSubject | BadActor | BadInstant | BadEventPayload(error: PayloadError)

  datatype SubjectId = SubjectUuid(id: Uuid) | SubjectReference(text: string)

  /** `NoId` is an object without an id; `OtherId` an id that is neither a UUID nor text. */
  datatype Actor =
    | NoActor
    | ActorUuid(id: Uuid)
    | ActorText(text: string)
    | ActorObject(objectId: ObjectId)
    | UnsupportedActor

  datatype ObjectId = IdUuid(id: Uuid) | IdText(text: string) | OtherId

  /** `_text`: stripped, NFC, bounded and without control characters. */
  function CleanedText(rt: Runtime, value: string, maximum: nat): Result<string, RecordError>
  {
    var cleaned := rt.nfc(rt.Strip(value));
    if rt.Strip(value) == "" || |cleaned| > maximum then Err(BadText)
    else if exists i :: 0 <= i < |cleaned| && IsControlOrDelete(cleaned[i]) then Err(BadText)
    else Ok(cleaned)
  }

  function ResolveSubject(rt: Runtime, subjectType: string, id: SubjectId): Result<Uuid, RecordError>
  {
    match id
    case SubjectUuid(u) => Ok(u)
    case SubjectReference(text) =>
      if rt.Strip(text) == "" then Err(BadSubject) else
      match CleanedText(rt, rt.Strip(text), SUBJECT_REFERENCE_MAX_LENGTH)
      case Err(e) => Err(e)
      case Ok(reference) =>
        match rt.parseUuid(reference)
        case Some(u) => Ok(u)
        case None => Ok(rt.uuid5(subjectType + [HASH_SEPARATOR] + reference))
  }

  /** `_actor`: text that spells a UUID becomes an id, any other text a label. */
  function ResolveActor(rt: Runtime, actor: Actor): Result<(Option<Uuid>, Option<string>), RecordError>
  {
    match actor
    case NoActor => Ok((None, None))
    case ActorUuid(u) => Ok((Some(u), None))
    case ActorText(text) =>
      (match CleanedText(rt, text, ACTOR_LABEL_MAX_LENGTH)
       case Err(e) => Err(e)
       case Ok(cleaned) =>
         match rt.parseUuid(cleaned)
         case Some(u) => Ok((Some(u), None))
         case None => Ok((None, Some(cleaned))))
    case ActorObject(IdUuid(u)) => Ok((Some(u), None))
    case ActorObject(IdText(text)) =>
      (match rt.parseUuid(text) case Some(u) => Ok((Some(u), None)) case None => Err(BadActor))
    case ActorObject(OtherId) => Err(BadActor)
    case UnsupportedActor => Err(BadActor)
  }

  datatype Request = Request(
    eventType: string, subjectType: string, subjectId: SubjectId, payload: Value, actor: Actor,
    requestId: string, occurredAt: Instant)

  /** What `AuditRecorder.record` builds before it touches the store. */
  function Validate(rt: Runtime, r: Request): Result<Record, RecordError>
  {
    match CleanedText(rt, r.subjectType, SUBJECT_TYPE_MAX_LENGTH)
    case Err(e) => Err(e)
    case Ok(subjectType) =>
      match ResolveSubject(rt, subjectType, r.subjectId)
      case Err(e) => Err(e)
      case Ok(subjectId) =>
        match NormalisePayload(rt, r.payload)
        case Err(e) => Err(BadEventPayload(e))
        case Ok(payload) =>
          match ResolveActor(rt, r.actor)
          case Err(e) => Err(e)
          case Ok((actorId, actorLabel)) =>
            if r.occurredAt.Naive? then Err(BadInstant) else
            match CleanedText(rt, r.requestId, REQUEST_ID_MAX_LENGTH)
            case Err(e) => Err(e)
            case Ok(requestId) =>
              match CleanedText(rt, r.eventType, EVENT_TYPE_MAX_LENGTH)
              case Err(e) => Err(e)
              case Ok(eventType) =>
                Ok(Record(eventType, subjectType, subjectId, FromJson(payload), actorId, actorLabel, r.occurredAt, requestId))
  }

  /** Text that is not blank and, trimmed and normalised, within the limit and free of control characters. */
  predicate TextFits(rt: Runtime, value: string, maximum: nat)
  {
    var cleaned := rt.nfc(rt.Strip(value));
    rt.Strip(value) != "" && |cleaned| <= maximum && forall i :: 0 <= i < |cleaned| ==> cleaned[i] >= ' ' && cleaned[i] != '\U{7F}'
  }

  predicate SubjectFits(rt: Runtime, id: SubjectId)
  {
    id.SubjectReference? ==> TextFits(rt, rt.Strip(id.text), 200)
  }

  predicate ActorFits(rt: Runtime, actor: Actor)
  {
    match actor
    case NoActor => true
    case ActorUuid(_) => true
    case ActorText(text) => TextFits(rt, text, 200)
    case ActorObject(IdUuid(_)) => true
    case ActorObject(IdText(text)) => rt.parseUuid(text).Some?
    case _ => false
  }

  /** What a request must be, said of the request alone. */
  ghost predicate Acceptable(rt: Runtime, r: Request)
  {
    && TextFits(rt, r.eventType, 100) && TextFits(rt, r.subjectType, 50) && TextFits(rt, r.requestId, 40)
    && SubjectFits(rt, r.subjectId) && ActorFits(rt, r.actor)
    && r.occurredAt.Utc?
    && r.payload.PyDict? && AllAdmitted(rt, r.payload)
  }

  lemma CleanedIff(rt: Runtime, value: string, maximum: nat)
    ensures CleanedText(rt, value, maximum)
         == if TextFits(rt, value, maximum) then Ok(rt.nfc(rt.Strip(value))) else Err(BadText)
    ensures TextFits(rt, value, maximum) ==> |rt.nfc(rt.Strip(value))| <= maximum
  {}

  lemma SubjectIff(rt: Runtime, subjectType: string, id: SubjectId)
    ensures ResolveSubject(rt, subjectType, id).Ok? <==> SubjectFits(rt, id)
  {
    if id.SubjectReference? {
      CleanedIff(rt, rt.Strip(id.text), SUBJECT_REFERENCE_MAX_LENGTH);
      rt.StripTrimmed(rt.Strip(id.text));
      hide CleanedText;
    }
  }

  lemma ActorIff(rt: Runtime, actor: Actor)
    ensures ResolveActor(rt, actor).Ok? <==> ActorFits(rt, actor)
  {
    if actor.ActorText? {
      CleanedIff(rt, actor.text, ACTOR_LABEL_MAX_LENGTH);
      hide CleanedText, TextFits;
    }
  }

  /** A request validates exactly when it is acceptable, and its record then holds the trimmed, normalised texts. */
  lemma ValidateIff(rt: Runtime, r: Request)
    requires rt.Lawful()
    ensures Validate(rt, r).Ok? <==> Acceptable(rt, r)
    ensures Validate(rt, r).Ok? ==>
              var record := Validate(rt, r).value;
              record.eventType == rt.nfc(rt.Strip(r.eventType)) && |record.eventType| <= 100
              && record.subjectType == rt.nfc(rt.Strip(r.subjectType)) && |record.subjectType| <= 50
              && record.requestId == rt.nfc(rt.Strip(r.requestId)) && |record.requestId| <= 40
              && (record.actorLabel.Some? ==> |record.actorLabel.value| <= 200)
  {
    CleanedIff(rt, r.subjectType, SUBJECT_TYPE_MAX_LENGTH);
    CleanedIff(rt, r.requestId, REQUEST_ID_MAX_LENGTH);
    CleanedIff(rt, r.eventType, EVENT_TYPE_MAX_LENGTH);
    PayloadAcceptedIff(rt, r.payload);
    ActorIff(rt, r.actor);
    LabelFits(rt, r.actor);
    if TextFits(rt, r.subjectType, 50) { SubjectIff(rt, rt.nfc(rt.Strip(r.subjectType)), r.subjectId); }
    hide CleanedText, TextFits, ResolveSubject, ResolveActor, SubjectFits, ActorFits, NormalisePayload, AllAdmitted, Runtime.Lawful;
  }

  lemma LabelFits(rt: Runtime, actor: Actor)
    ensures ResolveActor(rt, actor).Ok? && ResolveActor(rt, actor).value.1.Some? ==> |ResolveActor(rt, actor).value.1.value| <= 200
  {}

  /** The event a store holding `rows` would append for a record. */
  function NextEvent(rt: Runtime, rows: seq<Row>, record: Record): Result<Event, PayloadError>
  {
    match NormalisePayload(rt, record.payload)
    case Err(e) => Err(e)
    case Ok(payload) =>
      var previous := Previous(rows, |rows|);
      Ok(Event(
        match previous case None => 1 case Some(p) => p.event.sequence + 1,
        record.occurredAt, record.actorId, record.actorLabel, record.eventType, record.subjectType,
        record.subjectId, FromJson(payload),
        match previous case None => None case Some(p) => Some(p.hash)))
  }

  datatype AppendError = PayloadRefused(error: PayloadError) | NotHashed(cause: HashError)

  function NextRow(rt: Runtime, rows: seq<Row>, record: Record): Result<Row, AppendError>
  {
    match NextEvent(rt, rows, record)
    case Err(e) => Err(PayloadRefused(e))
    case Ok(event) =>
      match EventHash(rt, event)
      case Err(e) => Err(NotHashed(e))
      case Ok(digest) => Ok(Row(event, digest))
  }

  class InMemoryAuditStore {
    var rows: seq<Row>

    constructor ()
      ensures rows == []
    {
      rows := [];
    }

    /** Every store a caller can reach holds a sound chain numbered from one. */
    ghost predicate Valid(rt: Runtime)
      reads this
    {
      Reachable(rt, rows)
    }

    method Append(rt: Runtime, record: Record) returns (r: Result<Row, AppendError>)
      requires Valid(rt)
      modifies this
      ensures Valid(rt)
      ensures r == NextRow(rt, old(rows), record)
      ensures rows == match r case Ok(row) => old(rows) + [row] case Err(_) => old(rows)
    {
      hide EventHash, NormalisePayload, ChainSound;
      if NextRow(rt, rows, record).Ok? { AppendKeepsReachable(rt, rows, record); }
      match NextEvent(rt, rows, record)
      case Err(e) => return Err(PayloadRefused(e));
      case Ok(event) =>
        match EventHash(rt, event)
        case Err(e) => return Err(NotHashed(e));
        case Ok(digest) =>
          r := Ok(Row(event, digest));
          rows := rows + [r.value];
    }

    /** The rows numbered `from` to `to`, both included: as rows are numbered from one, a slice of what was appended. */
    method Rows(rt: Runtime, from: Option<int>, to: Option<int>) returns (r: Result<seq<Row>, ()>)
      requires Valid(rt)
      ensures r.Ok? <==> ValidRange(from, to)
      ensures r.Ok? ==> 0 <= First(rows, from) <= End(rows, to) <= |rows|
      ensures r.Ok? ==> r.value == rows[First(rows, from)..End(rows, to)]
    {
      hide ChainSound, First, End;
      if !ValidRange(from, to) { return Err(()); }
      NumberedSlice(rows, from, to);
      return Ok(Between(rows, from, to));
    }

    /** A reachable store verifies over every valid range. */
    method Verify(rt: Runtime, from: Option<int>, to: Option<int>) returns (v: ChainVerdict)
      requires Valid(rt)
      ensures v == if ValidRange(from, to) then Verified else ValueError
    {
      hide EventHash, ChainSound, Selected;
      v := VerifyChain(rt, rows, from, to);
      if ValidRange(from, to) {
        WholeImpliesRange(rt, rows, from, to);
        VerdictUnique(rt, Selected(rows, from, to), from.Some?, v, Verified);
      }
    }
  }

  /** Where the rows from number `from` on start, when rows are numbered from one. */
  function First(rows: seq<Row>, from: Option<int>): int
  {
    match from case None => 0 case Some(n) => Min(n - 1, |rows|)
  }

  /** Where the rows up to number `to` end. */
  function End(rows: seq<Row>, to: Option<int>): int
  {
    match to case None => |rows| case Some(n) => Min(n, |rows|)
  }

  lemma {:induction false} NumberedCut(rows: seq<Row>, start: int, k: int)
    requires forall i :: 0 <= i < |rows| ==> rows[i].event.sequence == start + i
    ensures Cut(rows, k) == Max(0, Min(k - start + 1, |rows|))
  {
    if rows != [] { NumberedCut(rows[1..], start + 1, k); }
  }

  lemma NumberedSlice(rows: seq<Row>, from: Option<int>, to: Option<int>)
    requires (forall i :: 0 <= i < |rows| ==> rows[i].event.sequence == i + 1) && ValidRange(from, to)
    ensures 0 <= First(rows, from) <= End(rows, to) <= |rows|
    ensures Between(rows, from, to) == rows[First(rows, from)..End(rows, to)]
  {
    hide Cut, Between;
    BetweenIsSlice(rows, from, to);
    if from.Some? { NumberedCut(rows, 1, from.value - 1); }
    if to.Some? { NumberedCut(rows, 1, to.value); }
  }

  /** `AuditRecorder.record`: validate, then append; a refused request never reaches the store. */
  method RecordEvent(rt: Runtime, store: InMemoryAuditStore, request: Request)
    returns (r: Result<Row, RecordError>)
    requires rt.Lawful() && store.Valid(rt)
    modifies store
    ensures store.Valid(rt)
    ensures r.Ok? <==> Acceptable(rt, request)
    ensures r.Ok? ==> RecorderShaped(rt, r.value.event) && Carries(rt, request, old(store.rows), r.value)
    ensures store.rows == match r case Ok(row) => old(store.rows) + [row] case Err(_) => old(store.rows)
  {
    hide NormalisePayload, EventHash, ChainSound, Validate, NextRow, RecorderShaped, Carries, Acceptable;
    ValidateIff(rt, request);
    match Validate(rt, request)
    case Err(e) => return Err(e);
    case Ok(record) =>
      RecordedRowShaped(rt, request, store.rows);
      var appended := store.Append(rt, record);
      return Ok(appended.value);
  }

  /** The subject id that stands for what the request names: a UUID as it is, other text through the namespace. */
  predicate NamesSubject(rt: Runtime, request: Request, subjectType: string, id: Uuid)
  {
    match request.subjectId
    case SubjectUuid(u) => id == u
    case SubjectReference(text) =>
      var reference := rt.nfc(rt.Strip(rt.Strip(text)));
      if rt.parseUuid(reference).Some? then rt.parseUuid(reference) == Some(id)
      else id == rt.uuid5(subjectType + [HASH_SEPARATOR] + reference)
  }

  /** The actor a request names: an id, a label that is not one, or nobody. */
  predicate NamesActor(rt: Runtime, request: Request, id: Option<Uuid>, name: Option<string>)
  {
    match request.actor
    case NoActor => id.None? && name.None?
    case ActorUuid(u) => id == Some(u) && name.None?
    case ActorText(text) =>
      var cleaned := rt.nfc(rt.Strip(text));
      id == rt.parseUuid(cleaned) && name == if id.Some? then None else Some(cleaned)
    case ActorObject(IdUuid(u)) => id == Some(u) && name.None?
    case ActorObject(IdText(text)) => id.Some? && id == rt.parseUuid(text) && name.None?
    case _ => false
  }

  /** The row says what was requested, one place after the rows before it. */
  predicate Carries(rt: Runtime, request: Request, rows: seq<Row>, row: Row)
  {
    var e := row.event;
    && e.sequence == |rows| + 1
    && e.prevHash == (if rows == [] then None else Some(rows[|rows| - 1].hash))
    && e.eventType == rt.nfc(rt.Strip(request.eventType))
    && e.subjectType == rt.nfc(rt.Strip(request.subjectType))
    && e.occurredAt == request.occurredAt
    && NamesSubject(rt, request, e.subjectType, e.subjectId)
    && NamesActor(rt, request, e.actorId, e.actorLabel)
    && NormalisePayload(rt, e.payload) == NormalisePayload(rt, request.payload)
  }

  // ---------- what every reachable store satisfies ----------

  ghost predicate Reachable(rt: Runtime, rows: seq<Row>)
  {
    && ChainSound(rt, rows, false)
    && forall i :: 0 <= i < |rows| ==> rows[i].event.sequence == i + 1
  }

  lemma AppendKeepsReachable(rt: Runtime, rows: seq<Row>, record: Record)
    requires Reachable(rt, rows) && NextRow(rt, rows, record).Ok?
    ensures Reachable(rt, rows + [NextRow(rt, rows, record).value])
  {
    hide EventHash, NormalisePayload;
    var row := NextRow(rt, rows, record).value;
    var longer := rows + [row];
    forall i | 0 <= i < |longer| ensures RowSound(rt, longer, i, false) {
      if i < |rows| { assert RowSound(rt, rows, i, false); }
    }
  }

  /** The rows after a run of appends, refused ones included. */
  function Run(rt: Runtime, records: seq<Record>): seq<Row>
  {
    if records == [] then [] else
    var before := Run(rt, records[..|records| - 1]);
    match NextRow(rt, before, records[|records| - 1])
    case Ok(row) => before + [row]
    case Err(_) => before
  }

  /** Whatever is appended, accepted or refused, the store verifies over every valid range. */
  lemma {:induction false} EveryRunVerifies(rt: Runtime, records: seq<Record>, from: Option<int>, to: Option<int>)
    requires ValidRange(from, to)
    ensures Reachable(rt, Run(rt, records))
    ensures ChainSound(rt, Selected(Run(rt, records), from, to), from.Some?)
  {
    hide NextRow, ChainSound, Selected;
    if records != [] {
      var before := Run(rt, records[..|records| - 1]);
      EveryRunVerifies(rt, records[..|records| - 1], from, to);
      if NextRow(rt, before, records[|records| - 1]).Ok? {
        AppendKeepsReachable(rt, before, records[|records| - 1]);
      }
    } else {
      EmptyReachable(rt);
    }
    WholeImpliesRange(rt, Run(rt, records), from, to);
  }

  lemma EmptyReachable(rt: Runtime)
    ensures Reachable(rt, [])
  {}

  // ---------- what the recorder promises ----------

  lemma CleanedTextIsClean(rt: Runtime, value: string, maximum: nat)
    requires rt.Lawful() && CleanedText(rt, value, maximum).Ok?
    ensures CleanText(rt, CleanedText(rt, value, maximum).value)
  {}

  lemma ResolvedActorShaped(rt: Runtime, actor: Actor)
    requires rt.Lawful() && ResolveActor(rt, actor).Ok?
    ensures var (id, name) := ResolveActor(rt, actor).value;
            (id.Some? ==> name.None?)
            && (name.Some? ==> CleanText(rt, name.value) && rt.parseUuid(name.value).None?)
  {
    hide CleanedText, CleanText;
    if actor.ActorText? && CleanedText(rt, actor.text, ACTOR_LABEL_MAX_LENGTH).Ok? {
      CleanedTextIsClean(rt, actor.text, ACTOR_LABEL_MAX_LENGTH);
    }
  }

  lemma CleanedIs(rt: Runtime, value: string, maximum: nat)
    ensures CleanedText(rt, value, maximum).Ok? ==> CleanedText(rt, value, maximum).value == rt.nfc(rt.Strip(value))
  {}

  lemma ResolvedSubjectNamed(rt: Runtime, request: Request)
    ensures forall subjectType ::
      ResolveSubject(rt, subjectType, request.subjectId).Ok? ==>
        NamesSubject(rt, request, subjectType, ResolveSubject(rt, subjectType, request.subjectId).value)
  {}

  lemma ResolvedActorNamed(rt: Runtime, request: Request)
    ensures ResolveActor(rt, request.actor).Ok? ==>
              NamesActor(rt, request, ResolveActor(rt, request.actor).value.0, ResolveActor(rt, request.actor).value.1)
  {}

  /** A validated request is always hashable, and its row keeps the request's payload and clean text fields. */
  lemma RecordedRowShaped(rt: Runtime, request: Request, rows: seq<Row>)
    requires rt.Lawful() && Validate(rt, request).Ok? && Reachable(rt, rows)
    ensures NextRow(rt, rows, Validate(rt, request).value).Ok?
    ensures var row := NextRow(rt, rows, Validate(rt, request).value).value;
            RecorderShaped(rt, row.event) && Carries(rt, request, rows, row)
  {
    ResolvedSubjectNamed(rt, request);
    ResolvedActorNamed(rt, request);
    CleanedIs(rt, request.eventType, EVENT_TYPE_MAX_LENGTH);
    CleanedIs(rt, request.subjectType, SUBJECT_TYPE_MAX_LENGTH);
    hide CleanedText, CleanText, ResolveActor, ResolveSubject, NormalisePayload, NamesActor, NamesSubject;
    var record := Validate(rt, request).value;
    var payload := NormalisePayload(rt, request.payload).value;
    NormaliseIdempotent(rt, request.payload);
    CleanedTextIsClean(rt, request.eventType, EVENT_TYPE_MAX_LENGTH);
    CleanedTextIsClean(rt, request.subjectType, SUBJECT_TYPE_MAX_LENGTH);
    ResolvedActorShaped(rt, request.actor);
    assert record.payload == FromJson(payload);
    var event := NextEvent(rt, rows, record).value;
    assert event.payload == FromJson(payload);
    assert Tokens(rt, event).Ok?;
  }

  /** The rows of a store after a run of requests through the recorder, refused ones included. */
  function Recorded(rt: Runtime, requests: seq<Request>): seq<Row>
  {
    if requests == [] then [] else
    var before := Recorded(rt, requests[..|requests| - 1]);
    match Validate(rt, requests[|requests| - 1])
    case Err(_) => before
    case Ok(record) => match NextRow(rt, before, record) case Ok(row) => before + [row] case Err(_) => before
  }

  /** Whatever is requested, the recorder leaves a sound chain of recorder-shaped rows. */
  lemma {:induction false} RecordedIsSound(rt: Runtime, requests: seq<Request>)
    requires rt.Lawful()
    ensures Reachable(rt, Recorded(rt, requests)) && AllShaped(rt, Recorded(rt, requests))
  {
    hide Validate, NextRow, ChainSound, RecorderShaped, Carries;
    if requests == [] {
      EmptyReachable(rt);
    } else {
      var last := requests[|requests| - 1];
      var before := Recorded(rt, requests[..|requests| - 1]);
      RecordedIsSound(rt, requests[..|requests| - 1]);
      if Validate(rt, last).Ok? {
        RecordedRowShaped(rt, last, before);
        AppendKeepsReachable(rt, before, Validate(rt, last).value);
      }
    }
  }

  /** So the last digest of a recorder's store fixes everything hashed in it, against any other chain that verifies. */
  lemma RecordedStoreIsBound(rt: Runtime, requests: seq<Request>, rows: seq<Row>)
    requires rt.Lawful() && ChainSound(rt, rows, false)
    requires var own := Recorded(rt, requests); own != [] && rows != [] && own[|own| - 1].hash == rows[|rows| - 1].hash
    ensures SameTokens(rt, Recorded(rt, requests), rows) || HasCollision(rt, Recorded(rt, requests), rows)
  {
    hide ChainSound, AllShaped;
    RecordedIsSound(rt, requests);
    HeadFixesTokens(rt, Recorded(rt, requests), rows);
  }
}
