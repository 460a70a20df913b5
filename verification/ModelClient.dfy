/** The one guarded model-call site: reserve, call, settle, record, retry once, fall back (ai/client.py). */
module ModelClient {
  import opened Prelude
  import opened BudgetLedger

  const MAX_FIELD_LENGTH := 50

  datatype Reason = Timeout | TransportFailure | CassetteMiss | HttpStatus(code: nat) | OtherReason

  datatype Response = Response(
    model: Option<string>, inputTokens: Option<nat>, outputTokens: Option<nat>, fromCassette: bool)

  /** What one provider call ends in; the provider is an oracle. */
  datatype Answer =
    | Answered(response: Response)
    | Unavailable(reason: Reason)
    | AuthRejected
    | ProviderRejected
    | Failed(errorType: string)

  /** One call as the caller states it. `refusal` is why validation refuses it, when it does. */
  datatype Call = Call(
    stage: string,
    provider: string,
    model: string,
    promptVersion: Option<string>,
    refusal: Option<string>,
    configuredEstimate: Option<real>,
    inputPrice: Option<real>,
    outputPrice: Option<real>,
    inputLength: nat,
    maxTokens: nat,
    cassette: Option<string>)

  datatype Attempt = Attempt(at: int, id: nat, answer: Answer)

  /** Everything the outside world contributes to one call; `writerOk(n)` is whether the n-th write succeeds. */
  datatype World = World(first: Attempt, second: Attempt, cassette: Answer, writerOk: nat -> bool)
  {
    function Attempt(retries: nat): Attempt { if retries == 0 then first else second }
  }

  datatype Verdict =
    | RefusedBeforeSend
    | CeilingReached(dimension: Dimension)
    | ProviderUnavailable
    | ProviderAuthRefused
    | ProviderRefused
    | ProviderError
    | CassetteUnavailable
    | NotChecked

  datatype CallRecord = CallRecord(
    stage: string,
    provider: string,
    modelVersion: string,
    promptVersion: Option<string>,
    cost: Option<real>,
    verdict: Verdict,
    retryCount: nat,
    fromCassette: bool)

  datatype CallError =
    | ValidationRefused
    | CeilingHit(dimension: Dimension)
    | Unreachable(reason: Reason)
    | AuthError
    | RejectedError
    | CrashError
    | InvalidAmountError     // a negative price or estimate
    | FieldTooLong           // a name does not fit its column
    | RecordNotSaved         // the writer failed

  datatype ModelResult = ModelResult(record: CallRecord, retryCount: nat, cost: real, fromCassette: bool)

  datatype Outcome = Returned(result: ModelResult) | Raised(error: CallError)

  // ---------- costs ----------

  function PriceOf(tokens: nat, price: real): real { tokens as real * price / 1000.0 }

  function EstimatedCost(call: Call): Result<real, CallError>
  {
    match call.configuredEstimate
    case Some(e) => if e < 0.0 then Err(InvalidAmountError) else Ok(e)
    case None =>
      Ok((match call.inputPrice case Some(p) => PriceOf(call.inputLength, p) case None => 0.0)
         + (match call.outputPrice case Some(p) => PriceOf(call.maxTokens, p) case None => 0.0))
  }

  function ActualCost(call: Call, response: Response, estimate: real): real
  {
    if call.inputPrice.None? && call.outputPrice.None? then estimate
    else if response.inputTokens.None? && response.outputTokens.None? then estimate
    else
      (if call.inputPrice.Some? && response.inputTokens.Some?
       then PriceOf(response.inputTokens.value, call.inputPrice.value) else 0.0)
      + (if call.outputPrice.Some? && response.outputTokens.Some?
         then PriceOf(response.outputTokens.value, call.outputPrice.value) else 0.0)
  }

  // ---------- records ----------

  predicate FitsField(s: string) { 0 < |s| <= MAX_FIELD_LENGTH }

  predicate RecordFits(r: CallRecord)
  {
    FitsField(r.stage) && FitsField(r.provider) && FitsField(r.modelVersion)
    && (r.promptVersion.Some? ==> FitsField(r.promptVersion.value))
  }

  /** `_record_attempt`: build the bounded record, then hand it to the writer. */
  function Write(world: World, n: nat, record: CallRecord): Option<CallError>
  {
    if !RecordFits(record) then Some(FieldTooLong)
    else if !world.writerOk(n) then Some(RecordNotSaved)
    else None
  }

  function Record(call: Call, provider: string, model: string, cost: Option<real>, verdict: Verdict,
                  retries: nat, fromCassette: bool): CallRecord
  {
    CallRecord(call.stage, provider, model, call.promptVersion, cost, verdict, retries, fromCassette)
  }

  function OwnModel(call: Call, response: Response): string
  {
    match response.model case Some(m) => if m == "" then call.model else m case None => call.model
  }

  function FailureVerdict(answer: Answer): Verdict
    requires !answer.Answered?
  {
    match answer
    case Unavailable(_) => ProviderUnavailable
    case AuthRejected => ProviderAuthRefused
    case ProviderRejected => ProviderRefused
    case Failed(_) => ProviderError
  }

  function FailureError(answer: Answer): CallError
    requires !answer.Answered?
  {
    match answer
    case Unavailable(reason) => Unreachable(reason)
    case AuthRejected => AuthError
    case ProviderRejected => RejectedError
    case Failed(_) => CrashError
  }

  predicate Retryable(answer: Answer) { answer.Unavailable? && !answer.reason.CassetteMiss? }

  // ---------- what one call does ----------

  /** The ledger operations made, the records written, the provider attempts and cassette tries, and the end. */
  datatype Effect = Effect(
    history: History, ops: seq<Operation>, records: seq<CallRecord>, attempts: nat, cassetteTries: nat, outcome: Outcome)

  /** The effect of first doing `ops`, writing `records` and making `attempts`, and then all of `e`. */
  function After(ops: seq<Operation>, records: seq<CallRecord>, attempts: nat, e: Effect): Effect
  {
    Effect(e.history, ops + e.ops, records + e.records, attempts + e.attempts, e.cassetteTries, e.outcome)
  }

  function CassetteEffect(h: History, call: Call, world: World, retries: nat, written: nat, reason: Reason): Effect
  {
    match call.cassette
    case None => Effect(h, [], [], 0, 0, Raised(Unreachable(reason)))
    case Some(name) =>
      if !FitsField(name) then Effect(h, [], [], 0, 0, Raised(FieldTooLong)) else
      match world.cassette
      case Answered(response) =>
        var record := Record(call, name, OwnModel(call, response), Some(0.0), NotChecked, retries, true);
        (match Write(world, written, record)
         case Some(error) => Effect(h, [], [], 0, 1, Raised(error))
         case None => Effect(h, [], [record], 0, 1, Returned(ModelResult(record, retries, 0.0, true))))
      case _ =>
        var record := Record(call, name, call.model, Some(0.0), CassetteUnavailable, retries, true);
        match Write(world, written, record)
        case Some(error) => Effect(h, [], [], 0, 1, Raised(error))
        case None => Effect(h, [], [record], 0, 1, Raised(Unreachable(reason)))
  }

  /** How one pass of the retry loop ends. */
  datatype Pass =
    | Ended(history: History, ops: seq<Operation>, records: seq<CallRecord>, attempts: nat, outcome: Outcome)
    | Retry(history: History, ops: seq<Operation>, records: seq<CallRecord>)
    | FallBack(history: History, ops: seq<Operation>, records: seq<CallRecord>, reason: Reason)

  /** One pass: estimate, reserve, call the provider, settle and record. */
  function OnePass(limits: Limits, cal: Calendar, h: History, call: Call, world: World, retries: nat, written: nat): (p: Pass)
    requires limits.Valid() && h.Valid()
    ensures p.history.Valid()
    ensures p.Retry? ==> retries < 1
  {
    match EstimatedCost(call)
    case Err(error) => Ended(h, [], [], 0, Raised(error))
    case Ok(estimate) =>
      if estimate < 0.0 then Ended(h, [], [], 0, Raised(InvalidAmountError)) else
      var a := world.Attempt(retries);
      var reserve := Reserve(a.at, estimate, a.id);
      var held := AfterReserve(limits, cal, h, a.at, estimate, a.id);
      var decision := Decide(limits, cal, Pruned(h.Live(), cal.monthStart(a.at)), a.at, estimate, a.id);
      if decision.Refused? then
        var dimension := decision.ceiling.dimension;
        var record := Record(call, call.provider, call.model, None, CeilingReached(dimension), retries, false);
        match Write(world, written, record)
        case Some(error) => Ended(held, [reserve], [], 0, Raised(error))
        case None => Ended(held, [reserve], [record], 0, Raised(CeilingHit(dimension)))
      else if a.answer.Answered? then
        AnsweredPass(held, call, world, a, estimate, retries, written)
      else
        FailedPass(held, call, world, a, estimate, retries, written)
  }

  function AnsweredPass(held: History, call: Call, world: World, a: Attempt, estimate: real, retries: nat, written: nat): (p: Pass)
    requires held.Valid() && a.answer.Answered?
    ensures p.Ended? && p.history.Valid()
  {
    var reserve := Reserve(a.at, estimate, a.id);
    var response := a.answer.response;
    var actual := ActualCost(call, response, estimate);
    if actual < 0.0 then Ended(held, [reserve], [], 1, Raised(InvalidAmountError)) else
    var ops := [reserve, Settle(a.id, Some(actual), estimate)];
    var settled := AfterSettle(held, a.id, actual);
    var record := Record(call, call.provider, OwnModel(call, response), Some(actual), NotChecked, retries, response.fromCassette);
    match Write(world, written, record)
    case Some(error) => Ended(settled, ops, [], 1, Raised(error))
    case None => Ended(settled, ops, [record], 1, Returned(ModelResult(record, retries, actual, response.fromCassette)))
  }

  function FailedPass(held: History, call: Call, world: World, a: Attempt, estimate: real, retries: nat, written: nat): (p: Pass)
    requires held.Valid() && !a.answer.Answered?
    ensures p.history.Valid() && (p.Retry? ==> retries < 1)
  {
    var ops := [Reserve(a.at, estimate, a.id), Settle(a.id, None, estimate)];
    var settled := AfterSettle(held, a.id, estimate);
    var record := Record(call, call.provider, call.model, Some(estimate), FailureVerdict(a.answer), retries, false);
    match Write(world, written, record)
    case Some(error) => Ended(settled, ops, [], 1, Raised(error))
    case None =>
      if retries < 1 && Retryable(a.answer) then Retry(settled, ops, [record])
      else if a.answer.Unavailable? then FallBack(settled, ops, [record], a.answer.reason)
      else Ended(settled, ops, [record], 1, Raised(FailureError(a.answer)))
  }

  /** The passes from the given retry count on; `written` records were written before. */
  function Attempts(limits: Limits, cal: Calendar, h: History, call: Call, world: World, retries: nat, written: nat): Effect
    requires limits.Valid() && h.Valid() && retries <= 1
    decreases 1 - retries
  {
    match OnePass(limits, cal, h, call, world, retries, written)
    case Ended(h', ops, records, attempts, outcome) => Effect(h', ops, records, attempts, 0, outcome)
    case Retry(h', ops, records) =>
      After(ops, records, 1, Attempts(limits, cal, h', call, world, retries + 1, written + 1))
    case FallBack(h', ops, records, reason) =>
      After(ops, records, 1, CassetteEffect(h', call, world, retries, written + 1, reason))
  }

  /** A provider name that does not fit raises first; a call refused by validation makes no attempt and is recorded. */
  function CallEffect(limits: Limits, cal: Calendar, h: History, call: Call, world: World): Effect
    requires limits.Valid() && h.Valid()
  {
    if !FitsField(call.provider) then Effect(h, [], [], 0, 0, Raised(FieldTooLong))
    else if call.refusal.Some? then
      var record := Record(call, call.provider, call.model, None, RefusedBeforeSend, 0, false);
      match Write(world, 0, record)
      case Some(error) => Effect(h, [], [], 0, 0, Raised(error))
      case None => Effect(h, [], [record], 0, 0, Raised(ValidationRefused))
    else Attempts(limits, cal, h, call, world, 0, 0)
  }

  class Client {
    const ledger: Ledger
    var records: seq<CallRecord>

    constructor (ledger: Ledger)
      ensures this.ledger == ledger && records == []
    {
      this.ledger := ledger;
      records := [];
    }

    /** Appends a record unless a field does not fit or the writer fails. */
    method WriteRecord(world: World, n: nat, record: CallRecord) returns (error: Option<CallError>)
      modifies this`records
      ensures error == Write(world, n, record)
      ensures records == if error.None? then old(records) + [record] else old(records)
    {
      error := Write(world, n, record);
      if error.None? { records := records + [record]; }
    }

    method Fallback(call: Call, world: World, retries: nat, written: nat, reason: Reason) returns (outcome: Outcome)
      modifies this`records
      ensures var e := CassetteEffect(ledger.history, call, world, retries, written, reason);
              outcome == e.outcome && records == old(records) + e.records
    {
      match call.cassette
      case None => return Raised(Unreachable(reason));
      case Some(name) =>
        if !FitsField(name) { return Raised(FieldTooLong); }
        var answered := world.cassette.Answered?;
        var record := if answered
          then Record(call, name, OwnModel(call, world.cassette.response), Some(0.0), NotChecked, retries, true)
          else Record(call, name, call.model, Some(0.0), CassetteUnavailable, retries, true);
        var error := WriteRecord(world, written, record);
        if error.Some? { return Raised(error.value); }
        return if answered then Returned(ModelResult(record, retries, 0.0, true)) else Raised(Unreachable(reason));
    }

    method Reserved(call: Call, world: World, retries: nat) returns (decision: Result<(Reservation, real), Outcome>)
      requires ledger.Valid()
      modifies this`records, ledger
      ensures ledger.Valid()
      ensures var p := OnePass(ledger.limits, ledger.cal, old(ledger.history), call, world, retries, retries);
              match decision
              case Err(outcome) =>
                p.Ended? && p.outcome == outcome && p.history == ledger.history && records == old(records) + p.records
              case Ok((reservation, estimate)) =>
                var a := world.Attempt(retries);
                && reservation == Reservation(a.id, a.at, estimate) && estimate >= 0.0 && records == old(records)
                && ledger.history.dropped < |ledger.history.grants|
                && ledger.history.grants == old(ledger.history).grants + [Grant(a.id, a.at, estimate, estimate, false)]
                && p == if a.answer.Answered? then AnsweredPass(ledger.history, call, world, a, estimate, retries, retries)
                        else FailedPass(ledger.history, call, world, a, estimate, retries, retries)
    {
      hide Decide, AfterReserve, AnsweredPass, FailedPass, Pruned, PruneCount, EstimatedCost;
      var estimated := EstimatedCost(call);
      if estimated.Err? { return Err(Raised(estimated.error)); }
      var a := world.Attempt(retries);
      ghost var before := ledger.history;
      var reserved := ledger.Reserve(a.at, estimated.value, a.id);
      OnlyNegativeIsInvalid(ledger.limits, ledger.cal, before, a.at, estimated.value, a.id);
      if reserved.InvalidAmount? { return Err(Raised(InvalidAmountError)); }
      if reserved.Refused? {
        var record := Record(
          call, call.provider, call.model, None, CeilingReached(reserved.ceiling.dimension), retries, false);
        var error := WriteRecord(world, retries, record);
        return Err(Raised(if error.Some? then error.value else CeilingHit(reserved.ceiling.dimension)));
      }
      JustGranted(ledger.limits, ledger.cal, before, a.at, estimated.value, a.id);
      return Ok((reserved.reservation, estimated.value));
    }

    /** A response: settle at the actual cost, record, and only then return it. */
    method Succeed(call: Call, world: World, retries: nat, reservation: Reservation, response: Response)
      returns (outcome: Outcome)
      requires ledger.Valid() && world.Attempt(retries).answer == Answered(response)
      requires world.Attempt(retries).id == reservation.id && world.Attempt(retries).at == reservation.reservedAt
      requires IndexOf(ledger.entries, reservation.id) < |ledger.entries|
      modifies this`records, ledger
      ensures ledger.Valid()
      ensures var p := AnsweredPass(old(ledger.history), call, world, world.Attempt(retries), reservation.estimatedCost, retries, retries);
              outcome == p.outcome && ledger.history == p.history && records == old(records) + p.records
    {
      hide AfterSettle, ActualCost;
      var actual := ActualCost(call, response, reservation.estimatedCost);
      var settled := ledger.Settle(reservation, Some(actual));
      if settled.InvalidCost? { return Raised(InvalidAmountError); }
      var record := Record(
        call, call.provider, OwnModel(call, response), Some(actual), NotChecked, retries, response.fromCassette);
      var error := WriteRecord(world, retries, record);
      if error.Some? { return Raised(error.value); }
      return Returned(ModelResult(record, retries, actual, response.fromCassette));
    }

    /** A failure: settle at the estimate and record; None means the loop goes round again. */
    method Fail(call: Call, world: World, retries: nat, reservation: Reservation) returns (outcome: Option<Outcome>)
      requires ledger.Valid() && !world.Attempt(retries).answer.Answered? && reservation.estimatedCost >= 0.0
      requires world.Attempt(retries).id == reservation.id && world.Attempt(retries).at == reservation.reservedAt
      requires IndexOf(ledger.entries, reservation.id) < |ledger.entries|
      modifies this`records, ledger
      ensures ledger.Valid()
      ensures var p := FailedPass(old(ledger.history), call, world, world.Attempt(retries), reservation.estimatedCost, retries, retries);
              ledger.history == p.history
              && match p
                 case Ended(_, _, written, _, end) => outcome == Some(end) && records == old(records) + written
                 case Retry(_, _, written) => outcome == None && records == old(records) + written
                 case FallBack(h, _, written, reason) =>
                   var e := CassetteEffect(h, call, world, retries, retries + 1, reason);
                   outcome == Some(e.outcome) && records == old(records) + (written + e.records)
    {
      hide AfterSettle, CassetteEffect;
      var a := world.Attempt(retries);
      var settled := ledger.Settle(reservation, None);
      var record := Record(
        call, call.provider, call.model, Some(reservation.estimatedCost), FailureVerdict(a.answer), retries, false);
      var error := WriteRecord(world, retries, record);
      if error.Some? { return Some(Raised(error.value)); }
      if retries < 1 && Retryable(a.answer) { return None; }
      if a.answer.Unavailable? {
        var end := Fallback(call, world, retries, retries + 1, a.answer.reason);
        return Some(end);
      }
      return Some(Raised(FailureError(a.answer)));
    }

    /** One turn of the retry loop; None means it goes round again. */
    method Turn(call: Call, world: World, retries: nat) returns (end: Option<Outcome>, ghost added: seq<CallRecord>)
      requires ledger.Valid() && retries <= 1 && IdUnused(ledger.history, world.Attempt(retries).id)
      requires retries == 0 ==> FreshIds(ledger.history, world)
      modifies this`records, ledger
      ensures ledger.Valid() && records == old(records) + added
      ensures var e := Attempts(ledger.limits, ledger.cal, old(ledger.history), call, world, retries, retries);
              match end
              case Some(outcome) => outcome == e.outcome && ledger.history == e.history && added == e.records
              case None =>
                retries == 0 && IdUnused(ledger.history, world.second.id)
                && var rest := Attempts(ledger.limits, ledger.cal, ledger.history, call, world, 1, 1);
                   rest.outcome == e.outcome && rest.history == e.history && added + rest.records == e.records
    {
      hide OnePass, AnsweredPass, FailedPass, CassetteEffect, Record, Write, Attempts, IdUnused, IndexOf;
      ghost var before, h := records, ledger.history;
      Unfold(ledger.limits, ledger.cal, h, call, world, retries);
      var decision := Reserved(call, world, retries);
      if decision.Err? { return Some(decision.error), records[|before|..]; }
      var (reservation, estimate) := decision.value;
      NewestIsFound(ledger.history, reservation.id);
      var answer := world.Attempt(retries).answer;
      if answer.Answered? {
        AnsweredEnds(ledger.history, call, world, estimate, retries);
        var outcome := Succeed(call, world, retries, reservation, answer.response);
        return Some(outcome), records[|before|..];
      }
      FailedKeepsIds(ledger.history, call, world, estimate, retries);
      if retries == 0 { SecondUnused(h, ledger.history, world, estimate); }
      end := Fail(call, world, retries, reservation);
      added := records[|before|..];
    }

    /** The guarded call, with the retry loop of the source. */
    method Invoke(call: Call, world: World) returns (outcome: Outcome)
      requires ledger.Valid() && FreshIds(ledger.history, world)
      modifies this, ledger
      ensures ledger.Valid()
      ensures var e := CallEffect(ledger.limits, ledger.cal, old(ledger.history), call, world);
              outcome == e.outcome && ledger.history == e.history && records == old(records) + e.records
    {
      hide Record, Write, Attempts, IdUnused, FitsField;
      if !FitsField(call.provider) { return Raised(FieldTooLong); }
      if call.refusal.Some? {
        var record := Record(call, call.provider, call.model, None, RefusedBeforeSend, 0, false);
        var error := WriteRecord(world, 0, record);
        return Raised(if error.Some? then error.value else ValidationRefused);
      }
      FirstUnused(ledger.history, world);
      var retries := 0;
      ghost var written: seq<CallRecord> := [];
      ghost var whole := CallEffect(ledger.limits, ledger.cal, ledger.history, call, world);
      while true
        invariant ledger.Valid() && retries <= 1
        invariant records == old(records) + written
        invariant IdUnused(ledger.history, world.Attempt(retries).id)
        invariant retries == 0 ==> FreshIds(ledger.history, world)
        invariant var rest := Attempts(ledger.limits, ledger.cal, ledger.history, call, world, retries, retries);
                  whole.history == rest.history && whole.records == written + rest.records && whole.outcome == rest.outcome
        decreases 1 - retries
      {
        var end, added := Turn(call, world, retries);
        Regroup(old(records), written, added);
        if end.Some? { return end.value; }
        ghost var rest := Attempts(ledger.limits, ledger.cal, ledger.history, call, world, 1, 1);
        Regroup(written, added, rest.records);
        written := written + added;
        retries := retries + 1;
      }
    }
  }

  lemma Regroup<T>(a: seq<T>, b: seq<T>, c: seq<T>)
    ensures a + b + c == a + (b + c)
  {}

  lemma Unfold(limits: Limits, cal: Calendar, h: History, call: Call, world: World, retries: nat)
    requires limits.Valid() && h.Valid() && retries <= 1
    ensures var p, e := OnePass(limits, cal, h, call, world, retries, retries), Attempts(limits, cal, h, call, world, retries, retries);
            match p
            case Ended(h', _, records, _, outcome) => e.history == h' && e.records == records && e.outcome == outcome
            case Retry(h', _, records) =>
              var rest := Attempts(limits, cal, h', call, world, retries + 1, retries + 1);
              e.history == rest.history && e.outcome == rest.outcome && e.records == records + rest.records
            case FallBack(h', _, records, reason) =>
              var rest := CassetteEffect(h', call, world, retries, retries + 1, reason);
              e.history == h' && e.outcome == rest.outcome && e.records == records + rest.records
  {
    hide OnePass;
  }

  lemma AnsweredEnds(held: History, call: Call, world: World, estimate: real, retries: nat)
    requires held.Valid() && world.Attempt(retries).answer.Answered?
    ensures AnsweredPass(held, call, world, world.Attempt(retries), estimate, retries, retries).Ended?
  {}

  lemma FailedKeepsIds(held: History, call: Call, world: World, estimate: real, retries: nat)
    requires held.Valid() && !world.Attempt(retries).answer.Answered?
    ensures var p := FailedPass(held, call, world, world.Attempt(retries), estimate, retries, retries);
            (p.Retry? ==> retries < 1)
            && forall id :: IdUnused(held, id) ==> IdUnused(p.history, id)
  {
    hide Write, Record;
  }

  lemma FirstUnused(h: History, world: World)
    requires FreshIds(h, world)
    ensures IdUnused(h, world.first.id)
  {}

  lemma SecondUnused(h: History, held: History, world: World, estimate: real)
    requires FreshIds(h, world)
    requires held.grants == h.grants + [Grant(world.first.id, world.first.at, estimate, estimate, false)]
    ensures IdUnused(held, world.second.id)
  {}

  predicate IdUnused(h: History, id: nat)
  {
    forall i :: 0 <= i < |h.grants| ==> h.grants[i].id != id
  }

  lemma NewestIsFound(h: History, id: nat)
    requires h.Valid() && h.dropped < |h.grants| && h.grants[|h.grants| - 1].id == id
    ensures IndexOf(h.Live(), id) < |h.Live()|
  {
    var live := h.Live();
    assert live[|live| - 1].id == id;
    IndexOfFinds(live, id, |live| - 1);
  }

  lemma {:induction false} IndexOfFinds(entries: seq<Entry>, id: nat, i: nat)
    requires i < |entries| && entries[i].id == id
    ensures IndexOf(entries, id) <= i
  {
    if entries[0].id != id { IndexOfFinds(entries[1..], id, i - 1); }
  }

  /** Identifiers drawn by `uuid4` never repeat. */
  predicate FreshIds(h: History, world: World)
  {
    world.first.id != world.second.id
    && forall i :: 0 <= i < |h.grants| ==> h.grants[i].id != world.first.id && h.grants[i].id != world.second.id
  }

  lemma OnlyNegativeIsInvalid(limits: Limits, cal: Calendar, h: History, at: int, cost: real, id: nat)
    requires limits.Valid() && h.Valid()
    ensures !Decide(limits, cal, Pruned(h.Live(), cal.monthStart(at)), at, cost, id).InvalidAmount?
    ensures cost < 0.0 ==> AfterReserve(limits, cal, h, at, cost, id) == h
  {}

  lemma JustGranted(limits: Limits, cal: Calendar, h: History, at: int, cost: real, id: nat)
    requires limits.Valid() && h.Valid() && cost >= 0.0
    requires Decide(limits, cal, Pruned(h.Live(), cal.monthStart(at)), at, cost, id).Granted?
    ensures Decide(limits, cal, Pruned(h.Live(), cal.monthStart(at)), at, cost, id).reservation == Reservation(id, at, cost)
    ensures AfterReserve(limits, cal, h, at, cost, id).grants == h.grants + [Grant(id, at, cost, cost, false)]
    ensures AfterReserve(limits, cal, h, at, cost, id).dropped <= |h.grants|
  {}
}
