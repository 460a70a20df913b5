/** What each attempt of a guarded call costs, and what its record says, in tokens and prices (ai/client.py). */
module CallCosts {
  import opened Prelude
  import opened BudgetLedger
  import opened ModelClient
  import opened CallConservation
  import opened SpendAccounting

  /** A thousand times what a count comes to at a price per thousand; nothing when either is unknown. */
  function Charge(count: Option<nat>, price: Option<real>): real
  {
    if count.Some? && price.Some? then count.value as real * price.value else 0.0
  }

  /** The configured estimate, or the prompt's length and the token limit at their prices. */
  predicate EstimateIs(call: Call, estimate: real)
  {
    match call.configuredEstimate
    case Some(configured) => estimate == configured
    case None => 1000.0 * estimate == Charge(Some(call.inputLength), call.inputPrice) + Charge(Some(call.maxTokens), call.outputPrice)
  }

  predicate Priced(call: Call) { call.inputPrice.Some? || call.outputPrice.Some? }

  predicate Counted(response: Response) { response.inputTokens.Some? || response.outputTokens.Some? }

  /** The reserved estimate when no price or no count is known, and else the counted tokens at the known prices. */
  predicate CostIs(call: Call, response: Response, estimate: real, cost: real)
  {
    if !Priced(call) || !Counted(response) then cost == estimate
    else 1000.0 * cost == Charge(response.inputTokens, call.inputPrice) + Charge(response.outputTokens, call.outputPrice)
  }

  lemma EstimateMeaning(call: Call)
    requires EstimatedCost(call).Ok?
    ensures EstimateIs(call, EstimatedCost(call).value)
  {}

  lemma CostMeaning(call: Call, response: Response, estimate: real)
    ensures CostIs(call, response, estimate, ActualCost(call, response, estimate))
  {}

  /** The settled grant of an attempt: the cost of its response, or the estimate when it failed. */
  predicate AttemptPaid(call: Call, a: Attempt, g: Grant)
  {
    && g.id == a.id && g.at == a.at && g.settled && EstimateIs(call, g.estimate)
    && if a.answer.Answered? then CostIs(call, a.answer.response, g.estimate, g.cost) else g.cost == g.estimate
  }

  /** The record of attempt `k`: whose call it was, which model answered, how it went and what it cost. */
  predicate RecordSays(call: Call, a: Attempt, k: nat, cost: real, r: CallRecord)
  {
    && r.stage == call.stage && r.provider == call.provider && r.promptVersion == call.promptVersion
    && r.retryCount == k && r.cost == Some(cost)
    && match a.answer
       case Answered(response) =>
         && r.verdict == NotChecked && r.fromCassette == response.fromCassette
         && r.modelVersion == (if response.model.Some? && response.model.value != "" then response.model.value else call.model)
       case Unavailable(_) => r.verdict == ProviderUnavailable && !r.fromCassette && r.modelVersion == call.model
       case AuthRejected => r.verdict == ProviderAuthRefused && !r.fromCassette && r.modelVersion == call.model
       case ProviderRejected => r.verdict == ProviderRefused && !r.fromCassette && r.modelVersion == call.model
       case Failed(_) => r.verdict == ProviderError && !r.fromCassette && r.modelVersion == call.model
  }

  /** What attempt `k` added: its grant, and its record unless that was refused. */
  predicate PassSays(call: Call, a: Attempt, k: nat, h: History, h': History, records: seq<CallRecord>)
  {
    && h'.Valid() && |h'.grants| == |h.grants| + 1 && h'.grants[..|h.grants|] == h.grants
    && AttemptPaid(call, a, h'.grants[|h.grants|])
    && (records == [] || (|records| == 1 && RecordSays(call, a, k, h'.grants[|h.grants|].cost, records[0])))
  }

  lemma PassPriced(limits: Limits, cal: Calendar, h: History, call: Call, world: World, retries: nat)
    requires limits.Valid() && h.Valid() && retries <= 1 && IdUnused(h, world.Attempt(retries).id) && AmountsValid(call)
    ensures var p, a := OnePass(limits, cal, h, call, world, retries, retries), world.Attempt(retries);
            match p
            case Ended(h', _, records, attempts, outcome) =>
              && attempts <= 1 && (attempts == 1 ==> PassSays(call, a, retries, h, h', records))
              && (attempts == 0 ==> h'.grants == h.grants && h'.Valid() && outcome.Raised?)
              && (outcome.Returned? ==>
                    a.answer.Answered? && attempts == 1 && outcome.result.cost == h'.grants[|h.grants|].cost
                    && outcome.result.retryCount == retries && outcome.result.fromCassette == a.answer.response.fromCassette)
            case Retry(h', _, records) => PassSays(call, a, retries, h, h', records) && records != [] && retries == 0 && !a.answer.Answered?
            case FallBack(h', _, records, _) => PassSays(call, a, retries, h, h', records) && records != [] && !a.answer.Answered?
  {
    hide Decide, AfterSettle, AfterReserve, ActualCost, EstimatedCost, Pruned, PruneCount, RecordFits, EstimateIs, CostIs;
    CostsNonNegative(call);
    EstimateMeaning(call);
    var estimate, a := EstimatedCost(call).value, world.Attempt(retries);
    OnlyNegativeIsInvalid(limits, cal, h, a.at, estimate, a.id);
    var decision := Decide(limits, cal, Pruned(h.Live(), cal.monthStart(a.at)), a.at, estimate, a.id);
    if decision.Refused? {
      RefusedKeepsGrants(limits, cal, h, a.at, estimate, a.id);
    } else {
      if a.answer.Answered? { CostMeaning(call, a.answer.response, estimate); }
      var cost := if a.answer.Answered? then ActualCost(call, a.answer.response, estimate) else estimate;
      GrantSettled(limits, cal, h, a.at, estimate, a.id, cost);
    }
  }

  predicate PaidAt(call: Call, world: World, from: nat, h': History, base: nat, k: nat)
    requires base + k < |h'.grants|
  {
    AttemptPaid(call, world.Attempt(from + k), h'.grants[base + k])
  }

  predicate SaidAt(call: Call, world: World, from: nat, h': History, base: nat, records: seq<CallRecord>, k: nat)
    requires base + k < |h'.grants| && k < |records|
  {
    RecordSays(call, world.Attempt(from + k), from + k, h'.grants[base + k].cost, records[k])
  }

  /** Every attempt in turn, from retry count `from` on. */
  predicate AttemptsSay(call: Call, world: World, from: nat, h: History, h': History, attempts: nat, records: seq<CallRecord>)
  {
    && |h'.grants| == |h.grants| + attempts && h'.grants[..|h.grants|] == h.grants
    && (forall k: nat :: k < attempts ==> PaidAt(call, world, from, h', |h.grants|, k))
    && (forall k: nat :: k < attempts && k < |records| ==> SaidAt(call, world, from, h', |h.grants|, records, k))
  }

  lemma OneSays(call: Call, world: World, k: nat, h: History, h': History, records: seq<CallRecord>)
    requires PassSays(call, world.Attempt(k), k, h, h', records)
    ensures AttemptsSay(call, world, k, h, h', 1, records)
  {
    hide AttemptPaid, RecordSays;
  }

  lemma MoreSay(call: Call, world: World, h: History, m: History, h': History, first: seq<CallRecord>, attempts: nat, rest: seq<CallRecord>)
    requires PassSays(call, world.Attempt(0), 0, h, m, first) && first != [] && AttemptsSay(call, world, 1, m, h', attempts, rest)
    ensures AttemptsSay(call, world, 0, h, h', 1 + attempts, first + rest)
  {
    hide AttemptPaid, RecordSays;
    assert h'.grants[..|h.grants|] == h'.grants[..|m.grants|][..|h.grants|];
    assert h'.grants[|h.grants|] == h'.grants[..|m.grants|][|h.grants|];
    forall k: nat | k < 1 + attempts ensures PaidAt(call, world, 0, h', |h.grants|, k) {
      if k > 0 { assert PaidAt(call, world, 1, h', |m.grants|, k - 1); }
    }
    forall k: nat | k < 1 + attempts && k < |first + rest| ensures SaidAt(call, world, 0, h', |h.grants|, first + rest, k) {
      if k > 0 {
        assert (first + rest)[k] == rest[k - 1];
        assert SaidAt(call, world, 1, h', |m.grants|, rest, k - 1);
      }
    }
  }

  lemma CassetteFree(h: History, call: Call, world: World, retries: nat, written: nat, reason: Reason)
    ensures var e := CassetteEffect(h, call, world, retries, written, reason);
            e.history == h && e.attempts == 0 && e.cassetteTries <= 1
            && (e.outcome.Returned? ==> e.cassetteTries == 1 && e.outcome.result.cost == 0.0)
  {}

  /** The result of a call that a provider answered: the cost and retry count of its last attempt. */
  predicate ResultSays(world: World, h: History, e: Effect)
  {
    e.outcome.Returned? ==>
      var result := e.outcome.result;
      if e.cassetteTries > 0 then result.cost == 0.0
      else
        && 1 <= e.attempts <= 2 && result.retryCount == e.attempts - 1 && world.Attempt(e.attempts - 1).answer.Answered?
        && e.history.grants != [] && result.cost == e.history.grants[|e.history.grants| - 1].cost
  }

  /**
   * Every attempt of a call reserves its estimate and is settled at the tokens counted at the known prices, or at the
   * estimate when there are none or when it failed; its record says so, and so does the result.
   */
  lemma AttemptsPriced(limits: Limits, cal: Calendar, h: History, call: Call, world: World)
    requires limits.Valid() && h.Valid() && FreshIds(h, world) && AmountsValid(call)
    ensures var e := CallEffect(limits, cal, h, call, world);
            AttemptsSay(call, world, 0, h, e.history, e.attempts, e.records) && ResultSays(world, h, e)
  {
    hide OnePass, CassetteEffect, AttemptPaid, RecordSays, AmountsValid, Write, Record;
    assert h.grants[..|h.grants|] == h.grants;
    if FitsField(call.provider) && call.refusal.None? {
      FirstUnused(h, world);
      PassPriced(limits, cal, h, call, world, 0);
      var p := OnePass(limits, cal, h, call, world, 0, 0);
      match p
      case Ended(h', _, records, attempts, _) => if attempts == 1 { OneSays(call, world, 0, h, h', records); }
      case FallBack(h', _, records, reason) =>
        OneSays(call, world, 0, h, h', records);
        CassetteFree(h', call, world, 0, 1, reason);
        FirstKept(call, world, 0, h, h', records, CassetteEffect(h', call, world, 0, 1, reason).records);
      case Retry(h', _, records) => SecondPriced(limits, cal, h, h', call, world, records);
    }
  }

  lemma FirstKept(call: Call, world: World, from: nat, h: History, h': History, first: seq<CallRecord>, rest: seq<CallRecord>)
    requires AttemptsSay(call, world, from, h, h', 1, first) && first != []
    ensures AttemptsSay(call, world, from, h, h', 1, first + rest)
  {
    hide AttemptPaid, RecordSays;
    assert (first + rest)[0] == first[0];
    assert SaidAt(call, world, from, h', |h.grants|, first, 0);
  }

  lemma SecondPriced(limits: Limits, cal: Calendar, h: History, m: History, call: Call, world: World, first: seq<CallRecord>)
    requires limits.Valid() && h.Valid() && FreshIds(h, world) && AmountsValid(call)
    requires m.Valid() && PassSays(call, world.first, 0, h, m, first) && first != []
    ensures var e := After([], first, 1, Attempts(limits, cal, m, call, world, 1, 1));
            AttemptsSay(call, world, 0, h, e.history, e.attempts, e.records) && ResultSays(world, h, e)
  {
    hide OnePass, CassetteEffect, RecordSays, AmountsValid, Write, Record, EstimateIs, CostIs;
    assert m.grants[..|m.grants|] == m.grants;
    SecondStillUnused(h, m, world);
    PassPriced(limits, cal, m, call, world, 1);
    var q := OnePass(limits, cal, m, call, world, 1, 1);
    var rest := Attempts(limits, cal, m, call, world, 1, 1);
    match q
    case Ended(h', _, records, attempts, _) => if attempts == 1 { OneSays(call, world, 1, m, h', records); }
    case FallBack(h', _, records, reason) =>
      OneSays(call, world, 1, m, h', records);
      CassetteFree(h', call, world, 1, 2, reason);
      FirstKept(call, world, 1, m, h', records, CassetteEffect(h', call, world, 1, 2, reason).records);
    MoreSay(call, world, h, m, rest.history, first, rest.attempts, rest.records);
  }

  /** A thousand input tokens at 1 and a thousand output tokens at 2 cost 3, whatever was reserved. */
  lemma ThreeForTwoThousand(limits: Limits, cal: Calendar, h: History, call: Call, world: World)
    requires limits.Valid() && h.Valid() && FreshIds(h, world) && AmountsValid(call)
    requires call.inputPrice == Some(1.0) && call.outputPrice == Some(2.0)
    requires world.first.answer.Answered?
    requires world.first.answer.response.inputTokens == Some(1000) && world.first.answer.response.outputTokens == Some(1000)
    requires CallEffect(limits, cal, h, call, world).outcome.Returned?
    ensures CallEffect(limits, cal, h, call, world).outcome.result.cost == 3.0
  {
    AttemptsPriced(limits, cal, h, call, world);
    var e := CallEffect(limits, cal, h, call, world);
    AnsweredAtOnce(limits, cal, h, call, world);
    hide CallEffect;
    assert PaidAt(call, world, 0, e.history, |h.grants|, 0);
  }

  lemma AnsweredAtOnce(limits: Limits, cal: Calendar, h: History, call: Call, world: World)
    requires limits.Valid() && h.Valid() && world.first.answer.Answered?
    ensures CallEffect(limits, cal, h, call, world).attempts <= 1 && CallEffect(limits, cal, h, call, world).cassetteTries == 0
  {
    hide Decide, AfterReserve, AfterSettle, ActualCost, EstimatedCost, Write;
  }

  // ---------- records of any kind ----------

  /** Whose call a record belongs to; a record under another provider is the free one of the cassette. */
  predicate Belongs(call: Call, r: CallRecord)
  {
    && r.stage == call.stage && r.promptVersion == call.promptVersion
    && (r.provider == call.provider || (call.cassette == Some(r.provider) && r.fromCassette && r.cost == Some(0.0)))
  }

  predicate AllBelong(call: Call, records: seq<CallRecord>) { forall r :: r in records ==> Belongs(call, r) }

  lemma PassBelongs(limits: Limits, cal: Calendar, h: History, call: Call, world: World, retries: nat)
    requires limits.Valid() && h.Valid()
    ensures AllBelong(call, OnePass(limits, cal, h, call, world, retries, retries).records)
  {
    hide Decide, AfterReserve, AfterSettle, ActualCost, EstimatedCost, RecordFits;
  }

  lemma CassetteBelongs(h: History, call: Call, world: World, retries: nat, written: nat, reason: Reason)
    ensures AllBelong(call, CassetteEffect(h, call, world, retries, written, reason).records)
  {}

  /** Every record a call leaves carries its stage and prompt version, and its provider or its cassette. */
  lemma RecordsBelong(limits: Limits, cal: Calendar, h: History, call: Call, world: World)
    requires limits.Valid() && h.Valid()
    ensures AllBelong(call, CallEffect(limits, cal, h, call, world).records)
  {
    hide OnePass, CassetteEffect, Belongs;
    if FitsField(call.provider) && call.refusal.None? {
      PassBelongs(limits, cal, h, call, world, 0);
      var p := OnePass(limits, cal, h, call, world, 0, 0);
      if p.Retry? {
        PassBelongs(limits, cal, p.history, call, world, 1);
        var q := OnePass(limits, cal, p.history, call, world, 1, 1);
        if q.FallBack? { CassetteBelongs(q.history, call, world, 1, 2, q.reason); }
      } else if p.FallBack? {
        CassetteBelongs(p.history, call, world, 0, 1, p.reason);
      }
    } else {
      RefusalBelongs(call);
    }
  }

  lemma RefusalBelongs(call: Call)
    ensures Belongs(call, Record(call, call.provider, call.model, None, RefusedBeforeSend, 0, false))
  {}

  /** The cassette's record: free, under its own name, counted with the attempts before it, and what it came to. */
  lemma CassetteRecordSays(limits: Limits, cal: Calendar, h: History, call: Call, world: World)
    requires limits.Valid() && h.Valid()
    ensures var e := CallEffect(limits, cal, h, call, world);
            e.cassetteTries > 0 && e.outcome != Raised(FieldTooLong) && e.outcome != Raised(RecordNotSaved) ==>
              && e.records != [] && call.cassette.Some?
              && var r := e.records[|e.records| - 1];
                 && r.provider == call.cassette.value && r.fromCassette && r.cost == Some(0.0) && r.retryCount == e.attempts - 1
                 && match world.cassette
                    case Answered(response) =>
                      r.verdict == NotChecked
                      && r.modelVersion == (if response.model.Some? && response.model.value != "" then response.model.value else call.model)
                    case _ => r.verdict == CassetteUnavailable && r.modelVersion == call.model
  {
    hide OnePass, RecordFits;
    if FitsField(call.provider) && call.refusal.None? {
      var p := OnePass(limits, cal, h, call, world, 0, 0);
      PassRecorded(limits, cal, h, call, world, 0);
      if p.Retry? { PassRecorded(limits, cal, p.history, call, world, 1); }
    }
  }
}
