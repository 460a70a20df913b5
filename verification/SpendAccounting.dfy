/** Where the money of a call goes when names do not fit or the writer fails: at most one attempt's cost is unrecorded. */
module SpendAccounting {
  import opened Prelude
  import opened BudgetLedger
  import opened ModelClient
  import opened CallConservation

  /** One pass added one settled grant whose cost is the cost of its record, or nothing. */
  predicate PassAdds(h: History, h': History, attempts: nat, records: seq<CallRecord>, id: nat)
  {
    && h'.Valid() && |records| <= 1
    && if attempts == 0 then h'.grants == h.grants && RecordedCost(records) == 0.0
       else attempts == 1 && |h'.grants| == |h.grants| + 1 && h'.grants[..|h.grants|] == h.grants
            && h'.grants[|h.grants|].settled && h'.grants[|h.grants|].id == id
            && (records == [] || records[0].cost == Some(h'.grants[|h.grants|].cost))
  }

  predicate RecordLost(outcome: Outcome)
  {
    outcome.Raised? && (outcome.error.FieldTooLong? || outcome.error.RecordNotSaved?)
  }

  lemma GrantSettled(limits: Limits, cal: Calendar, h: History, at: int, estimate: real, id: nat, cost: real)
    requires limits.Valid() && h.Valid() && IdUnused(h, id) && estimate >= 0.0 && cost >= 0.0
    requires Decide(limits, cal, Pruned(h.Live(), cal.monthStart(at)), at, estimate, id).Granted?
    ensures var h' := AfterSettle(AfterReserve(limits, cal, h, at, estimate, id), id, cost);
            h'.Valid() && h'.grants == h.grants + [Grant(id, at, estimate, cost, true)]
  {
    ReservedThenSettled(limits, cal, h, at, estimate, id, Settle(id, None, cost), cost);
  }

  lemma PassAccounted(limits: Limits, cal: Calendar, h: History, call: Call, world: World, retries: nat)
    requires limits.Valid() && h.Valid() && retries <= 1 && IdUnused(h, world.Attempt(retries).id) && AmountsValid(call)
    ensures var p, id := OnePass(limits, cal, h, call, world, retries, retries), world.Attempt(retries).id;
            match p
            case Ended(h', _, records, attempts, outcome) =>
              PassAdds(h, h', attempts, records, id) && (attempts == 1 && records == [] ==> RecordLost(outcome))
              && (RecordLost(outcome) ==> records == [])
            case Retry(h', _, records) => PassAdds(h, h', 1, records, id) && records != []
            case FallBack(h', _, records, _) => PassAdds(h, h', 1, records, id) && records != []
  {
    hide Decide, AfterSettle, AfterReserve, ActualCost, EstimatedCost, Pruned, PruneCount, Write, RecordedCost;
    CostsNonNegative(call);
    var estimate, a := EstimatedCost(call).value, world.Attempt(retries);
    OnlyNegativeIsInvalid(limits, cal, h, a.at, estimate, a.id);
    WriteErrors(world);
    var decision := Decide(limits, cal, Pruned(h.Live(), cal.monthStart(a.at)), a.at, estimate, a.id);
    if decision.Refused? {
      RefusedKeepsGrants(limits, cal, h, a.at, estimate, a.id);
      OneRecord(Record(call, call.provider, call.model, None, CeilingReached(decision.ceiling.dimension), retries, false));
    } else {
      var cost := if a.answer.Answered? then ActualCost(call, a.answer.response, estimate) else estimate;
      GrantSettled(limits, cal, h, a.at, estimate, a.id, cost);
    }
  }

  lemma WriteErrors(world: World)
    ensures forall n, record :: Write(world, n, record).Some? ==>
              Write(world, n, record).value == FieldTooLong || Write(world, n, record).value == RecordNotSaved
  {}

  lemma RefusedKeepsGrants(limits: Limits, cal: Calendar, h: History, at: int, estimate: real, id: nat)
    requires limits.Valid() && h.Valid()
    requires Decide(limits, cal, Pruned(h.Live(), cal.monthStart(at)), at, estimate, id).Refused?
    ensures AfterReserve(limits, cal, h, at, estimate, id).grants == h.grants
    ensures AfterReserve(limits, cal, h, at, estimate, id).Valid()
  {
    hide Decide, PruneCount;
  }

  /** The cost of an attempt that was made and settled but whose record was lost. */
  function Unrecorded(h': History, attempts: nat, records: seq<CallRecord>): real
  {
    if |records| < attempts && h'.grants != [] then h'.grants[|h'.grants| - 1].cost else 0.0
  }

  ghost predicate Accounts(h: History, h': History, attempts: nat, records: seq<CallRecord>)
  {
    && |h'.grants| == |h.grants| + attempts && h'.grants[..|h.grants|] == h.grants
    && (forall i :: |h.grants| <= i < |h'.grants| ==> h'.grants[i].settled)
    && HeldCost(h'.grants) == HeldCost(h.grants) + RecordedCost(records) + Unrecorded(h', attempts, records)
  }

  lemma PassCost(h: History, h': History, attempts: nat, records: seq<CallRecord>, id: nat)
    requires PassAdds(h, h', attempts, records, id)
    ensures Accounts(h, h', attempts, records)
  {
    if attempts == 1 {
      var g := h'.grants[|h.grants|];
      assert h'.grants == h.grants + [g];
      HeldAppend(h.grants, [g]);
      assert [g][..0] == [];
      if records != [] { OneRecord(records[0]); assert records == [records[0]]; }
    }
  }

  /** A recorded first attempt, and then the rest of the call. */
  lemma AccountsCompose(h: History, m: History, h': History, records: seq<CallRecord>, attempts: nat, rest: seq<CallRecord>)
    requires Accounts(h, m, 1, records) && |records| == 1 && Accounts(m, h', attempts, rest)
    ensures Accounts(h, h', 1 + attempts, records + rest)
  {
    hide HeldCost, RecordedCost;
    RecordedAppend(records, rest);
    assert h'.grants[..|h.grants|] == h'.grants[..|m.grants|][..|h.grants|];
    forall i | |h.grants| <= i < |h'.grants| ensures h'.grants[i].settled {
      if i < |m.grants| { assert h'.grants[..|m.grants|][i] == m.grants[i]; }
    }
  }

  /** A cassette try costs nothing, whether or not its record is written. */
  lemma CassetteAccounts(h: History, call: Call, world: World, retries: nat, written: nat, reason: Reason)
    ensures var e := CassetteEffect(h, call, world, retries, written, reason);
            e.history == h && e.attempts == 0 && Accounts(h, h, 0, e.records)
  {
    hide Write, HeldCost;
    var e := CassetteEffect(h, call, world, retries, written, reason);
    assert h.grants[..|h.grants|] == h.grants;
    if e.records != [] { OneRecord(e.records[0]); assert e.records == [e.records[0]]; }
  }

  lemma AttemptsAccounted(limits: Limits, cal: Calendar, h: History, call: Call, world: World, retries: nat)
    requires limits.Valid() && h.Valid() && retries <= 1 && IdUnused(h, world.Attempt(retries).id) && AmountsValid(call)
    requires retries == 0 ==> FreshIds(h, world)
    ensures var e := Attempts(limits, cal, h, call, world, retries, retries);
            Accounts(h, e.history, e.attempts, e.records)
            && (|e.records| < e.attempts ==> RecordLost(e.outcome) && e.cassetteTries == 0)
    decreases 1 - retries
  {
    hide OnePass, PassAdds, Accounts, CassetteEffect, AmountsValid;
    PassAccounted(limits, cal, h, call, world, retries);
    var id := world.Attempt(retries).id;
    match OnePass(limits, cal, h, call, world, retries, retries)
    case Ended(h', _, records, attempts, outcome) =>
      PassCost(h, h', attempts, records, id);
      AtMostOne(h, h', attempts, records, id);
    case Retry(h', _, records) =>
      PassCost(h, h', 1, records, id);
      AtMostOne(h, h', 1, records, id);
      GrownStillUnused(h, h', records, world);
      AttemptsAccounted(limits, cal, h', call, world, 1);
      var rest := Attempts(limits, cal, h', call, world, 1, 1);
      AccountsCompose(h, h', rest.history, records, rest.attempts, rest.records);
    case FallBack(h', _, records, reason) =>
      PassCost(h, h', 1, records, id);
      AtMostOne(h, h', 1, records, id);
      CassetteAccounts(h', call, world, retries, retries + 1, reason);
      var rest := CassetteEffect(h', call, world, retries, retries + 1, reason);
      AccountsCompose(h, h', rest.history, records, 0, rest.records);
  }

  lemma AtMostOne(h: History, h': History, attempts: nat, records: seq<CallRecord>, id: nat)
    requires PassAdds(h, h', attempts, records, id)
    ensures |records| <= 1 && attempts <= 1 && h'.Valid()
  {}

  lemma GrownStillUnused(h: History, h': History, records: seq<CallRecord>, world: World)
    requires FreshIds(h, world) && PassAdds(h, h', 1, records, world.first.id)
    ensures IdUnused(h', world.second.id)
  {
    SecondStillUnused(h, h', world);
  }

  /**
   * For any names and any writer: every attempt's reservation is settled, and what a call adds to the ledger is what
   * its records say plus the cost of at most one attempt whose record was lost, in which case the call raises.
   */
  lemma CostAccounted(limits: Limits, cal: Calendar, h: History, call: Call, world: World)
    requires limits.Valid() && h.Valid() && FreshIds(h, world) && AmountsValid(call)
    ensures var e := CallEffect(limits, cal, h, call, world);
            Accounts(h, e.history, e.attempts, e.records)
            && (|e.records| < e.attempts ==> RecordLost(e.outcome))
  {
    hide Attempts, Accounts, Write;
    if !FitsField(call.provider) {
      NothingAdded(h, []);
    } else if call.refusal.Some? {
      var record := Record(call, call.provider, call.model, None, RefusedBeforeSend, 0, false);
      NothingAdded(h, []);
      OneRecord(record);
      NothingAdded(h, [record]);
    } else {
      FirstUnused(h, world);
      AttemptsAccounted(limits, cal, h, call, world, 0);
    }
  }

  lemma NothingAdded(h: History, records: seq<CallRecord>)
    requires RecordedCost(records) == 0.0
    ensures Accounts(h, h, 0, records)
  {
    assert h.grants[..|h.grants|] == h.grants;
  }

  // ---------- exactly when a record is lost ----------

  /** The model name an attempt is recorded under. */
  function AttemptModel(call: Call, answer: Answer): string
  {
    if answer.Answered? then OwnModel(call, answer.response) else call.model
  }

  /** What an attempt is settled at. */
  function AttemptCost(call: Call, answer: Answer): real
    requires EstimatedCost(call).Ok?
  {
    var estimate := EstimatedCost(call).value;
    if answer.Answered? then ActualCost(call, answer.response, estimate) else estimate
  }

  /** A call that validation lets through has a stage and a prompt version that fit their columns. */
  predicate Validated(call: Call)
  {
    call.refusal.None? ==> FitsField(call.stage) && (call.promptVersion.Some? ==> FitsField(call.promptVersion.value))
  }

  predicate Grants(limits: Limits, cal: Calendar, h: History, call: Call, a: Attempt)
    requires limits.Valid() && h.Valid() && EstimatedCost(call).Ok?
  {
    Decide(limits, cal, Pruned(h.Live(), cal.monthStart(a.at)), a.at, EstimatedCost(call).value, a.id).Granted?
  }

  /** The record of attempt `k` is refused: the model name does not fit, or the writer fails. */
  predicate Unrecordable(call: Call, world: World, k: nat)
  {
    !FitsField(AttemptModel(call, world.Attempt(k).answer)) || !world.writerOk(k)
  }

  /** The ledger after a failed first attempt. */
  function AfterFirst(limits: Limits, cal: Calendar, h: History, call: Call, a: Attempt): (h': History)
    requires limits.Valid() && h.Valid() && EstimatedCost(call).Ok?
    ensures h'.Valid()
  {
    var estimate := EstimatedCost(call).value;
    AfterSettle(AfterReserve(limits, cal, h, a.at, estimate, a.id), a.id, estimate)
  }

  predicate FirstLost(limits: Limits, cal: Calendar, h: History, call: Call, world: World)
    requires limits.Valid() && h.Valid() && EstimatedCost(call).Ok?
  {
    Grants(limits, cal, h, call, world.first) && Unrecordable(call, world, 0)
  }

  /** The first attempt is recorded and retried, and the second one is made and cannot be recorded. */
  predicate SecondLost(limits: Limits, cal: Calendar, h: History, call: Call, world: World)
    requires limits.Valid() && h.Valid() && EstimatedCost(call).Ok?
  {
    && Grants(limits, cal, h, call, world.first) && !Unrecordable(call, world, 0) && Retryable(world.first.answer)
    && Grants(limits, cal, AfterFirst(limits, cal, h, call, world.first), call, world.second)
    && Unrecordable(call, world, 1)
  }

  /** In terms of the call and its world alone: is an attempt made whose record is refused? */
  predicate LosesAttempt(limits: Limits, cal: Calendar, h: History, call: Call, world: World)
    requires limits.Valid() && h.Valid() && EstimatedCost(call).Ok?
  {
    call.refusal.None? && FitsField(call.provider)
    && (FirstLost(limits, cal, h, call, world) || SecondLost(limits, cal, h, call, world))
  }

  lemma PassLoses(limits: Limits, cal: Calendar, h: History, call: Call, world: World, retries: nat)
    requires limits.Valid() && h.Valid() && retries <= 1 && AmountsValid(call)
    requires Validated(call) && call.refusal.None? && FitsField(call.provider)
    ensures EstimatedCost(call).Ok?
    ensures var a, p := world.Attempt(retries), OnePass(limits, cal, h, call, world, retries, retries);
            match p
            case Ended(h', _, records, attempts, _) =>
              && (|records| < attempts <==> Grants(limits, cal, h, call, a) && Unrecordable(call, world, retries))
              && (Grants(limits, cal, h, call, a) && Retryable(a.answer) && retries == 0 ==> Unrecordable(call, world, retries))
            case Retry(h', _, records) =>
              Grants(limits, cal, h, call, a) && !Unrecordable(call, world, retries) && Retryable(a.answer) && retries == 0
              && h' == AfterFirst(limits, cal, h, call, a) && |records| == 1
            case FallBack(_, _, records, _) =>
              !Unrecordable(call, world, retries) && (Retryable(a.answer) ==> retries == 1) && |records| == 1
  {
    hide Decide, AfterSettle, AfterReserve, ActualCost, EstimatedCost, Pruned, PruneCount, FitsField;
    CostsNonNegative(call);
    var estimate, a := EstimatedCost(call).value, world.Attempt(retries);
    OnlyNegativeIsInvalid(limits, cal, h, a.at, estimate, a.id);
  }

  /** An attempt of a call loses its record exactly when it is made and its record is refused. */
  lemma AttemptLosesRecordIff(limits: Limits, cal: Calendar, h: History, call: Call, world: World)
    requires limits.Valid() && h.Valid() && AmountsValid(call) && Validated(call)
    ensures EstimatedCost(call).Ok?
    ensures var e := CallEffect(limits, cal, h, call, world);
            |e.records| < e.attempts <==> LosesAttempt(limits, cal, h, call, world)
  {
    hide OnePass, CassetteEffect, Grants, Unrecordable, AfterFirst, EstimatedCost, Retryable, AmountsValid, FitsField, Write, Record, Validated;
    CostsNonNegative(call);
    if FitsField(call.provider) && call.refusal.None? {
      PassLoses(limits, cal, h, call, world, 0);
      var p := OnePass(limits, cal, h, call, world, 0, 0);
      if p.Retry? {
        PassLoses(limits, cal, p.history, call, world, 1);
        var q := OnePass(limits, cal, p.history, call, world, 1, 1);
        if q.FallBack? { NoCassetteAttempts(q.history, call, world, 1, 2, q.reason); }
      } else if p.FallBack? {
        NoCassetteAttempts(p.history, call, world, 0, 1, p.reason);
      }
    }
  }

  lemma NoCassetteAttempts(h: History, call: Call, world: World, retries: nat, written: nat, reason: Reason)
    ensures CassetteEffect(h, call, world, retries, written, reason).attempts == 0
  {}

  /** What the lost attempt costs. */
  function LostCost(limits: Limits, cal: Calendar, h: History, call: Call, world: World): real
    requires limits.Valid() && h.Valid() && EstimatedCost(call).Ok?
  {
    if !LosesAttempt(limits, cal, h, call, world) then 0.0
    else AttemptCost(call, (if FirstLost(limits, cal, h, call, world) then world.first else world.second).answer)
  }

  /** The last grant of a pass that was made costs what its attempt is settled at. */
  lemma PassHolds(limits: Limits, cal: Calendar, h: History, call: Call, world: World, retries: nat)
    requires limits.Valid() && h.Valid() && retries <= 1 && IdUnused(h, world.Attempt(retries).id) && AmountsValid(call)
    ensures EstimatedCost(call).Ok?
    ensures var p, cost := OnePass(limits, cal, h, call, world, retries, retries), AttemptCost(call, world.Attempt(retries).answer);
            p.Ended? && p.attempts == 1 ==> p.history.grants != [] && p.history.grants[|p.history.grants| - 1].cost == cost
  {
    hide Decide, AfterSettle, AfterReserve, ActualCost, EstimatedCost, Pruned, PruneCount, Write;
    CostsNonNegative(call);
    var estimate, a := EstimatedCost(call).value, world.Attempt(retries);
    OnlyNegativeIsInvalid(limits, cal, h, a.at, estimate, a.id);
    var decision := Decide(limits, cal, Pruned(h.Live(), cal.monthStart(a.at)), a.at, estimate, a.id);
    if decision.Granted? { GrantSettled(limits, cal, h, a.at, estimate, a.id, AttemptCost(call, a.answer)); }
  }

  lemma UnrecordedIsLost(limits: Limits, cal: Calendar, h: History, call: Call, world: World)
    requires limits.Valid() && h.Valid() && FreshIds(h, world) && AmountsValid(call) && Validated(call)
    ensures EstimatedCost(call).Ok?
    ensures var e := CallEffect(limits, cal, h, call, world);
            Unrecorded(e.history, e.attempts, e.records) == LostCost(limits, cal, h, call, world)
  {
    hide OnePass, CassetteEffect, Grants, Unrecordable, AfterFirst, EstimatedCost, Retryable, AmountsValid, FitsField, Write, Record,
         Validated, AttemptCost, PassAdds;
    CostsNonNegative(call);
    AttemptLosesRecordIff(limits, cal, h, call, world);
    if FitsField(call.provider) && call.refusal.None? {
      FirstUnused(h, world);
      PassLoses(limits, cal, h, call, world, 0);
      PassHolds(limits, cal, h, call, world, 0);
      PassAccounted(limits, cal, h, call, world, 0);
      var p := OnePass(limits, cal, h, call, world, 0, 0);
      if p.Ended? {
        AtMostOne(h, p.history, p.attempts, p.records, world.first.id);
      } else if p.Retry? {
        GrownStillUnused(h, p.history, p.records, world);
        PassLoses(limits, cal, p.history, call, world, 1);
        PassHolds(limits, cal, p.history, call, world, 1);
        PassAccounted(limits, cal, p.history, call, world, 1);
        var q := OnePass(limits, cal, p.history, call, world, 1, 1);
        if q.Ended? { AtMostOne(p.history, q.history, q.attempts, q.records, world.second.id); }
      }
    }
  }

  /**
   * The recorded costs of a call are what it added to the ledger exactly when no attempt of non-zero cost is made
   * whose record is refused. The condition reads only the call, what the provider and writer answer, and the ledger before.
   */
  lemma RecordedEqualsHeldIff(limits: Limits, cal: Calendar, h: History, call: Call, world: World)
    requires limits.Valid() && h.Valid() && FreshIds(h, world) && AmountsValid(call) && Validated(call)
    ensures EstimatedCost(call).Ok?
    ensures var e := CallEffect(limits, cal, h, call, world);
            HeldCost(e.history.grants) - HeldCost(h.grants) == RecordedCost(e.records)
            <==> !(LosesAttempt(limits, cal, h, call, world) && LostCost(limits, cal, h, call, world) != 0.0)
  {
    hide CallEffect, HeldCost, RecordedCost, FreshIds, AmountsValid, LosesAttempt, FirstLost, AttemptCost, Validated;
    CostAccounted(limits, cal, h, call, world);
    UnrecordedIsLost(limits, cal, h, call, world);
  }

  /** A call with a model name of 51 characters. */
  const LONG_CALL: Call :=
    Call("1", "recorded", "mmmmmmmmmmmmmmmmmmmmmmmmmmmmmmmmmmmmmmmmmmmmmmmmmmm", Some("v1"), None, Some(1.0), None, None, 0, 0, None)

  /** The provider rejects both attempts, and the writer works. */
  function RejectingWorld(t: int): World
  {
    World(Attempt(t, 0, ProviderRejected), Attempt(t, 1, ProviderRejected), ProviderRejected, n => true)
  }

  /** Rejected by the provider, that call holds one and records nothing. */
  lemma LongModelExample(cal: Calendar, t: int)
    ensures var limits, nothing := Limits(1, 1, None), History([], 0);
            var e := CallEffect(limits, cal, nothing, LONG_CALL, RejectingWorld(t));
            e.records == [] && e.attempts == 1 && HeldCost(e.history.grants) == 1.0
            && LosesAttempt(limits, cal, nothing, LONG_CALL, RejectingWorld(t))
  {
    LongCallFacts();
    hide AfterSettle, AfterReserve, HeldCost, CallEffect, LONG_CALL, EstimatedCost, FitsField, AmountsValid, Decide, Pruned;
    var limits, nothing := Limits(1, 1, None), History([], 0);
    NothingLive(limits, cal, t);
    LongModelLosesRecord(limits, cal, nothing, LONG_CALL, RejectingWorld(t));
    NothingHeld();
  }

  lemma LongCallFacts()
    ensures |LONG_CALL.model| == 51 && !FitsField(LONG_CALL.model) && FitsField(LONG_CALL.provider)
    ensures LONG_CALL.refusal.None? && AmountsValid(LONG_CALL) && EstimatedCost(LONG_CALL) == Ok(1.0)
  {}

  lemma NothingLive(limits: Limits, cal: Calendar, t: int)
    requires limits == Limits(1, 1, None)
    ensures Decide(limits, cal, Pruned(History([], 0).Live(), cal.monthStart(t)), t, 1.0, 0).Granted?
  {
    assert History([], 0).Live() == [] && Pruned([], cal.monthStart(t)) == [];
  }

  // ---------- whole runs ----------

  /** A run of calls with new ids, valid amounts and validated requests, under any names and any writer. */
  predicate RunIsValid(limits: Limits, cal: Calendar, calls: seq<(Call, World)>)
    requires limits.Valid()
  {
    forall n :: 0 <= n < |calls| ==>
      && FreshIds(RunCalls(limits, cal, calls[..n]).history, calls[n].1)
      && AmountsValid(calls[n].0) && Validated(calls[n].0)
  }

  /** What the `n`-th call of a run loses. */
  function LostBy(limits: Limits, cal: Calendar, calls: seq<(Call, World)>, n: nat): real
    requires limits.Valid() && n < |calls|
  {
    var (call, world) := calls[n];
    if EstimatedCost(call).Ok? then LostCost(limits, cal, RunCalls(limits, cal, calls[..n]).history, call, world) else 0.0
  }

  function LostOver(limits: Limits, cal: Calendar, calls: seq<(Call, World)>, n: nat): real
    requires limits.Valid() && n <= |calls|
  {
    if n == 0 then 0.0 else LostOver(limits, cal, calls, n - 1) + LostBy(limits, cal, calls, n - 1)
  }

  lemma LossNonNegative(limits: Limits, cal: Calendar, h: History, call: Call, world: World)
    requires limits.Valid() && h.Valid() && AmountsValid(call)
    ensures EstimatedCost(call).Ok? && LostCost(limits, cal, h, call, world) >= 0.0
  {
    hide EstimatedCost, ActualCost, LosesAttempt, FirstLost;
    CostsNonNegative(call);
  }

  /** Over any run, what the ledger holds is what was recorded plus what the lost attempts cost. */
  lemma {:induction false} RunAccounted(limits: Limits, cal: Calendar, calls: seq<(Call, World)>, n: nat)
    requires limits.Valid() && RunIsValid(limits, cal, calls) && n <= |calls|
    ensures var t := RunCalls(limits, cal, calls[..n]);
            HeldCost(t.history.grants) == RecordedCost(t.records) + LostOver(limits, cal, calls, n)
  {
    hide CallEffect, HeldCost, RecordedCost, FreshIds, AmountsValid, Validated, LostCost, Accounts;
    if n == 0 {
      NothingHeld();
    } else {
      RunAccounted(limits, cal, calls, n - 1);
      var before := RunCalls(limits, cal, calls[..n - 1]);
      var (call, world) := calls[n - 1];
      assert calls[..n][..n - 1] == calls[..n - 1];
      UnrecordedIsLost(limits, cal, before.history, call, world);
      CallAdds(limits, cal, before.history, call, world);
      RecordedAppend(before.records, CallEffect(limits, cal, before.history, call, world).records);
    }
  }

  lemma NothingHeld()
    ensures HeldCost([]) == 0.0 && RecordedCost([]) == 0.0
  {}

  lemma CallAdds(limits: Limits, cal: Calendar, h: History, call: Call, world: World)
    requires limits.Valid() && h.Valid() && FreshIds(h, world) && AmountsValid(call)
    ensures var e := CallEffect(limits, cal, h, call, world);
            HeldCost(e.history.grants) == HeldCost(h.grants) + RecordedCost(e.records) + Unrecorded(e.history, e.attempts, e.records)
  {
    hide CallEffect, HeldCost, RecordedCost, FreshIds, AmountsValid;
    CostAccounted(limits, cal, h, call, world);
  }

  lemma {:induction false} LossAdds(limits: Limits, cal: Calendar, calls: seq<(Call, World)>, n: nat)
    requires limits.Valid() && RunIsValid(limits, cal, calls) && n <= |calls|
    ensures LostOver(limits, cal, calls, n) >= 0.0
    ensures LostOver(limits, cal, calls, n) == 0.0 <==> forall k :: 0 <= k < n ==> LostBy(limits, cal, calls, k) == 0.0
  {
    hide LostCost, FreshIds, AmountsValid, Validated, EstimatedCost;
    if n > 0 {
      LossAdds(limits, cal, calls, n - 1);
      LossNonNegative(limits, cal, RunCalls(limits, cal, calls[..n - 1]).history, calls[n - 1].0, calls[n - 1].1);
    }
  }

  /** The records of a run add up to the ledger exactly when no call of the run loses an attempt of non-zero cost. */
  lemma RunRecordedEqualsHeldIff(limits: Limits, cal: Calendar, calls: seq<(Call, World)>)
    requires limits.Valid() && RunIsValid(limits, cal, calls)
    ensures var t := RunCalls(limits, cal, calls);
            RecordedCost(t.records) == HeldCost(t.history.grants)
            <==> forall k :: 0 <= k < |calls| ==> LostBy(limits, cal, calls, k) == 0.0
  {
    hide RunCalls, HeldCost, RecordedCost, RunIsValid, LostBy;
    RunAccounted(limits, cal, calls, |calls|);
    LossAdds(limits, cal, calls, |calls|);
    assert calls[..|calls|] == calls;
  }
}
