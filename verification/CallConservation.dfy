/** Spend and record conservation over any run of guarded model calls. */
module CallConservation {
  import opened Prelude
  import opened BudgetLedger
  import opened BudgetBounds
  import opened CeilingAnswers
  import opened ModelClient

  /** The sum of all recorded costs that are present. */
  function RecordedCost(records: seq<CallRecord>): real
  {
    if records == [] then 0.0 else
    RecordedCost(records[..|records| - 1])
    + match records[|records| - 1].cost case None => 0.0 case Some(c) => c
  }

  /** The total cost ever held in the ledger, pruned entries included. */
  function HeldCost(grants: seq<Grant>): real
  {
    if grants == [] then 0.0 else HeldCost(grants[..|grants| - 1]) + grants[|grants| - 1].cost
  }

  lemma {:induction false} RecordedAppend(a: seq<CallRecord>, b: seq<CallRecord>)
    ensures RecordedCost(a + b) == RecordedCost(a) + RecordedCost(b)
  {
    if b == [] {
      assert a + b == a;
    } else {
      assert (a + b)[..|a + b| - 1] == a + b[..|b| - 1];
      RecordedAppend(a, b[..|b| - 1]);
    }
  }

  lemma {:induction false} HeldAppend(a: seq<Grant>, b: seq<Grant>)
    ensures HeldCost(a + b) == HeldCost(a) + HeldCost(b)
  {
    if b == [] {
      assert a + b == a;
    } else {
      assert (a + b)[..|a + b| - 1] == a + b[..|b| - 1];
      HeldAppend(a, b[..|b| - 1]);
    }
  }

  // ---------- the settled grant a pass leaves behind ----------

  /** Settling the newest grant replaces its cost and nothing else. */
  lemma SettleNewest(h: History, at: int, estimate: real, id: nat, held: History, cost: real)
    requires h.Valid() && held.Valid() && IdUnused(h, id)
    requires held.grants == h.grants + [Grant(id, at, estimate, estimate, false)] && held.dropped <= |h.grants|
    ensures AfterSettle(held, id, cost).grants == h.grants + [Grant(id, at, estimate, cost, true)]
    ensures SettlesOnce(held, Settle(id, None, cost))
  {
    var live, last := held.Live(), |held.Live()| - 1;
    assert live[last].id == id;
    forall i | 0 <= i < last ensures live[i].id != id {
      assert live[i].id == held.grants[held.dropped + i].id == h.grants[held.dropped + i].id;
    }
    assert IndexOf(live, id) == last by { IndexOfFinds(live, id, last); }
    assert held.dropped + last == |h.grants|;
  }

  predicate ReplaySettlesOnce(limits: Limits, cal: Calendar, h: History, ops: seq<Operation>)
    requires limits.Valid() && h.Valid()
  {
    forall n :: 0 <= n < |ops| ==> SettlesOnce(Replay(limits, cal, h, ops[..n]), ops[n])
  }

  lemma {:induction false} ReplayAppend(limits: Limits, cal: Calendar, h: History, a: seq<Operation>, b: seq<Operation>)
    requires limits.Valid() && h.Valid()
    ensures Replay(limits, cal, h, a + b) == Replay(limits, cal, Replay(limits, cal, h, a), b)
  {
    if b == [] {
      assert a + b == a;
    } else {
      assert (a + b)[..|a + b| - 1] == a + b[..|b| - 1];
      ReplayAppend(limits, cal, h, a, b[..|b| - 1]);
    }
  }

  lemma ReplaySettlesAppend(limits: Limits, cal: Calendar, h: History, a: seq<Operation>, b: seq<Operation>)
    requires limits.Valid() && h.Valid()
    requires ReplaySettlesOnce(limits, cal, h, a) && ReplaySettlesOnce(limits, cal, Replay(limits, cal, h, a), b)
    ensures ReplaySettlesOnce(limits, cal, h, a + b)
  {
    hide Step, SettlesOnce;
    forall n | 0 <= n < |a + b| ensures SettlesOnce(Replay(limits, cal, h, (a + b)[..n]), (a + b)[n]) {
      if n < |a| {
        assert (a + b)[..n] == a[..n];
      } else {
        assert (a + b)[..n] == a + b[..n - |a|];
        ReplayAppend(limits, cal, h, a, b[..n - |a|]);
      }
    }
  }

  lemma {:induction false} RunIsReplay(limits: Limits, cal: Calendar, ops: seq<Operation>)
    requires limits.Valid()
    ensures Run(limits, cal, ops) == Replay(limits, cal, History([], 0), ops)
  {
    hide Step;
    if ops != [] { RunIsReplay(limits, cal, ops[..|ops| - 1]); }
  }

  // ---------- one call ----------

  /** What a stretch of a call did to the ledger and the records, when every record was written. */
  ghost predicate Balanced(limits: Limits, cal: Calendar, h: History, h': History, ops: seq<Operation>,
                           records: seq<CallRecord>, attempts: nat)
  {
    && limits.Valid() && h.Valid() && h'.Valid()
    && |h'.grants| == |h.grants| + attempts
    && h'.grants[..|h.grants|] == h.grants
    && (forall i :: |h.grants| <= i < |h'.grants| ==> h'.grants[i].settled)
    && HeldCost(h'.grants) - HeldCost(h.grants) == RecordedCost(records)
  }

  /** The ledger's history is exactly the replay of the operations, and no reservation is settled twice. */
  ghost predicate Accounted(limits: Limits, cal: Calendar, h: History, h': History, ops: seq<Operation>)
  {
    && limits.Valid() && h.Valid()
    && h' == Replay(limits, cal, h, ops)
    && ReplaySettlesOnce(limits, cal, h, ops)
  }

  lemma BalancedCompose(limits: Limits, cal: Calendar, h: History, m: History, h': History, ops: seq<Operation>, more: seq<Operation>,
                        records: seq<CallRecord>, rest: seq<CallRecord>, attempts: nat, again: nat)
    requires Balanced(limits, cal, h, m, ops, records, attempts) && Balanced(limits, cal, m, h', more, rest, again)
    ensures Balanced(limits, cal, h, h', ops + more, records + rest, attempts + again)
  {
    hide HeldCost, RecordedCost;
    RecordedAppend(records, rest);
    assert h'.grants[..|h.grants|] == h'.grants[..|m.grants|][..|h.grants|];
    forall i | |h.grants| <= i < |h'.grants| ensures h'.grants[i].settled {
      if i < |m.grants| { assert h'.grants[..|m.grants|][i] == m.grants[i]; }
    }
  }

  lemma AccountedCompose(limits: Limits, cal: Calendar, h: History, m: History, h': History, ops: seq<Operation>, more: seq<Operation>)
    requires Accounted(limits, cal, h, m, ops) && Accounted(limits, cal, m, h', more)
    ensures Accounted(limits, cal, h, h', ops + more)
  {
    hide Replay, ReplaySettlesOnce;
    ReplayAppend(limits, cal, h, ops, more);
    ReplaySettlesAppend(limits, cal, h, ops, more);
  }

  lemma OneRecord(record: CallRecord)
    ensures RecordedCost([record]) == match record.cost case None => 0.0 case Some(c) => c
    ensures RecordedCost([]) == 0.0
  {
    assert [record][..0] == [];
  }

  lemma NothingBalanced(limits: Limits, cal: Calendar, h: History, h': History, ops: seq<Operation>, records: seq<CallRecord>)
    requires limits.Valid() && h.Valid() && h'.Valid() && h'.grants == h.grants && RecordedCost(records) == 0.0
    ensures Balanced(limits, cal, h, h', ops, records, 0)
  {}

  /** A reservation settled at `cost` is the newest grant, settled, and the two operations replay to it. */
  lemma ReservedThenSettled(limits: Limits, cal: Calendar, h: History, at: int, estimate: real, id: nat, settle: Operation, cost: real)
    requires limits.Valid() && h.Valid() && IdUnused(h, id) && estimate >= 0.0 && cost >= 0.0
    requires Decide(limits, cal, Pruned(h.Live(), cal.monthStart(at)), at, estimate, id).Granted?
    requires settle == Settle(id, None, cost) || settle == Settle(id, Some(cost), estimate)
    ensures var h' := AfterSettle(AfterReserve(limits, cal, h, at, estimate, id), id, cost);
            Accounted(limits, cal, h, h', [Reserve(at, estimate, id), settle])
            && h'.grants == h.grants + [Grant(id, at, estimate, cost, true)] && h'.Valid()
  {
    hide Decide, PruneCount, AfterSettle;
    var held := AfterReserve(limits, cal, h, at, estimate, id);
    JustGranted(limits, cal, h, at, estimate, id);
    hide AfterReserve;
    SettleNewest(h, at, estimate, id, held, cost);
    var reserve := Reserve(at, estimate, id);
    var ops := [reserve, settle];
    assert ops[..1] == [reserve] && ops[..0] == [] && [reserve][..0] == [];
    assert Replay(limits, cal, h, [reserve]) == held;
    assert Replay(limits, cal, h, ops) == AfterSettle(held, id, cost);
    assert SettlesOnce(held, settle);
  }

  /** A reservation settled at `cost` and recorded at the same cost. */
  lemma SettledBalanced(limits: Limits, cal: Calendar, h: History, at: int, estimate: real, id: nat, settle: Operation,
                        cost: real, record: CallRecord)
    requires limits.Valid() && h.Valid() && IdUnused(h, id) && estimate >= 0.0 && cost >= 0.0
    requires Decide(limits, cal, Pruned(h.Live(), cal.monthStart(at)), at, estimate, id).Granted?
    requires settle == Settle(id, None, cost) || settle == Settle(id, Some(cost), estimate)
    requires record.cost == Some(cost)
    ensures var h' := AfterSettle(AfterReserve(limits, cal, h, at, estimate, id), id, cost);
            var ops := [Reserve(at, estimate, id), settle];
            Balanced(limits, cal, h, h', ops, [record], 1) && Accounted(limits, cal, h, h', ops)
            && h'.grants == h.grants + [Grant(id, at, estimate, cost, true)]
  {
    hide Decide, Pruned, AfterSettle, AfterReserve, Accounted;
    ReservedThenSettled(limits, cal, h, at, estimate, id, settle, cost);
    var g := Grant(id, at, estimate, cost, true);
    HeldAppend(h.grants, [g]);
    assert [g][..0] == [];
    OneRecord(record);
  }

  // ---------- the conditions the guarantees rest on ----------

  predicate NonNegative(amount: Option<real>) { amount.Some? ==> amount.value >= 0.0 }

  /** No negative price or estimate was configured. */
  predicate AmountsValid(call: Call)
  {
    NonNegative(call.configuredEstimate) && NonNegative(call.inputPrice) && NonNegative(call.outputPrice)
  }

  predicate AnswerFits(call: Call, answer: Answer)
  {
    answer.Answered? ==> FitsField(OwnModel(call, answer.response))
  }

  /** Every name that can reach a record fits its 50-character column. */
  predicate NamesFit(call: Call, world: World)
  {
    && FitsField(call.stage) && FitsField(call.provider) && FitsField(call.model)
    && (call.promptVersion.Some? ==> FitsField(call.promptVersion.value))
    && (call.cassette.Some? ==> FitsField(call.cassette.value))
    && AnswerFits(call, world.first.answer) && AnswerFits(call, world.second.answer) && AnswerFits(call, world.cassette)
  }

  ghost predicate WriterWorks(world: World) { forall n :: world.writerOk(n) }

  lemma PriceNonNegative(tokens: nat, price: real)
    requires price >= 0.0
    ensures PriceOf(tokens, price) >= 0.0
  {
    assert tokens as real * price >= 0.0;
  }

  lemma CostsNonNegative(call: Call)
    requires AmountsValid(call)
    ensures EstimatedCost(call).Ok? && EstimatedCost(call).value >= 0.0
    ensures forall response, estimate :: estimate >= 0.0 ==> ActualCost(call, response, estimate) >= 0.0
  {
    hide PriceOf;
    if call.inputPrice.Some? { PriceNonNegative(call.inputLength, call.inputPrice.value); }
    if call.outputPrice.Some? { PriceNonNegative(call.maxTokens, call.outputPrice.value); }
    forall response: Response, estimate | estimate >= 0.0 ensures ActualCost(call, response, estimate) >= 0.0 {
      if call.inputPrice.Some? && response.inputTokens.Some? {
        PriceNonNegative(response.inputTokens.value, call.inputPrice.value);
      }
      if call.outputPrice.Some? && response.outputTokens.Some? {
        PriceNonNegative(response.outputTokens.value, call.outputPrice.value);
      }
    }
  }

  // ---------- one pass, one call ----------

  /** A stretch of a call in which every event left its record. */
  ghost predicate Sound(limits: Limits, cal: Calendar, h: History, h': History, ops: seq<Operation>,
                        records: seq<CallRecord>, attempts: nat)
  {
    Balanced(limits, cal, h, h', ops, records, attempts) && Accounted(limits, cal, h, h', ops)
  }

  lemma RefusedReserveSound(limits: Limits, cal: Calendar, h: History, at: int, estimate: real, id: nat, record: CallRecord)
    requires limits.Valid() && h.Valid() && estimate >= 0.0 && record.cost == None
    requires Decide(limits, cal, Pruned(h.Live(), cal.monthStart(at)), at, estimate, id).Refused?
    ensures Sound(limits, cal, h, AfterReserve(limits, cal, h, at, estimate, id), [Reserve(at, estimate, id)], [record], 0)
  {
    hide Decide, PruneCount;
    OneRecord(record);
    var h' := AfterReserve(limits, cal, h, at, estimate, id);
    NothingBalanced(limits, cal, h, h', [Reserve(at, estimate, id)], [record]);
    assert [Reserve(at, estimate, id)][..0] == [];
    assert Replay(limits, cal, h, []) == h;
    assert Replay(limits, cal, h, [Reserve(at, estimate, id)]) == h';
  }

  lemma FirstPassSound(limits: Limits, cal: Calendar, h: History, call: Call, world: World, retries: nat)
    requires limits.Valid() && h.Valid() && retries <= 1 && IdUnused(h, world.Attempt(retries).id)
    requires AmountsValid(call) && NamesFit(call, world) && WriterWorks(world)
    ensures var p := OnePass(limits, cal, h, call, world, retries, retries);
            match p
            case Ended(h', ops, records, attempts, outcome) =>
              Sound(limits, cal, h, h', ops, records, attempts) && attempts <= 1 && |records| == 1
              && (attempts == 0 <==> outcome.Raised? && outcome.error.CeilingHit?)
            case Retry(h', ops, records) =>
              Sound(limits, cal, h, h', ops, records, 1) && |records| == 1 && GrewByOne(h, h', world.Attempt(retries).id)
            case FallBack(h', ops, records, _) => Sound(limits, cal, h, h', ops, records, 1) && |records| == 1
  {
    hide Decide, AfterSettle, AfterReserve, Sound, ActualCost, EstimatedCost, NamesFit, PruneCount, Pruned;
    CostsNonNegative(call);
    var estimate := EstimatedCost(call).value;
    var a := world.Attempt(retries);
    OnlyNegativeIsInvalid(limits, cal, h, a.at, estimate, a.id);
    var decision := Decide(limits, cal, Pruned(h.Live(), cal.monthStart(a.at)), a.at, estimate, a.id);
    if decision.Refused? {
      var record := Record(call, call.provider, call.model, None, CeilingReached(decision.ceiling.dimension), retries, false);
      PlainRecordFits(call, world, None, CeilingReached(decision.ceiling.dimension), retries);
      RefusedReserveSound(limits, cal, h, a.at, estimate, a.id, record);
    } else if a.answer.Answered? {
      AnsweredSound(limits, cal, h, call, world, retries, estimate);
    } else {
      FailedSound(limits, cal, h, call, world, retries, estimate);
    }
  }

  predicate GrewByOne(h: History, h': History, id: nat)
  {
    |h'.grants| == |h.grants| + 1 && h'.grants[|h.grants|].id == id && h'.grants[..|h.grants|] == h.grants
  }

  lemma PlainRecordFits(call: Call, world: World, cost: Option<real>, verdict: Verdict, retries: nat)
    requires NamesFit(call, world)
    ensures RecordFits(Record(call, call.provider, call.model, cost, verdict, retries, false))
  {}

  lemma AnsweredSound(limits: Limits, cal: Calendar, h: History, call: Call, world: World, retries: nat, estimate: real)
    requires limits.Valid() && h.Valid() && retries <= 1 && IdUnused(h, world.Attempt(retries).id) && estimate >= 0.0
    requires AmountsValid(call) && NamesFit(call, world) && WriterWorks(world)
    requires var a := world.Attempt(retries);
             a.answer.Answered? && Decide(limits, cal, Pruned(h.Live(), cal.monthStart(a.at)), a.at, estimate, a.id).Granted?
    ensures var a := world.Attempt(retries);
            var held := AfterReserve(limits, cal, h, a.at, estimate, a.id);
            var p := AnsweredPass(held, call, world, a, estimate, retries, retries);
            p.Ended? && p.attempts == 1 && |p.records| == 1 && p.outcome.Returned?
            && Sound(limits, cal, h, p.history, p.ops, p.records, p.attempts)
  {
    hide Decide, AfterReserve, AfterSettle, ActualCost, Balanced, Accounted;
    CostsNonNegative(call);
    var a := world.Attempt(retries);
    var actual := ActualCost(call, a.answer.response, estimate);
    var record := Record(
      call, call.provider, OwnModel(call, a.answer.response), Some(actual), NotChecked, retries, a.answer.response.fromCassette);
    SettledBalanced(limits, cal, h, a.at, estimate, a.id, Settle(a.id, Some(actual), estimate), actual, record);
  }

  lemma FailedSound(limits: Limits, cal: Calendar, h: History, call: Call, world: World, retries: nat, estimate: real)
    requires limits.Valid() && h.Valid() && retries <= 1 && IdUnused(h, world.Attempt(retries).id) && estimate >= 0.0
    requires NamesFit(call, world) && WriterWorks(world)
    requires var a := world.Attempt(retries);
             !a.answer.Answered? && Decide(limits, cal, Pruned(h.Live(), cal.monthStart(a.at)), a.at, estimate, a.id).Granted?
    ensures var a := world.Attempt(retries);
            var held := AfterReserve(limits, cal, h, a.at, estimate, a.id);
            var p := FailedPass(held, call, world, a, estimate, retries, retries);
            Sound(limits, cal, h, p.history, p.ops, p.records, 1) && |p.records| == 1
            && (p.Ended? ==> p.attempts == 1 && p.outcome.Raised? && !p.outcome.error.CeilingHit?)
            && GrewByOne(h, p.history, a.id)
  {
    hide Decide, AfterReserve, AfterSettle, Balanced, Accounted;
    var a := world.Attempt(retries);
    var record := Record(call, call.provider, call.model, Some(estimate), FailureVerdict(a.answer), retries, false);
    PlainRecordFits(call, world, Some(estimate), FailureVerdict(a.answer), retries);
    SettledBalanced(limits, cal, h, a.at, estimate, a.id, Settle(a.id, None, estimate), estimate, record);
  }

  lemma CassetteSound(limits: Limits, cal: Calendar, h: History, call: Call, world: World, retries: nat, written: nat, reason: Reason)
    requires limits.Valid() && h.Valid() && NamesFit(call, world) && WriterWorks(world)
    ensures var e := CassetteEffect(h, call, world, retries, written, reason);
            Sound(limits, cal, h, e.history, e.ops, e.records, 0) && e.attempts == 0
            && |e.records| == e.cassetteTries <= 1
            && (e.outcome.Raised? ==> e.outcome.error == Unreachable(reason))
  {
    var e := CassetteEffect(h, call, world, retries, written, reason);
    if e.records != [] { OneRecord(e.records[0]); assert e.records == [e.records[0]]; }
    NothingBalanced(limits, cal, h, h, [], e.records);
  }

  /** Did the call end in a refusal before any provider was reached? */
  predicate EndedRefused(outcome: Outcome)
  {
    outcome.Raised? && (outcome.error.CeilingHit? || outcome.error.ValidationRefused?)
  }

  /** The whole accounting of one call. */
  ghost predicate CallSound(limits: Limits, cal: Calendar, h: History, e: Effect)
  {
    && Sound(limits, cal, h, e.history, e.ops, e.records, e.attempts)
    && e.attempts <= 2 && |e.records| <= 3
    && |e.records| == e.attempts + e.cassetteTries + (if EndedRefused(e.outcome) then 1 else 0)
  }

  lemma SoundCompose(limits: Limits, cal: Calendar, h: History, m: History, h': History, ops: seq<Operation>, more: seq<Operation>,
                     records: seq<CallRecord>, rest: seq<CallRecord>, attempts: nat, again: nat)
    requires Sound(limits, cal, h, m, ops, records, attempts) && Sound(limits, cal, m, h', more, rest, again)
    ensures Sound(limits, cal, h, h', ops + more, records + rest, attempts + again)
  {
    hide Balanced, Accounted;
    BalancedCompose(limits, cal, h, m, h', ops, more, records, rest, attempts, again);
    AccountedCompose(limits, cal, h, m, h', ops, more);
  }

  lemma {:induction false} AttemptsSound(limits: Limits, cal: Calendar, h: History, call: Call, world: World, retries: nat)
    requires limits.Valid() && h.Valid() && retries <= 1 && IdUnused(h, world.Attempt(retries).id)
    requires retries == 0 ==> FreshIds(h, world)
    requires AmountsValid(call) && NamesFit(call, world) && WriterWorks(world)
    ensures var e := Attempts(limits, cal, h, call, world, retries, retries);
            Sound(limits, cal, h, e.history, e.ops, e.records, e.attempts)
            && e.attempts <= 2 - retries && e.cassetteTries <= 1 && !(e.outcome.Raised? && e.outcome.error.ValidationRefused?)
            && |e.records| == e.attempts + e.cassetteTries + (if EndedRefused(e.outcome) then 1 else 0)
            && (e.cassetteTries == 1 ==> !EndedRefused(e.outcome))
    decreases 1 - retries
  {
    hide OnePass, Sound, NamesFit, CassetteEffect;
    FirstPassSound(limits, cal, h, call, world, retries);
    match OnePass(limits, cal, h, call, world, retries, retries)
    case Ended(_, _, _, _, _) => PassOutcome(limits, cal, h, call, world, retries);
    case Retry(h', ops, records) =>
      SecondStillUnused(h, h', world);
      AttemptsSound(limits, cal, h', call, world, 1);
      var rest := Attempts(limits, cal, h', call, world, 1, 1);
      SoundCompose(limits, cal, h, h', rest.history, ops, rest.ops, records, rest.records, 1, rest.attempts);
    case FallBack(h', ops, records, reason) =>
      CassetteSound(limits, cal, h', call, world, retries, retries + 1, reason);
      var rest := CassetteEffect(h', call, world, retries, retries + 1, reason);
      SoundCompose(limits, cal, h, h', rest.history, ops, rest.ops, records, rest.records, 1, 0);
  }

  lemma PassOutcome(limits: Limits, cal: Calendar, h: History, call: Call, world: World, retries: nat)
    requires limits.Valid() && h.Valid()
    ensures var p := OnePass(limits, cal, h, call, world, retries, retries);
            p.Ended? && p.outcome.Raised? ==> !p.outcome.error.ValidationRefused?
  {
    hide Decide, AfterReserve, AfterSettle, ActualCost;
  }

  lemma SecondStillUnused(h: History, h': History, world: World)
    requires FreshIds(h, world) && GrewByOne(h, h', world.first.id)
    ensures IdUnused(h', world.second.id)
  {
    forall i | 0 <= i < |h'.grants| ensures h'.grants[i].id != world.second.id {
      if i < |h.grants| { assert h'.grants[i] == h'.grants[..|h.grants|][i] == h.grants[i]; }
    }
  }

  /**
   * With a working writer, valid amounts and names that fit, one call makes at most two attempts, settles every
   * reservation exactly once, writes one record per attempt, cassette try or refusal, and its recorded costs add
   * up to what it added to the ledger.
   */
  lemma CallIsSound(limits: Limits, cal: Calendar, h: History, call: Call, world: World)
    requires limits.Valid() && h.Valid() && FreshIds(h, world)
    requires AmountsValid(call) && NamesFit(call, world) && WriterWorks(world)
    ensures CallSound(limits, cal, h, CallEffect(limits, cal, h, call, world))
  {
    hide Attempts, Sound;
    if call.refusal.Some? {
      var record := Record(call, call.provider, call.model, None, RefusedBeforeSend, 0, false);
      PlainRecordFits(call, world, None, RefusedBeforeSend, 0);
      OneRecord(record);
      RefusalSound(limits, cal, h, record);
    } else {
      FirstUnused(h, world);
      AttemptsSound(limits, cal, h, call, world, 0);
    }
  }

  lemma RefusalSound(limits: Limits, cal: Calendar, h: History, record: CallRecord)
    requires limits.Valid() && h.Valid() && record.cost == None
    ensures Sound(limits, cal, h, h, [], [record], 0)
  {
    OneRecord(record);
    NothingBalanced(limits, cal, h, h, [], [record]);
  }

  // ---------- with no assumption on names, amounts or the writer ----------

  /** A result is returned only after its own record was written, last, with the same cost. */
  lemma ReturnedOnlyAfterRecorded(limits: Limits, cal: Calendar, h: History, call: Call, world: World)
    requires limits.Valid() && h.Valid()
    ensures var e := CallEffect(limits, cal, h, call, world);
            e.attempts <= 2 && |e.records| <= 3
            && (e.outcome.Returned? ==>
                  e.records != [] && e.records[|e.records| - 1] == e.outcome.result.record
                  && e.outcome.result.record.cost == Some(e.outcome.result.cost))
  {
    hide OnePass, CassetteEffect;
    if call.refusal.None? && FitsField(call.provider) {
      PassRecorded(limits, cal, h, call, world, 0);
      var p := OnePass(limits, cal, h, call, world, 0, 0);
      if p.Retry? {
        PassRecorded(limits, cal, p.history, call, world, 1);
        var q := OnePass(limits, cal, p.history, call, world, 1, 1);
        if q.FallBack? { CassetteRecorded(q.history, call, world, 1, 2, q.reason); }
      } else if p.FallBack? {
        CassetteRecorded(p.history, call, world, 0, 1, p.reason);
      }
    }
  }

  predicate EndsInItsRecord(records: seq<CallRecord>, outcome: Outcome)
  {
    outcome.Returned? ==>
      records != [] && records[|records| - 1] == outcome.result.record && outcome.result.record.cost == Some(outcome.result.cost)
  }

  lemma PassRecorded(limits: Limits, cal: Calendar, h: History, call: Call, world: World, retries: nat)
    requires limits.Valid() && h.Valid()
    ensures var p := OnePass(limits, cal, h, call, world, retries, retries);
            |p.records| <= 1 && (p.Ended? ==> p.attempts <= 1 && EndsInItsRecord(p.records, p.outcome))
  {
    hide Decide, AfterReserve, AfterSettle, ActualCost, EstimatedCost, Write;
  }

  lemma CassetteRecorded(h: History, call: Call, world: World, retries: nat, written: nat, reason: Reason)
    ensures var e := CassetteEffect(h, call, world, retries, written, reason);
            |e.records| <= 1 && e.attempts == 0 && EndsInItsRecord(e.records, e.outcome)
  {}

  /** The record that gives the reason for an outcome. */
  predicate Explains(record: CallRecord, outcome: Outcome)
  {
    match outcome
    case Returned(result) => record == result.record && record.verdict == NotChecked
    case Raised(ValidationRefused) => record.verdict == RefusedBeforeSend
    case Raised(CeilingHit(dimension)) => record.verdict == CeilingReached(dimension)
    case Raised(Unreachable(_)) => record.verdict == ProviderUnavailable || record.verdict == CassetteUnavailable
    case Raised(AuthError) => record.verdict == ProviderAuthRefused
    case Raised(RejectedError) => record.verdict == ProviderRefused
    case Raised(CrashError) => record.verdict == ProviderError
    case Raised(_) => true
  }

  /** The errors that say themselves that no record could be written. */
  predicate Unwritten(outcome: Outcome)
  {
    outcome == Raised(FieldTooLong) || outcome == Raised(RecordNotSaved) || outcome == Raised(InvalidAmountError)
  }

  predicate EndsExplained(records: seq<CallRecord>, outcome: Outcome, retries: nat)
  {
    Unwritten(outcome)
    || (records != [] && Explains(records[|records| - 1], outcome) && records[|records| - 1].retryCount == retries)
  }

  lemma PassExplained(limits: Limits, cal: Calendar, h: History, call: Call, world: World, retries: nat)
    requires limits.Valid() && h.Valid()
    ensures var p := OnePass(limits, cal, h, call, world, retries, retries);
            match p
            case Ended(_, _, records, _, outcome) => EndsExplained(records, outcome, retries)
            case FallBack(_, _, records, reason) => EndsExplained(records, Raised(Unreachable(reason)), retries)
            case Retry(_, _, records) => records != [] && records[|records| - 1].verdict == ProviderUnavailable
  {
    hide Decide, AfterReserve, AfterSettle, ActualCost, PriceOf;
  }

  lemma CassetteExplained(h: History, call: Call, world: World, retries: nat, written: nat, reason: Reason)
    ensures var e := CassetteEffect(h, call, world, retries, written, reason);
            if e.records == [] then e.outcome == Raised(Unreachable(reason)) || Unwritten(e.outcome)
            else EndsExplained(e.records, e.outcome, retries) && e.records[|e.records| - 1].fromCassette
  {}

  /** Unless the call raises that it could not write, its last record gives the reason for how it ended. */
  lemma LastRecordExplains(limits: Limits, cal: Calendar, h: History, call: Call, world: World)
    requires limits.Valid() && h.Valid()
    ensures var e := CallEffect(limits, cal, h, call, world);
            Unwritten(e.outcome)
            || (e.records != [] && Explains(e.records[|e.records| - 1], e.outcome)
                && e.records[|e.records| - 1].retryCount <= 1)
  {
    hide OnePass, CassetteEffect, Explains;
    if call.refusal.None? {
      PassExplained(limits, cal, h, call, world, 0);
      var p := OnePass(limits, cal, h, call, world, 0, 0);
      if p.Retry? {
        PassExplained(limits, cal, p.history, call, world, 1);
        var q := OnePass(limits, cal, p.history, call, world, 1, 1);
        if q.FallBack? { CassetteExplained(q.history, call, world, 1, 2, q.reason); }
      } else if p.FallBack? {
        CassetteExplained(p.history, call, world, 0, 1, p.reason);
      }
    } else {
      RefusalExplained(call);
    }
  }

  lemma RefusalExplained(call: Call)
    ensures Explains(Record(call, call.provider, call.model, None, RefusedBeforeSend, 0, false), Raised(ValidationRefused))
  {}

  /** A stage, provider or prompt version that does not fit its column leaves no record of anything, refusals included. */
  lemma UnfitNamesLeaveNoRecord(limits: Limits, cal: Calendar, h: History, call: Call, world: World)
    requires limits.Valid() && h.Valid()
    requires !FitsField(call.stage) || !FitsField(call.provider) || (call.promptVersion.Some? && !FitsField(call.promptVersion.value))
    ensures CallEffect(limits, cal, h, call, world).records == []
  {
    hide Decide, AfterReserve, AfterSettle, ActualCost, EstimatedCost, CassetteEffect;
    assert forall model, cost, verdict, retries, fromCassette ::
      !RecordFits(Record(call, call.provider, model, cost, verdict, retries, fromCassette));
    if call.refusal.None? { UnfitPass(limits, cal, h, call, world); }
  }

  lemma UnfitPass(limits: Limits, cal: Calendar, h: History, call: Call, world: World)
    requires limits.Valid() && h.Valid()
    requires !FitsField(call.stage) || !FitsField(call.provider) || (call.promptVersion.Some? && !FitsField(call.promptVersion.value))
    ensures OnePass(limits, cal, h, call, world, 0, 0).Ended? && OnePass(limits, cal, h, call, world, 0, 0).records == []
  {
    hide Decide, AfterReserve, AfterSettle, ActualCost, EstimatedCost;
  }

  /** A model name longer than its column: the attempt is made and paid for, and its record is lost. */
  lemma LongModelLosesRecord(limits: Limits, cal: Calendar, h: History, call: Call, world: World)
    requires limits.Valid() && h.Valid() && FreshIds(h, world) && AmountsValid(call)
    requires call.refusal.None? && FitsField(call.provider)
    requires var a := world.first;
             Decide(limits, cal, Pruned(h.Live(), cal.monthStart(a.at)), a.at, EstimatedCost(call).value, a.id).Granted?
             && if a.answer.Answered? then |OwnModel(call, a.answer.response)| > 50 else |call.model| > 50
    ensures var e := CallEffect(limits, cal, h, call, world);
            var a := world.first;
            var cost := if a.answer.Answered? then ActualCost(call, a.answer.response, EstimatedCost(call).value)
                        else EstimatedCost(call).value;
            e.records == [] && e.outcome == Raised(FieldTooLong) && e.attempts == 1
            && HeldCost(e.history.grants) == HeldCost(h.grants) + cost
  {
    hide Decide, AfterReserve, AfterSettle, ActualCost, EstimatedCost, HeldCost, PruneCount;
    CostsNonNegative(call);
    FirstUnused(h, world);
    var a, estimate := world.first, EstimatedCost(call).value;
    var cost := if a.answer.Answered? then ActualCost(call, a.answer.response, estimate) else estimate;
    var settle := if a.answer.Answered? then Settle(a.id, Some(cost), estimate) else Settle(a.id, None, estimate);
    SettledBalanced(limits, cal, h, a.at, estimate, a.id, settle, cost, Record(call, "", "", Some(cost), NotChecked, 0, false));
    OneRecord(Record(call, "", "", Some(cost), NotChecked, 0, false));
  }

  // ---------- whole runs ----------

  /** Everything a run of calls did, one caller at a time. */
  datatype Totals = Totals(history: History, ops: seq<Operation>, records: seq<CallRecord>, attempts: nat)

  function RunCalls(limits: Limits, cal: Calendar, calls: seq<(Call, World)>): (t: Totals)
    requires limits.Valid()
    ensures t.history.Valid()
    decreases |calls|
  {
    if calls == [] then Totals(History([], 0), [], [], 0) else
    var before := RunCalls(limits, cal, calls[..|calls| - 1]);
    var (call, world) := calls[|calls| - 1];
    EffectValid(limits, cal, before.history, call, world);
    var e := CallEffect(limits, cal, before.history, call, world);
    Totals(e.history, before.ops + e.ops, before.records + e.records, before.attempts + e.attempts)
  }

  lemma EffectValid(limits: Limits, cal: Calendar, h: History, call: Call, world: World)
    requires limits.Valid() && h.Valid()
    ensures CallEffect(limits, cal, h, call, world).history.Valid()
  {
    hide OnePass;
  }

  ghost predicate RunIsPlain(limits: Limits, cal: Calendar, calls: seq<(Call, World)>)
    requires limits.Valid()
  {
    forall n :: 0 <= n < |calls| ==>
      && FreshIds(RunCalls(limits, cal, calls[..n]).history, calls[n].1)
      && AmountsValid(calls[n].0) && NamesFit(calls[n].0, calls[n].1) && WriterWorks(calls[n].1)
  }

  /** Over any run the recorded costs add up to everything ever held, and every reservation is settled once. */
  lemma {:induction false} RunConservesSpend(limits: Limits, cal: Calendar, calls: seq<(Call, World)>)
    requires limits.Valid() && RunIsPlain(limits, cal, calls)
    ensures var t := RunCalls(limits, cal, calls);
            RecordedCost(t.records) == HeldCost(t.history.grants)
            && |t.history.grants| == t.attempts <= 2 * |calls|
            && (forall i :: 0 <= i < |t.history.grants| ==> t.history.grants[i].settled)
            && t.history == Run(limits, cal, t.ops)
            && AllSettleOnce(limits, cal, t.ops)
    decreases |calls|
  {
    RunIsSound(limits, cal, calls);
    var t := RunCalls(limits, cal, calls);
    RunIsReplay(limits, cal, t.ops);
    forall n | 0 <= n < |t.ops| ensures SettlesOnce(Run(limits, cal, t.ops[..n]), t.ops[n]) {
      RunIsReplay(limits, cal, t.ops[..n]);
    }
  }

  lemma {:induction false} RunIsSound(limits: Limits, cal: Calendar, calls: seq<(Call, World)>)
    requires limits.Valid() && RunIsPlain(limits, cal, calls)
    ensures var t := RunCalls(limits, cal, calls);
            Sound(limits, cal, History([], 0), t.history, t.ops, t.records, t.attempts) && t.attempts <= 2 * |calls|
    decreases |calls|
  {
    hide CallEffect, Sound;
    if calls == [] {
      EmptySound(limits, cal);
    } else {
      var n := |calls| - 1;
      PlainPrefix(limits, cal, calls);
      RunIsSound(limits, cal, calls[..n]);
      var before := RunCalls(limits, cal, calls[..n]);
      var (call, world) := calls[n];
      CallIsSound(limits, cal, before.history, call, world);
      var e := CallEffect(limits, cal, before.history, call, world);
      SoundCompose(limits, cal, History([], 0), before.history, e.history, before.ops, e.ops, before.records, e.records,
                   before.attempts, e.attempts);
    }
  }

  lemma EmptySound(limits: Limits, cal: Calendar)
    requires limits.Valid()
    ensures Sound(limits, cal, History([], 0), History([], 0), [], [], 0)
  {}

  lemma PlainPrefix(limits: Limits, cal: Calendar, calls: seq<(Call, World)>)
    requires limits.Valid() && RunIsPlain(limits, cal, calls) && calls != []
    ensures RunIsPlain(limits, cal, calls[..|calls| - 1])
  {
    hide RunCalls, NamesFit;
    var init := calls[..|calls| - 1];
    forall n | 0 <= n < |init|
      ensures FreshIds(RunCalls(limits, cal, init[..n]).history, init[n].1) && AmountsValid(init[n].0)
              && NamesFit(init[n].0, init[n].1) && WriterWorks(init[n].1)
    {
      assert init[..n] == calls[..n] && init[n] == calls[n];
    }
  }

  /** So, with a clock that never goes back, a run of calls keeps every ceiling of the ledger. */
  lemma RunKeepsCeilings(limits: Limits, cal: Calendar, calls: seq<(Call, World)>, t0: int, m: int, a: int)
    requires limits.Valid() && cal.Lawful() && RunIsPlain(limits, cal, calls)
    requires ClockForward(RunCalls(limits, cal, calls).ops, t0)
    ensures var g := RunCalls(limits, cal, calls).history.grants;
            Count(cal, g, m, a, a + HOUR) <= limits.callsPerHour
            && Count(cal, g, m, a, a + DAY) <= limits.callsPerDay
            && (limits.monthlyBudget.Some? ==> Spend(cal, g, m) <= limits.monthlyBudget.value + Overruns(cal, g, m))
  {
    hide RunIsPlain, RunCalls, Run, AllSettleOnce, ClockForward;
    RunConservesSpend(limits, cal, calls);
    var ops := RunCalls(limits, cal, calls).ops;
    RollingWindowBound(limits, cal, ops, t0, m, a);
    if limits.monthlyBudget.Some? {
      SpendWithinBudget(limits, cal, ops, t0, m);
      RaisesAreOverruns(limits, cal, ops, m);
    }
  }
}
