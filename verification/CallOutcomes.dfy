/** When a guarded call retries, when it turns to its cassette, and how it ends (ai/client.py). */
module CallOutcomes {
  import opened BudgetLedger
  import opened ModelClient
  import opened CallConservation
  import opened SpendAccounting

  /** The errors of a record that could not be written. */
  predicate WriteFailed(outcome: Outcome) { outcome == Raised(FieldTooLong) || outcome == Raised(RecordNotSaved) }

  /** How a call ends when its last attempt was answered so, recorded, and not followed by anything. */
  predicate EndsWith(answer: Answer, outcome: Outcome)
  {
    match answer
    case Answered(_) => outcome.Returned?
    case Unavailable(reason) => outcome == Raised(Unreachable(reason))
    case AuthRejected => outcome == Raised(AuthError)
    case ProviderRejected => outcome == Raised(RejectedError)
    case Failed(_) => outcome == Raised(CrashError)
  }

  /** The provider was not reached, and not because a cassette had no such recording. */
  predicate Transient(answer: Answer)
  {
    match answer case Unavailable(reason) => reason != CassetteMiss case _ => false
  }

  /** A reservation that is refused ends the call at that ceiling. */
  predicate EndsAtCeiling(limits: Limits, cal: Calendar, h: History, call: Call, a: Attempt, outcome: Outcome)
    requires limits.Valid() && h.Valid() && EstimatedCost(call).Ok?
  {
    var decision := Decide(limits, cal, Pruned(h.Live(), cal.monthStart(a.at)), a.at, EstimatedCost(call).value, a.id);
    WriteFailed(outcome) || (decision.Refused? && outcome == Raised(CeilingHit(decision.ceiling.dimension)))
  }

  lemma PassEnds(limits: Limits, cal: Calendar, h: History, call: Call, world: World, retries: nat)
    requires limits.Valid() && h.Valid() && retries <= 1 && AmountsValid(call)
    requires Validated(call) && call.refusal.None? && FitsField(call.provider)
    ensures EstimatedCost(call).Ok?
    ensures var a, p := world.Attempt(retries), OnePass(limits, cal, h, call, world, retries, retries);
            match p
            case Ended(_, _, _, attempts, outcome) =>
              if !Grants(limits, cal, h, call, a) then attempts == 0 && EndsAtCeiling(limits, cal, h, call, a, outcome)
              else
                attempts == 1
                && if Unrecordable(call, world, retries) then WriteFailed(outcome)
                   else EndsWith(a.answer, outcome) && !a.answer.Unavailable?
            case Retry(h', _, _) =>
              Grants(limits, cal, h, call, a) && !Unrecordable(call, world, retries) && Transient(a.answer) && retries == 0
              && h' == AfterFirst(limits, cal, h, call, a)
            case FallBack(_, _, _, reason) =>
              Grants(limits, cal, h, call, a) && !Unrecordable(call, world, retries) && a.answer == Unavailable(reason)
              && (retries == 0 ==> reason == CassetteMiss)
  {
    hide Decide, AfterSettle, AfterReserve, ActualCost, EstimatedCost, Pruned, PruneCount, FitsField;
    CostsNonNegative(call);
    var estimate, a := EstimatedCost(call).value, world.Attempt(retries);
    OnlyNegativeIsInvalid(limits, cal, h, a.at, estimate, a.id);
  }

  /** The cassette is there, and its name fits. */
  predicate HasCassette(call: Call) { call.cassette.Some? && FitsField(call.cassette.value) }

  /** How the call ends when the provider stayed unreachable: the cassette's answer, or the provider's reason. */
  predicate EndsUnreachable(call: Call, world: World, reason: Reason, outcome: Outcome)
  {
    if call.cassette.None? then outcome == Raised(Unreachable(reason))
    else if !HasCassette(call) then outcome == Raised(FieldTooLong)
    else WriteFailed(outcome) || (if world.cassette.Answered? then outcome.Returned? else outcome == Raised(Unreachable(reason)))
  }

  lemma CassetteEnds(h: History, call: Call, world: World, retries: nat, written: nat, reason: Reason)
    ensures var e := CassetteEffect(h, call, world, retries, written, reason);
            e.attempts == 0 && e.cassetteTries == (if HasCassette(call) then 1 else 0)
            && EndsUnreachable(call, world, reason, e.outcome)
  {
    hide FitsField, RecordFits;
  }

  /** The first attempt is made, recorded, unreachable in a way that is retried, and the second one is granted. */
  predicate Retries(limits: Limits, cal: Calendar, h: History, call: Call, world: World)
    requires limits.Valid() && h.Valid() && EstimatedCost(call).Ok?
  {
    && Transient(world.first.answer) && !Unrecordable(call, world, 0)
    && Grants(limits, cal, AfterFirst(limits, cal, h, call, world.first), call, world.second)
  }

  /**
   * A validated call makes no attempt when its reservation is refused, two when the first one was recorded, failed to
   * reach its provider for a reason other than a missing recording and the second one is granted, and otherwise one.
   * It ends with what its last attempt came to; unreachable to the last, it turns to the cassette.
   */
  lemma CallEnds(limits: Limits, cal: Calendar, h: History, call: Call, world: World)
    requires limits.Valid() && h.Valid() && AmountsValid(call)
    requires Validated(call) && call.refusal.None? && FitsField(call.provider)
    ensures EstimatedCost(call).Ok?
    ensures var e := CallEffect(limits, cal, h, call, world);
            var granted, again := Grants(limits, cal, h, call, world.first), Retries(limits, cal, h, call, world);
            && e.attempts == (if !granted then 0 else if again then 2 else 1)
            && (!granted ==> EndsAtCeiling(limits, cal, h, call, world.first, e.outcome) && e.cassetteTries == 0)
            && (granted && !again ==> FirstEnds(limits, cal, h, call, world, e))
            && (granted && again ==> LastEnds(call, world, 1, e))
  {
    hide OnePass, CassetteEffect, Grants, Unrecordable, AfterFirst, EstimatedCost, EndsAtCeiling, EndsWith, EndsUnreachable, Transient,
         WriteFailed, AmountsValid, FitsField, Write, Record, Validated, HasCassette;
    PassEnds(limits, cal, h, call, world, 0);
    TransientIsUnavailable(world.first.answer);
    var p := OnePass(limits, cal, h, call, world, 0, 0);
    if p.FallBack? {
      CassetteEnds(p.history, call, world, 0, 1, p.reason);
    } else if p.Retry? {
      PassEnds(limits, cal, p.history, call, world, 1);
      var q := OnePass(limits, cal, p.history, call, world, 1, 1);
      if q.FallBack? { CassetteEnds(q.history, call, world, 1, 2, q.reason); }
    }
  }

  lemma TransientIsUnavailable(answer: Answer)
    ensures Transient(answer) ==> answer.Unavailable?
    ensures answer.Unavailable? && answer.reason != CassetteMiss ==> Transient(answer)
    ensures answer == Unavailable(CassetteMiss) ==> !Transient(answer)
  {}

  /** How a call ends whose last attempt is number `k`. */
  predicate LastEnds(call: Call, world: World, k: nat, e: Effect)
  {
    var answer := world.Attempt(k).answer;
    if Unrecordable(call, world, k) then WriteFailed(e.outcome) && e.cassetteTries == 0
    else if answer.Unavailable? then
      EndsUnreachable(call, world, answer.reason, e.outcome) && e.cassetteTries == (if HasCassette(call) then 1 else 0)
    else EndsWith(answer, e.outcome) && e.cassetteTries == 0
  }

  /** The only attempt: a retry that the ledger refuses ends the call at its ceiling. */
  predicate FirstEnds(limits: Limits, cal: Calendar, h: History, call: Call, world: World, e: Effect)
    requires limits.Valid() && h.Valid() && EstimatedCost(call).Ok?
  {
    if Transient(world.first.answer) && !Unrecordable(call, world, 0)
    then EndsAtCeiling(limits, cal, AfterFirst(limits, cal, h, call, world.first), call, world.second, e.outcome) && e.cassetteTries == 0
    else LastEnds(call, world, 0, e)
  }

  /** A refused request makes no attempt, and its refusal is what is raised unless it cannot be recorded. */
  lemma RefusedEnds(limits: Limits, cal: Calendar, h: History, call: Call, world: World)
    requires limits.Valid() && h.Valid() && (call.refusal.Some? || !FitsField(call.provider))
    ensures var e := CallEffect(limits, cal, h, call, world);
            && e.attempts == 0 && e.cassetteTries == 0 && e.history == h
            && (WriteFailed(e.outcome) || (e.outcome == Raised(ValidationRefused) && |e.records| == 1))
  {}

  /** A negative estimate ends the call before anything is reserved. */
  lemma NegativeEstimateEnds(limits: Limits, cal: Calendar, h: History, call: Call, world: World)
    requires limits.Valid() && h.Valid() && call.refusal.None? && FitsField(call.provider)
    requires call.configuredEstimate.Some? && call.configuredEstimate.value < 0.0
    ensures CallEffect(limits, cal, h, call, world) == Effect(h, [], [], 0, 0, Raised(InvalidAmountError))
  {}
}
