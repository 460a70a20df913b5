/** A refusal's `retry_at` is exact, and month spend stays within the budget plus what settlements overran. */
module CeilingAnswers {
  import opened Prelude
  import opened BudgetLedger
  import opened BudgetBounds

  // ---------- windows that slide forward ----------

  lemma {:induction false} WindowSlides(entries: seq<Entry>, b: int, c: int)
    requires b <= c
    ensures |InWindow(entries, c)| <= |InWindow(entries, b)|
    ensures (forall e :: e in InWindow(entries, b) ==> e.occurredAt > c) ==> InWindow(entries, c) == InWindow(entries, b)
    ensures (exists e :: e in InWindow(entries, b) && e.occurredAt <= c) ==> |InWindow(entries, c)| < |InWindow(entries, b)|
  {
    if entries != [] {
      WindowSlides(entries[1..], b, c);
      var w, v := InWindow(entries, b), InWindow(entries[1..], b);
      assert entries[0].occurredAt > b ==> w == [entries[0]] + v;
      assert forall e :: e in w <==> e in v || (entries[0].occurredAt > b && e == entries[0]);
    }
  }

  /** Until its earliest member leaves a full window stays full, and from then on it is not. */
  lemma FullUntilEarliestLeaves(entries: seq<Entry>, at: int, u: int, window: int)
    requires at <= u && InWindow(entries, at - window) != []
    ensures var w := InWindow(entries, at - window);
            if u < Earliest(w) + window then InWindow(entries, u - window) == w
            else |InWindow(entries, u - window)| < |w|
  {
    WindowSlides(entries, at - window, u - window);
  }

  lemma {:induction false} OlderPruned(entries: seq<Entry>, start: int)
    requires forall i :: 0 <= i < |entries| ==> entries[i].occurredAt < start
    ensures Pruned(entries, start) == []
  {
    if entries != [] {
      OlderPruned(entries[1..], start);
    }
  }

  /** What is left after pruning at `at` lies in the month of `at`, not after it. */
  lemma PrunedInMonth(limits: Limits, cal: Calendar, h: History, now: int, at: int)
    requires cal.Lawful() && Inv(limits, cal, h, now) && now <= at
    ensures var live := Pruned(h.Live(), cal.monthStart(at));
            forall i :: 0 <= i < |live| ==> cal.monthStart(at) <= live[i].occurredAt <= at
  {
    hide RateLimited;
    PrunedLive(h, cal.monthStart(at));
    var n := h.dropped + PruneCount(h.Live(), cal.monthStart(at));
    var live := Pruned(h.Live(), cal.monthStart(at));
    assert live == Entries(h.grants[n..]);
    if n < |h.grants| {
      assert h.Live()[n - h.dropped].occurredAt == h.grants[n].at;
      forall i | 0 <= i < |live| ensures cal.monthStart(at) <= live[i].occurredAt <= at {
        assert live[i].occurredAt == h.grants[n + i].at;
      }
    }
  }

  /** Retrying later in the same month sees the same entries; in a later month none. */
  lemma PrunedAgain(cal: Calendar, live: seq<Entry>, at: int, u: int)
    requires cal.Lawful() && at <= u
    requires forall i :: 0 <= i < |live| ==> cal.monthStart(at) <= live[i].occurredAt <= at
    ensures Pruned(live, cal.monthStart(u)) == if cal.SameMonth(at, u) then live else []
  {
    cal.MonthsAreOrdered(at, u);
    if !cal.SameMonth(at, u) { OlderPruned(live, cal.monthStart(u)); }
  }

  lemma {:induction false} ObservedCounts(cal: Calendar, grants: seq<Grant>, m: int, lo: int, hi: int)
    requires forall i :: 0 <= i < |grants| ==> grants[i].at <= hi && cal.SameMonth(grants[i].at, m)
    ensures Count(cal, grants, m, lo, hi) == |InWindow(Entries(grants), lo)|
  {
    if grants != [] {
      var init, last := grants[..|grants| - 1], [grants[|grants| - 1]];
      ObservedCounts(cal, init, m, lo, hi);
      assert Entries(grants) == Entries(init) + Entries(last);
      InWindowAppend(Entries(init), Entries(last), lo);
      assert Entries(last)[1..] == [];
    }
  }

  lemma TailCount(cal: Calendar, grants: seq<Grant>, n: nat, m: int, lo: int, hi: int)
    requires n <= |grants|
    ensures Count(cal, grants[n..], m, lo, hi) <= Count(cal, grants, m, lo, hi)
  {
    hide Count;
    CountAppend(cal, grants[..n], grants[n..], m, lo, hi);
    assert grants == grants[..n] + grants[n..];
  }

  /** The observed number of calls never exceeds the limit itself. */
  lemma ObservedAtMostLimit(limits: Limits, cal: Calendar, h: History, now: int, at: int, window: int, limit: int)
    requires cal.Lawful() && Inv(limits, cal, h, now) && now <= at && window > 0 && limit > 0
    requires RateLimited(cal, h.grants, window, limit)
    ensures |InWindow(Pruned(h.Live(), cal.monthStart(at)), at - window)| <= limit
  {
    hide RateLimited, Count, InWindow, PruneCount, Calendar.Lawful, Calendar.SameMonth;
    PrunedLive(h, cal.monthStart(at));
    PrunedInMonth(limits, cal, h, now, at);
    var n := h.dropped + PruneCount(h.Live(), cal.monthStart(at));
    var tail := h.grants[n..];
    assert Pruned(h.Live(), cal.monthStart(at)) == Entries(tail);
    forall i | 0 <= i < |tail| ensures tail[i].at <= at && cal.SameMonth(tail[i].at, at) {
      assert Entries(tail)[i].occurredAt == tail[i].at;
      cal.MonthsAreOrdered(tail[i].at, at);
    }
    ObservedCounts(cal, tail, at, at - window, at);
    WindowBound(cal, h.grants, at, at - window, window, limit);
    TailCount(cal, h.grants, n, at, at - window, at);
  }

  /** The decision at `u` when nothing was granted or settled since `h`. */
  function Later(limits: Limits, cal: Calendar, h: History, u: int, cost: real, id: nat): ReserveOutcome
    requires limits.Valid() && h.Valid()
  {
    Decide(limits, cal, Pruned(h.Live(), cal.monthStart(u)), u, cost, id)
  }

  /** Pruning in between changes nothing: only the last prune matters. */
  lemma PruneTwice(entries: seq<Entry>, s: int, t: int)
    requires s <= t
    ensures Pruned(Pruned(entries, s), t) == Pruned(entries, t)
  {
    var n, m := PruneCount(entries, s), PruneCount(Pruned(entries, s), t);
    PruneSplits(entries, s, t);
    assert entries[n..][m..] == entries[n + m..];
  }

  lemma {:induction false} PruneSplits(entries: seq<Entry>, s: int, t: int)
    requires s <= t
    ensures PruneCount(entries, t) == PruneCount(entries, s) + PruneCount(Pruned(entries, s), t)
  {
    if entries != [] && entries[0].occurredAt < s {
      PruneSplits(entries[1..], s, t);
      assert Pruned(entries, s) == Pruned(entries[1..], s);
    } else {
      assert Pruned(entries, s) == entries;
    }
  }

  lemma LaterSees(limits: Limits, cal: Calendar, h: History, now: int, at: int, u: int)
    requires cal.Lawful() && Inv(limits, cal, h, now) && now <= at <= u
    ensures Pruned(h.Live(), cal.monthStart(u))
         == if cal.SameMonth(at, u) then Pruned(h.Live(), cal.monthStart(at)) else []
  {
    hide RateLimited;
    PrunedInMonth(limits, cal, h, now, at);
    cal.MonthsAreOrdered(at, u);
    PruneTwice(h.Live(), cal.monthStart(at), cal.monthStart(u));
    PrunedAgain(cal, Pruned(h.Live(), cal.monthStart(at)), at, u);
  }

  // ---------- what a later decision sees when nothing was granted in between ----------

  /** The entries were made at the same instants; their costs may differ. */
  predicate SameTimes(a: seq<Entry>, b: seq<Entry>)
  {
    |a| == |b| && forall i :: 0 <= i < |a| ==> a[i].occurredAt == b[i].occurredAt
  }

  lemma {:induction false} SameTimesWindow(a: seq<Entry>, b: seq<Entry>, boundary: int)
    requires SameTimes(a, b)
    ensures |InWindow(a, boundary)| == |InWindow(b, boundary)|
  {
    if a != [] { SameTimesWindow(a[1..], b[1..], boundary); }
  }

  lemma {:induction false} SameTimesPruned(a: seq<Entry>, b: seq<Entry>, start: int)
    requires SameTimes(a, b)
    ensures SameTimes(Pruned(a, start), Pruned(b, start))
  {
    if a != [] && a[0].occurredAt < start {
      SameTimesPruned(a[1..], b[1..], start);
      assert Pruned(a, start) == Pruned(a[1..], start) && Pruned(b, start) == Pruned(b[1..], start);
    } else {
      assert Pruned(a, start) == a && Pruned(b, start) == b;
    }
  }

  predicate RefusedAs(outcome: ReserveOutcome, dimension: Dimension) { outcome.Refused? && outcome.ceiling.dimension == dimension }

  /** The rate ceilings look at instants only. */
  lemma RateReadsTimes(limits: Limits, cal: Calendar, a: seq<Entry>, b: seq<Entry>, u: int, cost: real, id: nat, dimension: Dimension)
    requires limits.Valid() && SameTimes(a, b) && dimension != Budget
    ensures RefusedAs(Decide(limits, cal, a, u, cost, id), dimension) <==> RefusedAs(Decide(limits, cal, b, u, cost, id), dimension)
  {
    hide InWindow, MonthSpend;
    SameTimesWindow(a, b, u - HOUR);
    SameTimesWindow(a, b, u - DAY);
  }

  /** Operations read before `u` that add no grant: refusals, usage queries and settlements. */
  predicate NothingGranted(limits: Limits, cal: Calendar, h: History, ops: seq<Operation>, u: int)
    requires limits.Valid() && h.Valid()
  {
    |Replay(limits, cal, h, ops).grants| == |h.grants| && forall i :: 0 <= i < |ops| ==> Instant(ops[i], u) <= u
  }

  lemma StepAddsAtMostOne(limits: Limits, cal: Calendar, h: History, op: Operation)
    requires limits.Valid() && h.Valid()
    ensures |h.grants| <= |Step(limits, cal, h, op).grants|
  {
    hide Decide, PruneCount;
  }

  lemma {:induction false} ReplayAdds(limits: Limits, cal: Calendar, h: History, ops: seq<Operation>)
    requires limits.Valid() && h.Valid()
    ensures |h.grants| <= |Replay(limits, cal, h, ops).grants|
  {
    hide Step;
    if ops != [] {
      ReplayAdds(limits, cal, h, ops[..|ops| - 1]);
      StepAddsAtMostOne(limits, cal, Replay(limits, cal, h, ops[..|ops| - 1]), ops[|ops| - 1]);
    }
  }

  lemma DropPrunes(h: History, start: int)
    requires h.Valid()
    ensures var dropped := h.dropped + PruneCount(h.Live(), start);
            dropped <= |h.grants| && History(h.grants, dropped).Live() == Pruned(h.Live(), start)
  {
    PrunedLive(h, start);
  }

  lemma SettleKeepsTimes(h: History, id: nat, cost: real)
    requires h.Valid()
    ensures SameTimes(AfterSettle(h, id, cost).Live(), h.Live())
  {}

  lemma StepSees(limits: Limits, cal: Calendar, h: History, op: Operation, u: int)
    requires limits.Valid() && cal.Lawful() && h.Valid() && Instant(op, u) <= u
    requires |Step(limits, cal, h, op).grants| == |h.grants|
    ensures var after := Pruned(Step(limits, cal, h, op).Live(), cal.monthStart(u));
            SameTimes(after, Pruned(h.Live(), cal.monthStart(u)))
            && (!op.Settle? ==> after == Pruned(h.Live(), cal.monthStart(u)))
  {
    hide Decide, PruneCount, Pruned, History.Live, AfterSettle;
    match op
    case Settle(id, actual, estimate) =>
      SettleKeepsTimes(h, id, SettledCost(estimate, actual));
      SameTimesPruned(Step(limits, cal, h, op).Live(), h.Live(), cal.monthStart(u));
    case Reserve(at, _, _) =>
      cal.MonthsAreOrdered(at, u);
      DropPrunes(h, cal.monthStart(at));
      PruneTwice(h.Live(), cal.monthStart(at), cal.monthStart(u));
    case Usage(at) =>
      cal.MonthsAreOrdered(at, u);
      DropPrunes(h, cal.monthStart(at));
      PruneTwice(h.Live(), cal.monthStart(at), cal.monthStart(u));
  }

  /** Whatever was refused, queried or settled in between, a decision at `u` sees the instants it would have seen before. */
  lemma {:induction false} NothingGrantedSees(limits: Limits, cal: Calendar, h: History, ops: seq<Operation>, u: int)
    requires limits.Valid() && cal.Lawful() && h.Valid() && NothingGranted(limits, cal, h, ops, u)
    ensures var after := Pruned(Replay(limits, cal, h, ops).Live(), cal.monthStart(u));
            SameTimes(after, Pruned(h.Live(), cal.monthStart(u)))
            && ((forall i :: 0 <= i < |ops| ==> !ops[i].Settle?) ==> after == Pruned(h.Live(), cal.monthStart(u)))
  {
    hide Step, Pruned, Calendar.Lawful;
    if ops != [] {
      var init, op := ops[..|ops| - 1], ops[|ops| - 1];
      ReplayAdds(limits, cal, h, init);
      StepAddsAtMostOne(limits, cal, Replay(limits, cal, h, init), op);
      NothingGrantedSees(limits, cal, h, init, u);
      StepSees(limits, cal, Replay(limits, cal, h, init), op, u);
    }
  }

  /**
   * After an hourly or daily refusal at `at`, and any refusals, usage queries and settlements since, an attempt at `u`
   * meets the same ceiling exactly when it comes before `retryAt` and in the same month.
   */
  lemma RateRefusalExact(limits: Limits, cal: Calendar, h: History, now: int, at: int, ops: seq<Operation>, u: int, cost: real, id: nat)
    requires limits.Valid() && cal.Lawful() && Inv(limits, cal, h, now) && now <= at <= u
    requires Later(limits, cal, h, at, cost, id).Refused? && NothingGranted(limits, cal, h, ops, u)
    ensures var c := Later(limits, cal, h, at, cost, id).ceiling;
            c.dimension != Budget ==> forall cost', id' ::
              (RefusedAs(Later(limits, cal, Replay(limits, cal, h, ops), u, cost', id'), c.dimension)
               <==> u < c.retryAt && cal.SameMonth(at, u))
  {
    hide Inv, InWindow, Pruned, Replay, NothingGranted, Calendar.Lawful, Calendar.SameMonth, Decide, SameTimes;
    var c := Later(limits, cal, h, at, cost, id).ceiling;
    if c.dimension != Budget {
      InvValid(limits, cal, h, now);
      NothingGrantedSees(limits, cal, h, ops, u);
      forall cost', id'
        ensures RefusedAs(Later(limits, cal, Replay(limits, cal, h, ops), u, cost', id'), c.dimension)
                <==> u < c.retryAt && cal.SameMonth(at, u)
      {
        RetriedExact(limits, cal, h, now, at, u, cost, id, cost', id');
        RateReadsTimes(limits, cal, Pruned(Replay(limits, cal, h, ops).Live(), cal.monthStart(u)),
                       Pruned(h.Live(), cal.monthStart(u)), u, cost', id', c.dimension);
      }
    }
  }

  lemma InvValid(limits: Limits, cal: Calendar, h: History, now: int)
    requires Inv(limits, cal, h, now)
    ensures h.Valid()
  {}

  lemma RetriedExact(limits: Limits, cal: Calendar, h: History, now: int, at: int, u: int, cost: real, id: nat, cost': real, id': nat)
    requires limits.Valid() && cal.Lawful() && Inv(limits, cal, h, now) && now <= at <= u
    requires Later(limits, cal, h, at, cost, id).Refused?
    ensures var c := Later(limits, cal, h, at, cost, id).ceiling;
            c.dimension != Budget ==>
              (RefusedAs(Later(limits, cal, h, u, cost', id'), c.dimension) <==> u < c.retryAt && cal.SameMonth(at, u))
  {
    hide RateLimited, MonthSpend, InWindow, PruneCount, Calendar.Lawful, Calendar.SameMonth;
    var c := Later(limits, cal, h, at, cost, id).ceiling;
    var live := Pruned(h.Live(), cal.monthStart(at));
    LaterSees(limits, cal, h, now, at, u);
    ObservedAtMostLimit(limits, cal, h, now, at, HOUR, limits.callsPerHour);
    ObservedAtMostLimit(limits, cal, h, now, at, DAY, limits.callsPerDay);
    EmptyWindows(u);
    if c.dimension == Hourly {
      FullUntilEarliestLeaves(live, at, u, HOUR);
    } else if c.dimension == Daily {
      FullUntilEarliestLeaves(live, at, u, DAY);
      WindowSlides(live, at - HOUR, u - HOUR);
    }
  }

  /** A refusal reports the ceiling it met: a rate exactly at its limit, a spend over the budget, and a later retry time. */
  lemma RefusalReports(limits: Limits, cal: Calendar, h: History, now: int, at: int, cost: real, id: nat)
    requires limits.Valid() && cal.Lawful() && Inv(limits, cal, h, now) && now <= at
    requires Later(limits, cal, h, at, cost, id).Refused?
    ensures var c := Later(limits, cal, h, at, cost, id).ceiling;
            c.retryAt > at
            && match c.dimension
               case Hourly => c.limit == limits.callsPerHour as real && c.observed == c.limit
               case Daily => c.limit == limits.callsPerDay as real && c.observed == c.limit
               case Budget => limits.monthlyBudget == Some(c.limit) && c.observed > c.limit
  {
    hide RateLimited, MonthSpend, PruneCount, InWindow, Calendar.SameMonth, Pruned;
    var live := Pruned(h.Live(), cal.monthStart(at));
    ObservedAtMostLimit(limits, cal, h, now, at, HOUR, limits.callsPerHour);
    ObservedAtMostLimit(limits, cal, h, now, at, DAY, limits.callsPerDay);
    WindowAfter(live, at - HOUR);
    WindowAfter(live, at - DAY);
  }

  lemma {:induction false} WindowAfter(entries: seq<Entry>, boundary: int)
    ensures forall e :: e in InWindow(entries, boundary) ==> e.occurredAt > boundary
  {
    if entries != [] { WindowAfter(entries[1..], boundary); }
  }

  lemma EmptyWindows(u: int)
    ensures InWindow([], u - HOUR) == [] && InWindow([], u - DAY) == []
  {}

  predicate OverBudget(outcome: ReserveOutcome) { outcome.Refused? && outcome.ceiling.dimension == Budget }

  /** With the same entries in the same month, a budget refusal is repeated. */
  lemma BudgetStays(limits: Limits, cal: Calendar, live: seq<Entry>, at: int, u: int, cost: real, id: nat)
    requires limits.Valid() && at <= u && cal.SameMonth(at, u) && OverBudget(Decide(limits, cal, live, at, cost, id))
    ensures OverBudget(Decide(limits, cal, live, u, cost, id))
  {
    hide InWindow, Earliest, Calendar.SameMonth, MonthSpend;
    WindowSlides(live, at - HOUR, u - HOUR);
    WindowSlides(live, at - DAY, u - DAY);
    SpendSameMonth(cal, live, at, u);
  }

  /** An empty ledger only refuses an amount that exceeds the budget on its own. */
  lemma EmptyLedger(limits: Limits, cal: Calendar, u: int, cost: real, id: nat)
    requires limits.Valid()
    ensures OverBudget(Decide(limits, cal, [], u, cost, id))
        <==> limits.monthlyBudget.Some? && cost > limits.monthlyBudget.value
    ensures MonthSpend(cal, [], u) == 0.0
  {
    EmptyWindows(u);
  }

  /**
   * A budget refusal stands, after any further refusals and usage queries, for the rest of the month; from `retryAt`
   * on nothing of the month is counted.
   */
  lemma BudgetRefusalExact(limits: Limits, cal: Calendar, h: History, now: int, at: int, ops: seq<Operation>, u: int, cost: real, id: nat)
    requires limits.Valid() && cal.Lawful() && Inv(limits, cal, h, now) && now <= at <= u
    requires OverBudget(Later(limits, cal, h, at, cost, id)) && NothingGranted(limits, cal, h, ops, u)
    requires forall i :: 0 <= i < |ops| ==> !ops[i].Settle?
    ensures var c, h' := Later(limits, cal, h, at, cost, id).ceiling, Replay(limits, cal, h, ops);
            limits.monthlyBudget.Some?
            && (OverBudget(Later(limits, cal, h', u, cost, id)) <==> u < c.retryAt || cost > limits.monthlyBudget.value)
            && (c.retryAt <= u ==> MonthSpend(cal, Pruned(h'.Live(), cal.monthStart(u)), u) == 0.0)
  {
    hide RateLimited, InWindow, Pruned, Calendar.Lawful, Calendar.SameMonth, MonthSpend, Replay, NothingGranted;
    var live := Pruned(h.Live(), cal.monthStart(at));
    NothingGrantedSees(limits, cal, h, ops, u);
    LaterSees(limits, cal, h, now, at, u);
    cal.MonthsAreOrdered(at, u);
    RefusedUntil(limits, cal, live, at, cost, id);
    if cal.SameMonth(at, u) {
      BudgetStays(limits, cal, live, at, u, cost, id);
    } else {
      hide Decide;
      EmptyLedger(limits, cal, u, cost, id);
    }
  }

  lemma RefusedUntil(limits: Limits, cal: Calendar, live: seq<Entry>, at: int, cost: real, id: nat)
    requires limits.Valid() && OverBudget(Decide(limits, cal, live, at, cost, id))
    ensures limits.monthlyBudget.Some? && Decide(limits, cal, live, at, cost, id).ceiling.retryAt == cal.nextMonth(at)
  {
    hide InWindow, MonthSpend;
  }

  lemma {:induction false} SpendSameMonth(cal: Calendar, entries: seq<Entry>, t: int, u: int)
    requires cal.SameMonth(t, u)
    ensures MonthSpend(cal, entries, t) == MonthSpend(cal, entries, u)
  {
    if entries != [] { SpendSameMonth(cal, entries[1..], t, u); }
  }

  // ---------- month spend ----------

  function Spend(cal: Calendar, grants: seq<Grant>, m: int): real
  {
    if grants == [] then 0.0 else
    Spend(cal, grants[..|grants| - 1], m)
    + if cal.SameMonth(grants[|grants| - 1].at, m) then grants[|grants| - 1].cost else 0.0
  }

  function Overrun(g: Grant): (r: real)
    ensures r >= 0.0 && g.cost <= g.estimate + r
  {
    if g.cost > g.estimate then g.cost - g.estimate else 0.0
  }

  /** By how much the settlements of a month exceeded their estimates, in total. */
  function Overruns(cal: Calendar, grants: seq<Grant>, m: int): (r: real)
    ensures r >= 0.0
  {
    if grants == [] then 0.0 else
    Overruns(cal, grants[..|grants| - 1], m)
    + if cal.SameMonth(grants[|grants| - 1].at, m) then Overrun(grants[|grants| - 1]) else 0.0
  }

  /** Each reservation is settled at most once over the run. */
  predicate SettlesOnce(h: History, op: Operation)
    requires h.Valid()
  {
    op.Settle? ==>
      var i := h.dropped + IndexOf(h.Live(), op.settledId);
      i < |h.grants| ==> !h.grants[i].settled
  }

  predicate AllSettleOnce(limits: Limits, cal: Calendar, ops: seq<Operation>)
    requires limits.Valid()
  {
    forall n :: 0 <= n < |ops| ==> SettlesOnce(Run(limits, cal, ops[..n]), ops[n])
  }

  lemma {:induction false} SpendUpdate(cal: Calendar, grants: seq<Grant>, i: nat, g: Grant, m: int)
    requires i < |grants| && g.at == grants[i].at
    ensures var s := if cal.SameMonth(g.at, m) then 1.0 else 0.0;
            Spend(cal, grants[i := g], m) == Spend(cal, grants, m) + s * (g.cost - grants[i].cost)
            && Overruns(cal, grants[i := g], m) == Overruns(cal, grants, m) + s * (Overrun(g) - Overrun(grants[i]))
  {
    var n := |grants| - 1;
    var init := grants[..n];
    if i < n {
      SpendUpdate(cal, init, i, g, m);
      assert grants[i := g][..n] == init[i := g];
    } else {
      assert grants[i := g][..n] == init;
    }
  }

  lemma {:induction false} SpendObserved(cal: Calendar, gone: seq<Grant>, live: seq<Grant>, m: int)
    requires forall i :: 0 <= i < |gone| ==> !cal.SameMonth(gone[i].at, m)
    ensures Spend(cal, gone + live, m) == MonthSpend(cal, Entries(live), m)
  {
    if live != [] {
      var init, last := live[..|live| - 1], [live[|live| - 1]];
      assert (gone + live)[..|gone + live| - 1] == gone + init;
      SpendObserved(cal, gone, init, m);
      assert Entries(live) == Entries(init) + Entries(last);
      MonthSpendAppend(cal, Entries(init), Entries(last), m);
      assert Entries(last)[1..] == [];
    } else {
      assert gone + live == gone;
      if gone != [] {
        assert gone[..|gone| - 1] + [] == gone[..|gone| - 1];
        SpendNone(cal, gone, m);
      }
    }
  }

  lemma {:induction false} SpendNone(cal: Calendar, gone: seq<Grant>, m: int)
    requires forall i :: 0 <= i < |gone| ==> !cal.SameMonth(gone[i].at, m)
    ensures Spend(cal, gone, m) == 0.0
  {
    if gone != [] { SpendNone(cal, gone[..|gone| - 1], m); }
  }

  lemma {:induction false} MonthSpendAppend(cal: Calendar, a: seq<Entry>, b: seq<Entry>, m: int)
    ensures MonthSpend(cal, a + b, m) == MonthSpend(cal, a, m) + MonthSpend(cal, b, m)
  {
    if a == [] {
      assert a + b == b;
    } else {
      assert (a + b)[1..] == a[1..] + b;
      MonthSpendAppend(cal, a[1..], b, m);
    }
  }

  /** Grants forgotten by pruning lie in earlier months, so the ledger sees all of the month's spend. */
  lemma SpendSeen(limits: Limits, cal: Calendar, h: History, now: int, at: int)
    requires limits.Valid() && cal.Lawful() && Inv(limits, cal, h, now) && now <= at
    ensures MonthSpend(cal, Pruned(h.Live(), cal.monthStart(at)), at) == Spend(cal, h.grants, at)
  {
    hide RateLimited, Calendar.Lawful, Calendar.SameMonth, Spend, MonthSpend, PruneCount;
    PrunedLive(h, cal.monthStart(at));
    var n := h.dropped + PruneCount(h.Live(), cal.monthStart(at));
    var gone, live := h.grants[..n], h.grants[n..];
    forall i | 0 <= i < n ensures !cal.SameMonth(gone[i].at, at) {
      cal.MonthsAreOrdered(now, at);
      EarlierMonth(cal, gone[i].at, at);
    }
    SpendObserved(cal, gone, live, at);
    assert h.grants == gone + live;
  }

  /** By how much one settlement raises the cost held in month `m`. */
  function RaiseOf(cal: Calendar, h: History, op: Operation, m: int): (r: real)
    requires h.Valid()
    ensures r >= 0.0
  {
    if !op.Settle? then 0.0 else
    var i, cost := h.dropped + IndexOf(h.Live(), op.settledId), SettledCost(op.estimate, op.actual);
    if i < |h.grants| && cal.SameMonth(h.grants[i].at, m) && cost >= 0.0 && cost > h.grants[i].cost
    then cost - h.grants[i].cost else 0.0
  }

  /** All the raises of a run that fall into month `m`. */
  function Raises(limits: Limits, cal: Calendar, ops: seq<Operation>, m: int): (r: real)
    requires limits.Valid()
    ensures r >= 0.0
  {
    if ops == [] then 0.0 else
    var init := ops[..|ops| - 1];
    Raises(limits, cal, init, m) + RaiseOf(cal, Run(limits, cal, init), ops[|ops| - 1], m)
  }

  lemma ReserveKeepsBudget(limits: Limits, cal: Calendar, h: History, now: int, at: int, cost: real, id: nat, m: int)
    requires limits.Valid() && cal.Lawful() && Inv(limits, cal, h, now) && now <= at && limits.monthlyBudget.Some?
    ensures var g := AfterReserve(limits, cal, h, at, cost, id).grants;
            Spend(cal, g, m) <= limits.monthlyBudget.value || Spend(cal, g, m) == Spend(cal, h.grants, m)
  {
    hide RateLimited, InWindow, Earliest, Calendar.Lawful, Calendar.SameMonth, Spend, MonthSpend, Pruned, PruneCount;
    var h' := AfterReserve(limits, cal, h, at, cost, id);
    if h'.grants != h.grants {
      var g := Grant(id, at, cost, cost, false);
      assert h'.grants == h.grants + [g];
      SpendSeen(limits, cal, h, now, at);
      SpendLast(cal, h.grants, g, m);
    }
  }

  lemma SpendLast(cal: Calendar, grants: seq<Grant>, g: Grant, m: int)
    ensures Spend(cal, grants + [g], m)
         == if cal.SameMonth(g.at, m) then Spend(cal, grants, g.at) + g.cost else Spend(cal, grants, m)
  {
    assert (grants + [g])[..|grants|] == grants;
    if cal.SameMonth(g.at, m) { SpendOfSameMonth(cal, grants, g.at, m); }
  }

  lemma {:induction false} SpendOfSameMonth(cal: Calendar, grants: seq<Grant>, m: int, k: int)
    requires cal.SameMonth(m, k)
    ensures Spend(cal, grants, m) == Spend(cal, grants, k)
  {
    if grants != [] { SpendOfSameMonth(cal, grants[..|grants| - 1], m, k); }
  }

  lemma SettleRaises(limits: Limits, cal: Calendar, h: History, op: Operation, m: int)
    requires limits.Valid() && h.Valid() && op.Settle?
    ensures Spend(cal, Step(limits, cal, h, op).grants, m) <= Spend(cal, h.grants, m) + RaiseOf(cal, h, op, m)
  {
    hide Spend, Overruns;
    var i, cost := h.dropped + IndexOf(h.Live(), op.settledId), SettledCost(op.estimate, op.actual);
    if i < |h.grants| && cost >= 0.0 { SpendUpdate(cal, h.grants, i, h.grants[i].(cost := cost, settled := true), m); }
  }

  /** Over any run, no month spends more than the budget plus what its settlements raised. */
  lemma {:induction false} SpendWithinBudget(limits: Limits, cal: Calendar, ops: seq<Operation>, t0: int, m: int)
    requires limits.Valid() && cal.Lawful() && ClockForward(ops, t0) && limits.monthlyBudget.Some?
    ensures Spend(cal, Run(limits, cal, ops).grants, m) <= limits.monthlyBudget.value + Raises(limits, cal, ops, m)
  {
    hide RateLimited, Inv, AfterReserve, AfterUsage, AfterSettle, Calendar.Lawful, RaiseOf, Spend, ClockForward;
    if ops == [] {
      NothingSpent(cal, m);
    } else {
      var n := |ops| - 1;
      var init, op := ops[..n], ops[n];
      PrefixForward(ops, t0, n);
      SpendWithinBudget(limits, cal, init, t0, m);
      RunKeepsInv(limits, cal, init, t0);
      var h := Run(limits, cal, init);
      match op
      case Reserve(at, cost, id) => ReserveKeepsBudget(limits, cal, h, Now(init, t0), at, cost, id, m);
      case Usage(at) => UsageKeepsGrants(cal, h, at);
      case Settle(_, _, _) => SettleRaises(limits, cal, h, op, m);
    }
  }

  lemma NothingSpent(cal: Calendar, m: int)
    ensures Spend(cal, [], m) == 0.0
  {}

  predicate UnsettledAtEstimate(grants: seq<Grant>)
  {
    forall i :: 0 <= i < |grants| && !grants[i].settled ==> grants[i].cost == grants[i].estimate
  }

  /** When each reservation is settled at most once, the raises are the overruns of the estimates. */
  lemma {:induction false} RaisesAreOverruns(limits: Limits, cal: Calendar, ops: seq<Operation>, m: int)
    requires limits.Valid() && AllSettleOnce(limits, cal, ops)
    ensures Raises(limits, cal, ops, m) == Overruns(cal, Run(limits, cal, ops).grants, m)
    ensures UnsettledAtEstimate(Run(limits, cal, ops).grants)
  {
    hide Decide, Pruned, PruneCount, Overruns, RaiseOf, SettlesOnce, AfterSettle;
    if ops == [] {
      assert Overruns(cal, [], m) == 0.0 by { NoOverruns(cal, m); }
    } else {
      var n := |ops| - 1;
      var init, op := ops[..n], ops[n];
      forall k | 0 <= k < n ensures SettlesOnce(Run(limits, cal, init[..k]), init[k]) {
        assert init[..k] == ops[..k];
      }
      RaisesAreOverruns(limits, cal, init, m);
      var h := Run(limits, cal, init);
      if op.Settle? {
        SettleOverruns(limits, cal, h, op, m);
      } else {
        NoRaise(cal, h, op, m);
        var h' := Step(limits, cal, h, op);
        if h'.grants != h.grants {
          assert h'.grants == h.grants + [Grant(op.id, op.at, op.cost, op.cost, false)];
          OverrunsLast(cal, h.grants, Grant(op.id, op.at, op.cost, op.cost, false), m);
        }
      }
    }
  }

  lemma NoOverruns(cal: Calendar, m: int)
    ensures Overruns(cal, [], m) == 0.0
  {}

  lemma NoRaise(cal: Calendar, h: History, op: Operation, m: int)
    requires h.Valid() && !op.Settle?
    ensures RaiseOf(cal, h, op, m) == 0.0
  {}

  lemma OverrunsLast(cal: Calendar, grants: seq<Grant>, g: Grant, m: int)
    requires g.cost == g.estimate
    ensures Overruns(cal, grants + [g], m) == Overruns(cal, grants, m)
  {
    assert (grants + [g])[..|grants|] == grants;
  }

  lemma SettleOverruns(limits: Limits, cal: Calendar, h: History, op: Operation, m: int)
    requires limits.Valid() && h.Valid() && op.Settle? && SettlesOnce(h, op) && UnsettledAtEstimate(h.grants)
    ensures var after := Step(limits, cal, h, op).grants;
            Overruns(cal, after, m) == Overruns(cal, h.grants, m) + RaiseOf(cal, h, op, m) && UnsettledAtEstimate(after)
  {
    hide Overruns;
    var i, cost := h.dropped + IndexOf(h.Live(), op.settledId), SettledCost(op.estimate, op.actual);
    if i < |h.grants| && cost >= 0.0 { SpendUpdate(cal, h.grants, i, h.grants[i].(cost := cost, settled := true), m); }
  }

  lemma UsageKeepsGrants(cal: Calendar, h: History, at: int)
    requires h.Valid()
    ensures AfterUsage(cal, h, at).grants == h.grants
  {}

  lemma PrefixForward(ops: seq<Operation>, t0: int, n: nat)
    requires ClockForward(ops, t0) && n < |ops|
    ensures ClockForward(ops[..n], t0) && Now(ops[..n], t0) <= Now(ops[..n + 1], t0)
    ensures Now(ops[..n + 1], t0) == Instant(ops[n], Now(ops[..n], t0))
  {
    forall k | 0 < k <= n ensures Now(ops[..n][..k - 1], t0) <= Now(ops[..n][..k], t0) {
      assert ops[..n][..k - 1] == ops[..k - 1] && ops[..n][..k] == ops[..k];
    }
    assert ops[..n + 1][..n] == ops[..n];
  }

  /** Overruns of the estimates are not enough when a reservation is settled twice: ten of budget, fifteen spent, no overrun. */
  lemma SettlingTwiceBreaksBudget(cal: Calendar, t: int)
    requires cal.Lawful()
    ensures var limits := Limits(5, 5, Some(10.0));
            var ops := [Reserve(t, 5.0, 0), Settle(0, Some(0.0), 5.0), Reserve(t, 10.0, 1), Settle(0, Some(5.0), 5.0)];
            var g := Run(limits, cal, ops).grants;
            Spend(cal, g, t) == 15.0 && Overruns(cal, g, t) == 0.0
  {
    hide Run, Spend, Overruns, Calendar.Lawful;
    var limits := Limits(5, 5, Some(10.0));
    var o1, o2 := Reserve(t, 5.0, 0), Settle(0, Some(0.0), 5.0);
    var o3, o4 := Reserve(t, 10.0, 1), Settle(0, Some(5.0), 5.0);
    hide Step;
    RunFour(limits, cal, o1, o2, o3, o4);
    FirstSteps(limits, cal, t);
    SecondGrant(limits, cal, t, Grant(0, t, 5.0, 0.0, true));
    LastSettle(limits, cal, t);
    FifteenSpent(cal, t);
  }

  lemma RunFour(limits: Limits, cal: Calendar, a: Operation, b: Operation, c: Operation, d: Operation)
    requires limits.Valid()
    ensures Run(limits, cal, [a, b, c, d])
         == Step(limits, cal, Step(limits, cal, Step(limits, cal, Step(limits, cal, Run(limits, cal, []), a), b), c), d)
  {
    hide Step;
    RunLast(limits, cal, [], a);
    RunLast(limits, cal, [a], b);
    RunLast(limits, cal, [a, b], c);
    RunLast(limits, cal, [a, b, c], d);
    assert [] + [a] == [a] && [a] + [b] == [a, b] && [a, b] + [c] == [a, b, c] && [a, b, c] + [d] == [a, b, c, d];
  }

  lemma FirstSteps(limits: Limits, cal: Calendar, t: int)
    requires limits == Limits(5, 5, Some(10.0))
    ensures Run(limits, cal, []) == History([], 0)
    ensures Step(limits, cal, History([], 0), Reserve(t, 5.0, 0)) == History([Grant(0, t, 5.0, 5.0, false)], 0)
    ensures Step(limits, cal, History([Grant(0, t, 5.0, 5.0, false)], 0), Settle(0, Some(0.0), 5.0))
         == History([Grant(0, t, 5.0, 0.0, true)], 0)
  {
    var h := History([Grant(0, t, 5.0, 5.0, false)], 0);
    assert h.Live() == [Entry(0, t, 5.0)];
    assert IndexOf(h.Live(), 0) == 0;
  }

  lemma SecondGrant(limits: Limits, cal: Calendar, t: int, b: Grant)
    requires cal.Lawful() && limits == Limits(5, 5, Some(10.0)) && b == Grant(0, t, 5.0, 0.0, true)
    ensures Step(limits, cal, History([b], 0), Reserve(t, 10.0, 1)) == History([b, Grant(1, t, 10.0, 10.0, false)], 0)
  {
    var live := History([b], 0).Live();
    assert live == [Entry(0, t, 0.0)];
    assert PruneCount(live, cal.monthStart(t)) == 0;
    assert live[1..] == [] && Pruned(live, cal.monthStart(t)) == live;
    assert MonthSpend(cal, live, t) == 0.0;
  }

  lemma LastSettle(limits: Limits, cal: Calendar, t: int)
    requires limits == Limits(5, 5, Some(10.0))
    ensures var d := Grant(1, t, 10.0, 10.0, false);
            Step(limits, cal, History([Grant(0, t, 5.0, 0.0, true), d], 0), Settle(0, Some(5.0), 5.0))
            == History([Grant(0, t, 5.0, 5.0, true), d], 0)
  {
    var h := History([Grant(0, t, 5.0, 0.0, true), Grant(1, t, 10.0, 10.0, false)], 0);
    assert h.Live()[0].id == 0;
    assert IndexOf(h.Live(), 0) == 0;
  }

  lemma FifteenSpent(cal: Calendar, t: int)
    ensures var g := [Grant(0, t, 5.0, 5.0, true), Grant(1, t, 10.0, 10.0, false)];
            Spend(cal, g, t) == 15.0 && Overruns(cal, g, t) == 0.0
  {
    var c, d := Grant(0, t, 5.0, 5.0, true), Grant(1, t, 10.0, 10.0, false);
    assert [c, d][..1] == [c] && [c][..0] == [];
    assert Spend(cal, [c], t) == 5.0 && Overruns(cal, [c], t) == 0.0;
  }
}
