/** The rolling-window call ledger with calendar-month spend (ai/budget.py). */
module BudgetLedger {
  import opened Prelude

  /** Instants are microseconds; amounts are exact decimals. */
  const HOUR := 3_600_000_000
  const DAY := 24 * HOUR

  /** The UTC calendar: where the month of an instant starts and where the next one does. */
  datatype Calendar = Calendar(monthStart: int -> int, nextMonth: int -> int)
  {
    ghost predicate Lawful()
    {
      && (forall t :: monthStart(t) <= t < nextMonth(t))
      && (forall t :: nextMonth(t) - monthStart(t) >= 28 * DAY)
      && (forall t, u :: monthStart(t) <= u < nextMonth(t) ==>
            monthStart(u) == monthStart(t) && nextMonth(u) == nextMonth(t))
    }

    predicate SameMonth(t: int, u: int) { monthStart(t) == monthStart(u) }

    lemma MonthsAreOrdered(t: int, u: int)
      requires Lawful() && t <= u
      ensures monthStart(t) <= monthStart(u)
      ensures SameMonth(t, u) <==> monthStart(u) <= t
      ensures SameMonth(t, u) <==> u < nextMonth(t)
    {
      if monthStart(u) <= t { assert monthStart(t) == monthStart(u); }
      if u < nextMonth(t) { assert monthStart(u) == monthStart(t); }
    }
  }

  const DAYS_30 := 30 * DAY

  function ThirtyDayStart(t: int): (start: int)
    ensures start <= t < start + DAYS_30
  {
    t - t % DAYS_30
  }

  lemma ThirtyDaysAgree(t: int, u: int)
    requires ThirtyDayStart(t) <= u < ThirtyDayStart(t) + DAYS_30
    ensures ThirtyDayStart(u) == ThirtyDayStart(t)
  {
    QuotientUnique(DAYS_30, t / DAYS_30, u - ThirtyDayStart(t), u / DAYS_30, u % DAYS_30);
  }

  /** Months of thirty days each meet the calendar's laws. */
  lemma ThirtyDayMonths() returns (cal: Calendar)
    ensures cal.Lawful()
  {
    cal := Calendar(t => ThirtyDayStart(t), t => ThirtyDayStart(t) + DAYS_30);
    hide ThirtyDayStart;
    forall t, u | ThirtyDayStart(t) <= u < ThirtyDayStart(t) + DAYS_30 ensures ThirtyDayStart(u) == ThirtyDayStart(t) {
      ThirtyDaysAgree(t, u);
    }
    assert forall t :: cal.monthStart(t) == ThirtyDayStart(t) && cal.nextMonth(t) == ThirtyDayStart(t) + DAYS_30;
  }

  datatype Limits = Limits(callsPerHour: int, callsPerDay: int, monthlyBudget: Option<real>)
  {
    predicate Valid()
    {
      0 < callsPerHour <= callsPerDay && (monthlyBudget.Some? ==> monthlyBudget.value > 0.0)
    }
  }

  datatype Entry = Entry(id: nat, occurredAt: int, cost: real)

  datatype Reservation = Reservation(id: nat, reservedAt: int, estimatedCost: real)

  datatype Dimension = Hourly | Daily | Budget

  datatype Ceiling = Ceiling(dimension: Dimension, retryAt: int, limit: real, observed: real)

  datatype ReserveOutcome = Granted(reservation: Reservation) | Refused(ceiling: Ceiling) | InvalidAmount

  // ---------- the queries on the deque ----------

  /** How many entries `_prune` takes from the left: it stops at the first one that is not older. */
  function PruneCount(entries: seq<Entry>, start: int): (n: nat)
    ensures n <= |entries|
    ensures forall i :: 0 <= i < n ==> entries[i].occurredAt < start
    ensures n < |entries| ==> entries[n].occurredAt >= start
  {
    if entries == [] || entries[0].occurredAt >= start then 0 else 1 + PruneCount(entries[1..], start)
  }

  function Pruned(entries: seq<Entry>, start: int): seq<Entry>
  {
    entries[PruneCount(entries, start)..]
  }

  /** `_entries_in_window`: everything later than the boundary, whatever its month. */
  function InWindow(entries: seq<Entry>, boundary: int): (r: seq<Entry>)
    ensures |r| <= |entries|
  {
    if entries == [] then []
    else (if entries[0].occurredAt > boundary then [entries[0]] else []) + InWindow(entries[1..], boundary)
  }

  function Earliest(entries: seq<Entry>): (t: int)
    requires entries != []
    ensures forall e :: e in entries ==> t <= e.occurredAt
    ensures exists e :: e in entries && t == e.occurredAt
  {
    assert entries[0] in entries && forall e :: e in entries[1..] ==> e in entries;
    assert forall e :: e in entries ==> e == entries[0] || e in entries[1..];
    if |entries| == 1 then entries[0].occurredAt
    else Min(entries[0].occurredAt, Earliest(entries[1..]))
  }

  function MonthSpend(cal: Calendar, entries: seq<Entry>, at: int): real
  {
    if entries == [] then 0.0
    else (if cal.SameMonth(entries[0].occurredAt, at) then entries[0].cost else 0.0) + MonthSpend(cal, entries[1..], at)
  }

  /** The decision on already pruned entries. */
  function Decide(limits: Limits, cal: Calendar, entries: seq<Entry>, at: int, cost: real, id: nat): ReserveOutcome
    requires limits.Valid()
  {
    var hour, day := InWindow(entries, at - HOUR), InWindow(entries, at - DAY);
    var spend := MonthSpend(cal, entries, at);
    if |hour| >= limits.callsPerHour then
      Refused(Ceiling(Hourly, Earliest(hour) + HOUR, limits.callsPerHour as real, |hour| as real))
    else if |day| >= limits.callsPerDay then
      Refused(Ceiling(Daily, Earliest(day) + DAY, limits.callsPerDay as real, |day| as real))
    else if limits.monthlyBudget.Some? && spend + cost > limits.monthlyBudget.value then
      Refused(Ceiling(Budget, cal.nextMonth(at), limits.monthlyBudget.value, spend + cost))
    else Granted(Reservation(id, at, cost))
  }

  /** Where the entry with this id is; the length when there is none. */
  function IndexOf(entries: seq<Entry>, id: nat): (i: nat)
    ensures i <= |entries|
    ensures i < |entries| ==> entries[i].id == id
    ensures forall k :: 0 <= k < i ==> entries[k].id != id
  {
    if entries == [] || entries[0].id == id then 0 else 1 + IndexOf(entries[1..], id)
  }

  // ---------- the history behind the deque ----------

  /** A reservation that was granted, with its current cost; pruning forgets it but it was held. */
  datatype Grant = Grant(id: nat, at: int, estimate: real, cost: real, settled: bool)

  /** Every grant ever made, in order; the first `dropped` of them have been pruned. */
  datatype History = History(grants: seq<Grant>, dropped: nat)
  {
    predicate Valid() { dropped <= |grants| }

    function Live(): (r: seq<Entry>)
      requires Valid()
      ensures |r| == |grants| - dropped
    {
      Entries(grants[dropped..])
    }
  }

  function Entries(grants: seq<Grant>): (r: seq<Entry>)
    ensures |r| == |grants|
    ensures forall i :: 0 <= i < |r| ==> r[i] == Entry(grants[i].id, grants[i].at, grants[i].cost)
  {
    seq(|grants|, i requires 0 <= i < |grants| => Entry(grants[i].id, grants[i].at, grants[i].cost))
  }

  datatype Operation =
    | Reserve(at: int, cost: real, id: nat)
    | Settle(settledId: nat, actual: Option<real>, estimate: real)
    | Usage(usedAt: int)

  function SettledCost(estimate: real, actual: Option<real>): real
  {
    match actual case None => estimate case Some(a) => a
  }

  function AfterReserve(limits: Limits, cal: Calendar, h: History, at: int, cost: real, id: nat): (h': History)
    requires limits.Valid() && h.Valid()
    ensures h'.Valid()
  {
    if cost < 0.0 then h else
    var dropped := h.dropped + PruneCount(h.Live(), cal.monthStart(at));
    match Decide(limits, cal, Pruned(h.Live(), cal.monthStart(at)), at, cost, id)
    case Granted(_) => History(h.grants + [Grant(id, at, cost, cost, false)], dropped)
    case _ => History(h.grants, dropped)
  }

  function AfterSettle(h: History, id: nat, cost: real): (h': History)
    requires h.Valid()
    ensures h'.Valid() && |h'.grants| == |h.grants| && h'.dropped == h.dropped
  {
    var i := h.dropped + IndexOf(h.Live(), id);
    if i < |h.grants| then History(h.grants[i := h.grants[i].(cost := cost, settled := true)], h.dropped) else h
  }

  function AfterUsage(cal: Calendar, h: History, at: int): (h': History)
    requires h.Valid()
    ensures h'.Valid()
  {
    History(h.grants, h.dropped + PruneCount(h.Live(), cal.monthStart(at)))
  }

  function Step(limits: Limits, cal: Calendar, h: History, op: Operation): (h': History)
    requires limits.Valid() && h.Valid()
    ensures h'.Valid()
  {
    match op
    case Reserve(at, cost, id) => AfterReserve(limits, cal, h, at, cost, id)
    case Settle(id, actual, estimate) =>
      if SettledCost(estimate, actual) < 0.0 then h else AfterSettle(h, id, SettledCost(estimate, actual))
    case Usage(at) => AfterUsage(cal, h, at)
  }

  datatype UsageTotals = UsageTotals(callsLastHour: nat, callsLastDay: nat, spendThisMonth: real)

  datatype SettleOutcome = SettledAt(cost: real) | UnknownReservation | InvalidCost

  class Ledger {
    const limits: Limits
    const cal: Calendar
    var entries: seq<Entry>
    ghost var history: History

    constructor (limits: Limits, cal: Calendar)
      requires limits.Valid() && cal.Lawful()
      ensures Valid() && this.limits == limits && this.cal == cal
      ensures entries == [] && history == History([], 0)
    {
      this.limits := limits;
      this.cal := cal;
      entries := [];
      history := History([], 0);
    }

    ghost predicate Valid()
      reads this
    {
      limits.Valid() && cal.Lawful() && history.Valid() && entries == history.Live()
    }

    /** The loop that pops entries of earlier months from the left. */
    method Prune(at: int)
      requires Valid()
      modifies this
      ensures Valid()
      ensures entries == Pruned(old(entries), cal.monthStart(at))
      ensures history == AfterUsage(cal, old(history), at)
    {
      ghost var start := cal.monthStart(at);
      ghost var n := 0;
      while entries != [] && entries[0].occurredAt < cal.monthStart(at)
        invariant history == old(history)
        invariant n <= |old(entries)| && entries == old(entries)[n..]
        invariant PruneCount(old(entries), start) == n + PruneCount(entries, start)
        decreases |entries|
      {
        entries := entries[1..];
        n := n + 1;
      }
      history := AfterUsage(cal, old(history), at);
      assert history.grants[history.dropped..] == old(history).grants[old(history).dropped..][n..];
    }

    /** `id` stands for the identifier `uuid4` draws. */
    method Reserve(at: int, cost: real, id: nat) returns (r: ReserveOutcome)
      requires Valid()
      modifies this
      ensures Valid()
      ensures r == if cost < 0.0 then InvalidAmount
                   else Decide(limits, cal, Pruned(old(entries), cal.monthStart(at)), at, cost, id)
      ensures history == AfterReserve(limits, cal, old(history), at, cost, id)
    {
      if cost < 0.0 { return InvalidAmount; }
      Prune(at);
      r := Decide(limits, cal, entries, at, cost, id);
      if r.Granted? {
        entries := entries + [Entry(id, at, cost)];
        history := History(history.grants + [Grant(id, at, cost, cost, false)], history.dropped);
        assert history.Live() == entries;
      }
    }

    method Settle(reservation: Reservation, actual: Option<real>) returns (r: SettleOutcome)
      requires Valid()
      modifies this
      ensures Valid()
      ensures var cost := SettledCost(reservation.estimatedCost, actual);
              r == (if cost < 0.0 && actual.Some? then InvalidCost
                    else if IndexOf(old(entries), reservation.id) < |old(entries)| then SettledAt(cost)
                    else UnknownReservation)
              && history == if r.InvalidCost? then old(history) else AfterSettle(old(history), reservation.id, cost)
    {
      var cost := SettledCost(reservation.estimatedCost, actual);
      if actual.Some? && cost < 0.0 { return InvalidCost; }
      ghost var target := IndexOf(entries, reservation.id);
      for i := 0 to |entries|
        invariant entries == old(entries) && history == old(history)
        invariant i <= target
      {
        if entries[i].id == reservation.id {
          entries := entries[i := entries[i].(cost := cost)];
          history := AfterSettle(history, reservation.id, cost);
          assert history.Live() == entries;
          return SettledAt(cost);
        }
      }
      return UnknownReservation;
    }

    method Used(at: int) returns (u: UsageTotals)
      requires Valid()
      modifies this
      ensures Valid() && history == AfterUsage(cal, old(history), at)
      ensures var live := Pruned(old(entries), cal.monthStart(at));
              u == UsageTotals(|InWindow(live, at - HOUR)|, |InWindow(live, at - DAY)|, MonthSpend(cal, live, at))
    {
      Prune(at);
      u := UsageTotals(|InWindow(entries, at - HOUR)|, |InWindow(entries, at - DAY)|, MonthSpend(cal, entries, at));
    }
  }
}
