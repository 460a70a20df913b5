/** What the ledger's ceilings guarantee over whole runs. */
module BudgetBounds {
  import opened BudgetLedger

  // ---------- runs under a clock that never goes back ----------

  function Run(limits: Limits, cal: Calendar, ops: seq<Operation>): (h: History)
    requires limits.Valid()
    ensures h.Valid()
  {
    if ops == [] then History([], 0)
    else Step(limits, cal, Run(limits, cal, ops[..|ops| - 1]), ops[|ops| - 1])
  }

  /** Ledger operations replayed from a given history. */
  function Replay(limits: Limits, cal: Calendar, h: History, ops: seq<Operation>): (h': History)
    requires limits.Valid() && h.Valid()
    ensures h'.Valid()
  {
    if ops == [] then h else Step(limits, cal, Replay(limits, cal, h, ops[..|ops| - 1]), ops[|ops| - 1])
  }

  /** The instant an operation reads; settling reads no clock. */
  function Instant(op: Operation, now: int): int
  {
    match op case Reserve(at, _, _) => at case Usage(at) => at case Settle(_, _, _) => now
  }

  /** The latest instant read so far, starting from `t0`. */
  function Now(ops: seq<Operation>, t0: int): int
  {
    if ops == [] then t0 else Instant(ops[|ops| - 1], Now(ops[..|ops| - 1], t0))
  }

  predicate ClockForward(ops: seq<Operation>, t0: int)
  {
    forall n :: 0 < n <= |ops| ==> Now(ops[..n - 1], t0) <= Now(ops[..n], t0)
  }

  /** Grants in the month of `m` with `lo < at <= hi`. */
  function Count(cal: Calendar, grants: seq<Grant>, m: int, lo: int, hi: int): (n: nat)
    ensures n <= |grants|
  {
    if grants == [] then 0 else
    var last := grants[|grants| - 1];
    Count(cal, grants[..|grants| - 1], m, lo, hi)
    + if lo < last.at <= hi && cal.SameMonth(last.at, m) then 1 else 0
  }

  /** Grants with `lo < at <= hi`, whatever their month. */
  function CountAll(grants: seq<Grant>, lo: int, hi: int): (n: nat)
    ensures n <= |grants|
  {
    if grants == [] then 0 else
    CountAll(grants[..|grants| - 1], lo, hi) + if lo < grants[|grants| - 1].at <= hi then 1 else 0
  }

  ghost predicate RateLimited(cal: Calendar, grants: seq<Grant>, window: int, limit: int)
  {
    forall j :: 0 <= j < |grants| ==> Count(cal, grants[..j], grants[j].at, grants[j].at - window, grants[j].at) < limit
  }

  ghost predicate Inv(limits: Limits, cal: Calendar, h: History, now: int)
  {
    && h.Valid()
    && (forall i, j :: 0 <= i < j < |h.grants| ==> h.grants[i].at <= h.grants[j].at)
    && (forall i :: 0 <= i < |h.grants| ==> h.grants[i].at <= now)
    && (forall i :: 0 <= i < h.dropped ==> h.grants[i].at < cal.monthStart(now))
    && RateLimited(cal, h.grants, HOUR, limits.callsPerHour)
    && RateLimited(cal, h.grants, DAY, limits.callsPerDay)
  }

  lemma {:induction false} CountNone(cal: Calendar, grants: seq<Grant>, m: int, lo: int, hi: int)
    requires forall i :: 0 <= i < |grants| ==> !cal.SameMonth(grants[i].at, m)
    ensures Count(cal, grants, m, lo, hi) == 0
  {
    if grants != [] { CountNone(cal, grants[..|grants| - 1], m, lo, hi); }
  }

  lemma {:induction false} CountAppend(cal: Calendar, a: seq<Grant>, b: seq<Grant>, m: int, lo: int, hi: int)
    ensures Count(cal, a + b, m, lo, hi) == Count(cal, a, m, lo, hi) + Count(cal, b, m, lo, hi)
  {
    if b == [] {
      assert a + b == a;
    } else {
      assert (a + b)[..|a + b| - 1] == a + b[..|b| - 1];
      CountAppend(cal, a, b[..|b| - 1], m, lo, hi);
    }
  }

  lemma {:induction false} InWindowAppend(a: seq<Entry>, b: seq<Entry>, boundary: int)
    ensures InWindow(a + b, boundary) == InWindow(a, boundary) + InWindow(b, boundary)
  {
    if a == [] {
      assert a + b == b;
    } else {
      assert (a + b)[1..] == a[1..] + b;
      InWindowAppend(a[1..], b, boundary);
    }
  }

  /** Every grant that counts is in the window the ledger looks at. */
  lemma {:induction false} CountIsObserved(cal: Calendar, grants: seq<Grant>, m: int, lo: int, hi: int)
    ensures Count(cal, grants, m, lo, hi) <= |InWindow(Entries(grants), lo)|
  {
    if grants != [] {
      var init, last := grants[..|grants| - 1], [grants[|grants| - 1]];
      CountIsObserved(cal, init, m, lo, hi);
      assert Entries(grants) == Entries(init) + Entries(last);
      InWindowAppend(Entries(init), Entries(last), lo);
      assert Entries(last)[1..] == [];
    }
  }

  lemma PrunedLive(h: History, start: int)
    requires h.Valid()
    ensures var n := h.dropped + PruneCount(h.Live(), start);
            n <= |h.grants| && Pruned(h.Live(), start) == Entries(h.grants[n..])
            && forall i :: h.dropped <= i < n ==> h.grants[i].at < start
  {
    var k := PruneCount(h.Live(), start);
    var n := h.dropped + k;
    forall i | h.dropped <= i < n ensures h.grants[i].at < start {
      assert h.Live()[i - h.dropped].occurredAt < start;
    }
    assert h.grants[n..] == h.grants[h.dropped..][k..];
  }

  lemma EarlierMonth(cal: Calendar, t: int, at: int)
    requires cal.Lawful() && t < cal.monthStart(at)
    ensures !cal.SameMonth(t, at)
  {
    cal.MonthsAreOrdered(t, at);
  }

  /** Just before a grant, fewer than the limit were granted in its month within the window. */
  lemma GrantUnderLimit(cal: Calendar, h: History, dropped: nat, at: int, window: int, limit: int)
    requires cal.Lawful() && dropped <= |h.grants|
    requires forall i :: 0 <= i < dropped ==> h.grants[i].at < cal.monthStart(at)
    requires |InWindow(Entries(h.grants[dropped..]), at - window)| < limit
    ensures Count(cal, h.grants, at, at - window, at) < limit
  {
    hide Count, InWindow, Calendar.Lawful, Calendar.SameMonth;
    var gone, live := h.grants[..dropped], h.grants[dropped..];
    forall i | 0 <= i < |gone| ensures !cal.SameMonth(gone[i].at, at) { EarlierMonth(cal, gone[i].at, at); }
    CountNone(cal, gone, at, at - window, at);
    CountIsObserved(cal, live, at, at - window, at);
    CountAppend(cal, gone, live, at, at - window, at);
    assert h.grants == gone + live;
  }

  lemma ExtendRate(cal: Calendar, grants: seq<Grant>, g: Grant, window: int, limit: int)
    requires RateLimited(cal, grants, window, limit)
    requires Count(cal, grants, g.at, g.at - window, g.at) < limit
    ensures RateLimited(cal, grants + [g], window, limit)
  {
    hide Count;
    var longer := grants + [g];
    forall j | 0 <= j < |longer| ensures Count(cal, longer[..j], longer[j].at, longer[j].at - window, longer[j].at) < limit {
      assert j < |grants| ==> longer[..j] == grants[..j];
      assert j == |grants| ==> longer[..j] == grants;
    }
  }

  /** Settling moves no grant in time. */
  lemma {:induction false} CountIgnoresCost(cal: Calendar, a: seq<Grant>, b: seq<Grant>, m: int, lo: int, hi: int)
    requires |a| == |b| && forall i :: 0 <= i < |a| ==> a[i].at == b[i].at
    ensures Count(cal, a, m, lo, hi) == Count(cal, b, m, lo, hi)
  {
    if a != [] { CountIgnoresCost(cal, a[..|a| - 1], b[..|b| - 1], m, lo, hi); }
  }

  lemma RateIgnoresCost(cal: Calendar, a: seq<Grant>, b: seq<Grant>, window: int, limit: int)
    requires |a| == |b| && forall i :: 0 <= i < |a| ==> a[i].at == b[i].at
    requires RateLimited(cal, a, window, limit)
    ensures RateLimited(cal, b, window, limit)
  {
    forall j | 0 <= j < |b| ensures Count(cal, b[..j], b[j].at, b[j].at - window, b[j].at) < limit {
      CountIgnoresCost(cal, a[..j], b[..j], a[j].at, a[j].at - window, a[j].at);
    }
  }

  lemma PruneKeepsInv(limits: Limits, cal: Calendar, h: History, now: int, at: int)
    requires cal.Lawful() && Inv(limits, cal, h, now) && now <= at
    ensures Inv(limits, cal, AfterUsage(cal, h, at), at)
  {
    PrunedLive(h, cal.monthStart(at));
    cal.MonthsAreOrdered(now, at);
  }

  lemma ReserveKeepsInv(limits: Limits, cal: Calendar, h: History, now: int, at: int, cost: real, id: nat)
    requires limits.Valid() && cal.Lawful() && Inv(limits, cal, h, now) && now <= at
    ensures Inv(limits, cal, AfterReserve(limits, cal, h, at, cost, id), at)
  {
    hide RateLimited, MonthSpend, Earliest, PruneCount, InWindow, Count, Calendar.Lawful, Calendar.SameMonth, Entries;
    cal.MonthsAreOrdered(now, at);
    PruneKeepsInv(limits, cal, h, now, at);
    PrunedLive(h, cal.monthStart(at));
    var p := AfterUsage(cal, h, at);
    if cost >= 0.0 && Decide(limits, cal, Pruned(h.Live(), cal.monthStart(at)), at, cost, id).Granted? {
      GrantUnderLimit(cal, h, p.dropped, at, HOUR, limits.callsPerHour);
      GrantUnderLimit(cal, h, p.dropped, at, DAY, limits.callsPerDay);
      ExtendRate(cal, h.grants, Grant(id, at, cost, cost, false), HOUR, limits.callsPerHour);
      ExtendRate(cal, h.grants, Grant(id, at, cost, cost, false), DAY, limits.callsPerDay);
    }
  }

  lemma StepKeepsInv(limits: Limits, cal: Calendar, h: History, now: int, op: Operation)
    requires limits.Valid() && cal.Lawful() && Inv(limits, cal, h, now) && now <= Instant(op, now)
    ensures Inv(limits, cal, Step(limits, cal, h, op), Instant(op, now))
  {
    hide RateLimited;
    match op
    case Reserve(at, cost, id) => ReserveKeepsInv(limits, cal, h, now, at, cost, id);
    case Usage(at) => PruneKeepsInv(limits, cal, h, now, at);
    case Settle(id, actual, estimate) =>
      var g := Step(limits, cal, h, op).grants;
      RateIgnoresCost(cal, h.grants, g, HOUR, limits.callsPerHour);
      RateIgnoresCost(cal, h.grants, g, DAY, limits.callsPerDay);
  }

  lemma {:induction false} RunKeepsInv(limits: Limits, cal: Calendar, ops: seq<Operation>, t0: int)
    requires limits.Valid() && cal.Lawful() && ClockForward(ops, t0)
    ensures Inv(limits, cal, Run(limits, cal, ops), Now(ops, t0))
  {
    if ops != [] {
      var init := ops[..|ops| - 1];
      forall n | 0 < n <= |init| ensures Now(init[..n - 1], t0) <= Now(init[..n], t0) {
        assert init[..n - 1] == ops[..n - 1] && init[..n] == ops[..n];
      }
      RunKeepsInv(limits, cal, init, t0);
      assert ops[..|ops|] == ops;
      StepKeepsInv(limits, cal, Run(limits, cal, init), Now(init, t0), ops[|ops| - 1]);
    }
  }

  // ---------- the rolling-window bound ----------

  lemma {:induction false} CountShrinks(cal: Calendar, grants: seq<Grant>, m: int, lo: int, hi: int, lo': int, hi': int)
    requires lo' <= lo && hi <= hi'
    ensures Count(cal, grants, m, lo, hi) <= Count(cal, grants, m, lo', hi')
  {
    if grants != [] { CountShrinks(cal, grants[..|grants| - 1], m, lo, hi, lo', hi'); }
  }

  lemma {:induction false} CountSameMonth(cal: Calendar, grants: seq<Grant>, m: int, k: int, lo: int, hi: int)
    requires cal.SameMonth(m, k)
    ensures Count(cal, grants, m, lo, hi) == Count(cal, grants, k, lo, hi)
  {
    if grants != [] { CountSameMonth(cal, grants[..|grants| - 1], m, k, lo, hi); }
  }

  lemma RatePrefix(cal: Calendar, grants: seq<Grant>, window: int, limit: int, n: nat)
    requires RateLimited(cal, grants, window, limit) && n <= |grants|
    ensures RateLimited(cal, grants[..n], window, limit)
  {
    hide Count;
    forall j | 0 <= j < n
      ensures Count(cal, grants[..n][..j], grants[..n][j].at, grants[..n][j].at - window, grants[..n][j].at) < limit
    {
      assert grants[..n][..j] == grants[..j] && grants[..n][j] == grants[j];
    }
  }

  /** The last grant of a window saw all the others, so there are at most `limit` of them. */
  lemma {:induction false} WindowBound(cal: Calendar, grants: seq<Grant>, m: int, a: int, window: int, limit: int)
    requires RateLimited(cal, grants, window, limit) && limit > 0 && window > 0
    requires forall i, j :: 0 <= i < j < |grants| ==> grants[i].at <= grants[j].at
    ensures Count(cal, grants, m, a, a + window) <= limit
  {
    if grants != [] {
      var n := |grants| - 1;
      var init, last := grants[..n], grants[n];
      RatePrefix(cal, grants, window, limit, n);
      WindowBound(cal, init, m, a, window, limit);
      if a < last.at <= a + window && cal.SameMonth(last.at, m) {
        LastSawThem(cal, grants, m, a, window, limit);
      }
    }
  }

  lemma LastSawThem(cal: Calendar, grants: seq<Grant>, m: int, a: int, window: int, limit: int)
    requires RateLimited(cal, grants, window, limit) && grants != []
    requires forall i, j :: 0 <= i < j < |grants| ==> grants[i].at <= grants[j].at
    requires grants[|grants| - 1].at <= a + window && cal.SameMonth(grants[|grants| - 1].at, m)
    ensures Count(cal, grants[..|grants| - 1], m, a, a + window) < limit
  {
    hide Count;
    var n := |grants| - 1;
    var init, t := grants[..n], grants[n].at;
    CountUpTo(cal, init, m, a, a + window, t);
    CountShrinks(cal, init, m, a, t, t - window, t);
    CountSameMonth(cal, init, m, t, t - window, t);
    assert Count(cal, grants[..n], grants[n].at, grants[n].at - window, grants[n].at) < limit;
  }

  lemma {:induction false} CountUpTo(cal: Calendar, grants: seq<Grant>, m: int, lo: int, hi: int, latest: int)
    requires forall i :: 0 <= i < |grants| ==> grants[i].at <= latest
    ensures Count(cal, grants, m, lo, hi) <= Count(cal, grants, m, lo, latest)
  {
    if grants != [] { CountUpTo(cal, grants[..|grants| - 1], m, lo, hi, latest); }
  }

  lemma {:induction false} TwoMonthsAtMost(cal: Calendar, grants: seq<Grant>, a: int, hi: int)
    requires cal.Lawful() && a <= hi <= a + DAY
    ensures CountAll(grants, a, hi)
         <= Count(cal, grants, hi, a, hi) + Count(cal, grants, cal.monthStart(hi) - 1, a, hi)
  {
    if grants != [] {
      TwoMonthsAtMost(cal, grants[..|grants| - 1], a, hi);
      var t := grants[|grants| - 1].at;
      if a < t <= hi && !cal.SameMonth(t, hi) {
        var before := cal.monthStart(hi) - 1;
        cal.MonthsAreOrdered(t, hi);
        cal.MonthsAreOrdered(before, hi);
        PreviousMonth(cal, t, before, hi);
      }
    }
  }

  lemma PreviousMonth(cal: Calendar, t: int, before: int, hi: int)
    requires cal.Lawful() && before == cal.monthStart(hi) - 1 && t <= before && hi - t <= DAY
    ensures cal.SameMonth(t, before)
  {
    cal.MonthsAreOrdered(t, before);
    cal.MonthsAreOrdered(before, hi);
    assert cal.nextMonth(before) <= hi;
    assert cal.nextMonth(before) > before;
  }

  /** In a window inside one month every grant is of that month. */
  lemma {:induction false} OneMonthCount(cal: Calendar, grants: seq<Grant>, a: int, hi: int)
    requires cal.Lawful() && a < hi && cal.SameMonth(a + 1, hi)
    ensures CountAll(grants, a, hi) == Count(cal, grants, hi, a, hi)
  {
    if grants != [] {
      OneMonthCount(cal, grants[..|grants| - 1], a, hi);
      var t := grants[|grants| - 1].at;
      if a < t <= hi {
        cal.MonthsAreOrdered(a + 1, hi);
        cal.MonthsAreOrdered(t, hi);
      }
    }
  }

  /**
   * Under a clock that never goes back, no hour holds more than `callsPerHour` grants of one month and no day
   * more than `callsPerDay`; a window across a month start holds at most twice that, any other one no more.
   */
  lemma RollingWindowBound(limits: Limits, cal: Calendar, ops: seq<Operation>, t0: int, m: int, a: int)
    requires limits.Valid() && cal.Lawful() && ClockForward(ops, t0)
    ensures var g := Run(limits, cal, ops).grants;
            Count(cal, g, m, a, a + HOUR) <= limits.callsPerHour
            && Count(cal, g, m, a, a + DAY) <= limits.callsPerDay
            && CountAll(g, a, a + HOUR) <= 2 * limits.callsPerHour
            && CountAll(g, a, a + DAY) <= 2 * limits.callsPerDay
            && (cal.SameMonth(a + 1, a + HOUR) ==> CountAll(g, a, a + HOUR) <= limits.callsPerHour)
            && (cal.SameMonth(a + 1, a + DAY) ==> CountAll(g, a, a + DAY) <= limits.callsPerDay)
  {
    hide RateLimited, Count, CountAll, Calendar.Lawful, Calendar.SameMonth, Run, ClockForward, Now;
    RunKeepsInv(limits, cal, ops, t0);
    var g := Run(limits, cal, ops).grants;
    WindowBound(cal, g, m, a, HOUR, limits.callsPerHour);
    WindowBound(cal, g, m, a, DAY, limits.callsPerDay);
    WindowBound(cal, g, a + HOUR, a, HOUR, limits.callsPerHour);
    WindowBound(cal, g, a + DAY, a, DAY, limits.callsPerDay);
    WindowBound(cal, g, cal.monthStart(a + HOUR) - 1, a, HOUR, limits.callsPerHour);
    WindowBound(cal, g, cal.monthStart(a + DAY) - 1, a, DAY, limits.callsPerDay);
    TwoMonthsAtMost(cal, g, a, a + HOUR);
    TwoMonthsAtMost(cal, g, a, a + DAY);
    if cal.SameMonth(a + 1, a + HOUR) { OneMonthCount(cal, g, a, a + HOUR); }
    if cal.SameMonth(a + 1, a + DAY) { OneMonthCount(cal, g, a, a + DAY); }
  }

  lemma RunLast(limits: Limits, cal: Calendar, ops: seq<Operation>, op: Operation)
    requires limits.Valid()
    ensures Run(limits, cal, ops + [op]) == Step(limits, cal, Run(limits, cal, ops), op)
  {
    assert (ops + [op])[..|ops|] == ops;
  }

  // ---------- the doubled bound is reached ----------

  /** `n` free calls at one instant. */
  function Burst(n: nat, at: int): seq<Operation>
  {
    if n == 0 then [] else Burst(n - 1, at) + [Reserve(at, 0.0, n)]
  }

  function BurstGrants(n: nat, at: int): (r: seq<Grant>)
    ensures |r| == n
    ensures forall i :: 0 <= i < n ==> r[i].at == at && r[i].cost == 0.0
  {
    if n == 0 then [] else BurstGrants(n - 1, at) + [Grant(n, at, 0.0, 0.0, false)]
  }

  lemma {:induction false} FreeSpend(cal: Calendar, entries: seq<Entry>, at: int)
    requires forall i :: 0 <= i < |entries| ==> entries[i].cost == 0.0
    ensures MonthSpend(cal, entries, at) == 0.0
  {
    if entries != [] { FreeSpend(cal, entries[1..], at); }
  }

  lemma {:induction false} PrunesPrefix(entries: seq<Entry>, start: int, n: nat)
    requires n <= |entries| && forall i :: 0 <= i < |entries| ==> (entries[i].occurredAt < start <==> i < n)
    ensures PruneCount(entries, start) == n
  {
    if n > 0 { PrunesPrefix(entries[1..], start, n - 1); }
  }

  /** With only older months and fewer than the limit of free calls before it, another free call is granted. */
  lemma FreeCallGranted(limits: Limits, cal: Calendar, h: History, older: seq<Grant>, k: nat, at: int)
    requires limits.Valid() && cal.Lawful() && h.Valid() && k < limits.callsPerHour
    requires h.grants == older + BurstGrants(k, at) && h.dropped <= |older|
    requires forall i :: 0 <= i < |older| ==> older[i].at < cal.monthStart(at)
    ensures Step(limits, cal, h, Reserve(at, 0.0, k + 1)) == History(older + BurstGrants(k + 1, at), |older|)
  {
    hide InWindow, MonthSpend, Pruned, Calendar.SameMonth, BurstGrants;
    var start := cal.monthStart(at);
    PrunedLive(h, start);
    assert at >= start;
    hide Calendar.Lawful;
    forall i | 0 <= i < |h.Live()| ensures h.Live()[i].occurredAt < start <==> h.dropped + i < |older| {
      assert h.Live()[i].occurredAt == h.grants[h.dropped + i].at;
    }
    PrunesPrefix(h.Live(), start, |older| - h.dropped);
    assert h.grants[|older|..] == BurstGrants(k, at);
    FreeSpend(cal, Entries(BurstGrants(k, at)), at);
    assert older + BurstGrants(k + 1, at) == h.grants + [Grant(k + 1, at, 0.0, 0.0, false)] by { BurstGrows(k, at); }
  }

  lemma BurstGrows(k: nat, at: int)
    ensures BurstGrants(k + 1, at) == BurstGrants(k, at) + [Grant(k + 1, at, 0.0, 0.0, false)]
  {}

  lemma {:induction false} BurstRuns(limits: Limits, cal: Calendar, before: seq<Operation>, k: nat, at: int)
    requires limits.Valid() && cal.Lawful() && k <= limits.callsPerHour
    requires forall i :: 0 <= i < |Run(limits, cal, before).grants| ==> Run(limits, cal, before).grants[i].at < cal.monthStart(at)
    ensures Run(limits, cal, before + Burst(k, at)).grants == Run(limits, cal, before).grants + BurstGrants(k, at)
    ensures Run(limits, cal, before + Burst(k, at)).dropped <= |Run(limits, cal, before).grants|
  {
    hide Run, Step, Calendar.Lawful;
    var older := Run(limits, cal, before).grants;
    if k == 0 {
      assert before + [] == before && older + [] == older;
    } else {
      BurstRuns(limits, cal, before, k - 1, at);
      var ops := before + Burst(k - 1, at);
      assert before + Burst(k, at) == ops + [Reserve(at, 0.0, k)];
      RunLast(limits, cal, ops, Reserve(at, 0.0, k));
      FreeCallGranted(limits, cal, Run(limits, cal, ops), older, k - 1, at);
    }
  }

  lemma {:induction false} CountBurst(grants: seq<Grant>, lo: int, hi: int)
    requires forall i :: 0 <= i < |grants| ==> lo < grants[i].at <= hi
    ensures CountAll(grants, lo, hi) == |grants|
  {
    if grants != [] { CountBurst(grants[..|grants| - 1], lo, hi); }
  }

  lemma {:induction false} BurstNow(before: seq<Operation>, k: nat, at: int, t0: int)
    ensures Now(before + Burst(k, at), t0) == if k == 0 then Now(before, t0) else at
  {
    if k == 0 {
      assert before + [] == before;
    } else {
      assert (before + Burst(k, at))[|before + Burst(k, at)| - 1] == Reserve(at, 0.0, k);
    }
  }

  lemma {:induction false} BurstForward(before: seq<Operation>, k: nat, at: int, t0: int)
    requires ClockForward(before, t0) && Now(before, t0) <= at
    ensures ClockForward(before + Burst(k, at), t0)
  {
    if k == 0 {
      assert before + [] == before;
    } else {
      BurstForward(before, k - 1, at, t0);
      BurstNow(before, k - 1, at, t0);
      BurstNow(before, k, at, t0);
      var init := before + Burst(k - 1, at);
      assert before + Burst(k, at) == init + [Reserve(at, 0.0, k)];
      ExtendForward(init, Reserve(at, 0.0, k), t0);
    }
  }

  lemma ExtendForward(ops: seq<Operation>, op: Operation, t0: int)
    requires ClockForward(ops, t0) && Now(ops, t0) <= Now(ops + [op], t0)
    ensures ClockForward(ops + [op], t0)
  {
    hide Now;
    var longer := ops + [op];
    forall n | 0 < n <= |longer| ensures Now(longer[..n - 1], t0) <= Now(longer[..n], t0) {
      if n < |longer| {
        assert longer[..n - 1] == ops[..n - 1] && longer[..n] == ops[..n];
      } else {
        assert longer[..n - 1] == ops && longer[..n] == longer;
      }
    }
  }

  /**
   * Whatever the limits, the doubled hourly bound is reached at every month start: a full hour's calls in the last
   * microsecond of the month and as many in the first of the next one. With equal limits so is the doubled daily one.
   */
  lemma MonthStartForgets(limits: Limits, cal: Calendar, t: int)
    requires limits.Valid() && cal.Lawful()
    ensures var n, b := limits.callsPerHour, cal.nextMonth(t);
            var ops := Burst(n, b - 1) + Burst(n, b);
            ClockForward(ops, b - 1) && CountAll(Run(limits, cal, ops).grants, b - 2, b) == 2 * n
  {
    hide BurstGrants, Burst, ClockForward, Run, Now, CountAll, Calendar.Lawful;
    var n, b := limits.callsPerHour, cal.nextMonth(t);
    NextMonthStarts(cal, t);
    var first, second := Burst(n, b - 1), Burst(n, b);
    NothingRun(limits, cal, b - 1);
    BurstRuns(limits, cal, [], n, b - 1);
    assert [] + first == first && [] + BurstGrants(n, b - 1) == BurstGrants(n, b - 1);
    BurstRuns(limits, cal, first, n, b);
    CountBurst(Run(limits, cal, first + second).grants, b - 2, b);
    BurstForward([], n, b - 1, b - 1);
    BurstNow([], n, b - 1, b - 1);
    BurstForward(first, n, b, b - 1);
  }

  lemma NextMonthStarts(cal: Calendar, t: int)
    requires cal.Lawful()
    ensures cal.monthStart(cal.nextMonth(t)) == cal.nextMonth(t)
  {
    var b := cal.nextMonth(t);
    cal.MonthsAreOrdered(t, b);
    cal.MonthsAreOrdered(t, b - 1);
  }

  lemma NothingRun(limits: Limits, cal: Calendar, t0: int)
    requires limits.Valid()
    ensures Run(limits, cal, []) == History([], 0) && ClockForward([], t0) && Now([], t0) == t0
  {}
}
