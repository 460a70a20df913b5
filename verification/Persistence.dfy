/** How persistent a borrower's adverse signals are (evaluation/reference_portfolio/signals.py, `persistence_summary`). */
module Persistence {
  import opened Prelude
  import opened Ordering

  const CONSECUTIVE_DAYS := 14
  const WINDOW_DAYS := 30
  const WINDOW_EVENTS := 3

  datatype Family = AccountActivity | Payment | Utilisation | Treasury | Concentration | Industry | News

  const FAMILIES: seq<Family> := [AccountActivity, Payment, Utilisation, Treasury, Concentration, Industry, News]

  /** A calendar date is its ordinal; the first representable date is 1. */
  type Day = d: int | 1 <= d <= 3_652_059 witness 1

  datatype Observation = Observation(family: Family, day: Day, adverse: bool)

  datatype Summary = Summary(family: Family, consecutive: nat, inWindow: nat, sustained: bool)

  /** The distinct days on which a family was adverse. */
  function AdverseDays(events: seq<Observation>, family: Family): set<int>
  {
    set i | 0 <= i < |events| && events[i].adverse && events[i].family == family :: events[i].day
  }

  // ---------- what the summary means ----------

  predicate IsRun(days: set<int>, start: int, length: nat)
  {
    forall d: int :: start <= d < start + length ==> d in days
  }

  /** `n` is the greatest number of consecutive days in the set. */
  ghost predicate IsLongestRun(days: set<int>, n: nat)
  {
    (exists start :: IsRun(days, start, n)) && forall start, m: nat :: IsRun(days, start, m) ==> m <= n
  }

  function Window(days: set<int>, start: int): set<int>
  {
    set d | d in days && start <= d < start + WINDOW_DAYS
  }

  /** `n` is the greatest number of days of the set in any stretch of thirty days. */
  ghost predicate IsGreatestCount(days: set<int>, n: nat)
  {
    (exists start :: |Window(days, start)| == n) && forall start :: |Window(days, start)| <= n
  }

  ghost predicate Summarises(events: seq<Observation>, family: Family, s: Summary)
  {
    && s.family == family
    && IsLongestRun(AdverseDays(events, family), s.consecutive)
    && IsGreatestCount(AdverseDays(events, family), s.inWindow)
    && (s.sustained <==> s.consecutive >= CONSECUTIVE_DAYS || s.inWindow >= WINDOW_EVENTS)
  }

  /** A window that would start before the first representable date cannot be computed. */
  predicate TooEarly(events: seq<Observation>)
  {
    exists e :: e in events && e.adverse && e.day < WINDOW_DAYS
  }

  lemma SummaryUnique(events: seq<Observation>, family: Family, s: Summary, t: Summary)
    requires Summarises(events, family, s) && Summarises(events, family, t)
    ensures s == t
  {
    var days := AdverseDays(events, family);
    var a :| IsRun(days, a, s.consecutive);
    var b :| IsRun(days, b, t.consecutive);
    var c :| |Window(days, c)| == s.inWindow;
    var d :| |Window(days, d)| == t.inWindow;
  }

  // ---------- the days in order ----------

  function Earlier(): (int, int) -> bool { (a: int, b: int) => a < b }

  function SortedDays(days: set<int>): (r: seq<int>)
    ensures forall i, j :: 0 <= i < j < |r| ==> r[i] < r[j]
    ensures forall d :: d in r <==> d in days
    ensures |r| == |days|
  {
    var r := Sorted(Earlier(), days);
    assert forall i, j :: 0 <= i < j < |r| ==> Earlier()(r[i], r[j]);
    r
  }

  predicate Increasing(dates: seq<int>) { forall i, j :: 0 <= i < j < |dates| ==> dates[i] < dates[j] }

  function DaysOf(dates: seq<int>): set<int> { set d | d in dates }

  lemma OneMore(dates: seq<int>, i: nat)
    requires i < |dates|
    ensures DaysOf(dates[..i + 1]) == DaysOf(dates[..i]) + {dates[i]}
  {
    assert dates[..i + 1] == dates[..i] + [dates[i]];
  }

  /** Adding a later day: a run either avoids it or ends with it. */
  lemma LaterDayRuns(days: set<int>, day: int, current: nat, longest: nat)
    requires forall d :: d in days ==> d < day
    requires current >= 1 && IsRun(days + {day}, day - current + 1, current) && day - current !in days + {day}
    requires IsLongestRun(days, longest)
    ensures IsLongestRun(days + {day}, Max(longest, current))
  {
    var more := days + {day};
    var s :| IsRun(days, s, longest);
    assert IsRun(more, s, longest);
    assert IsRun(more, if current > longest then day - current + 1 else s, Max(longest, current));
    assert day + 1 !in more && day - current !in more;
    forall start, m: nat | IsRun(more, start, m) ensures m <= Max(longest, current) {
      if start <= day < start + m {
        assert start + m > day + 1 ==> day + 1 in more;
        assert m > current ==> day - current in more;
      } else {
        assert IsRun(days, start, m);
      }
    }
  }

  /** The run that ends on the last day so far, and the longest run so far. */
  ghost predicate RunsUpTo(dates: seq<int>, i: nat, current: nat, longest: nat)
    requires i <= |dates|
  {
    && IsLongestRun(DaysOf(dates[..i]), longest)
    && (i > 0 ==> current >= 1 && IsRun(DaysOf(dates[..i]), dates[i - 1] - current + 1, current)
                  && dates[i - 1] - current !in DaysOf(dates[..i]))
  }

  lemma RunStep(dates: seq<int>, i: nat, current: nat, longest: nat, next: nat)
    requires Increasing(dates) && i < |dates| && RunsUpTo(dates, i, current, longest)
    requires next == if i > 0 && dates[i] == dates[i - 1] + 1 then current + 1 else 1
    ensures RunsUpTo(dates, i + 1, next, Max(longest, next))
  {
    hide IsLongestRun, IsRun;
    var day, days := dates[i], DaysOf(dates[..i]);
    OneMore(dates, i);
    assert forall d :: d in days ==> d < day;
    if i > 0 && day == dates[i - 1] + 1 {
      RunGrows(days, dates[i - 1], current);
    } else {
      assert i > 0 ==> forall d :: d in days ==> d <= dates[i - 1];
      FreshRun(days, day);
    }
    LaterDayRuns(days, day, next, longest);
  }

  method LongestRun(dates: seq<int>) returns (longest: nat)
    requires Increasing(dates)
    ensures IsLongestRun(DaysOf(dates), longest)
  {
    hide IsLongestRun, IsRun, DaysOf, Increasing;
    longest := 0;
    var current := 0;
    var previous: Option<int> := None;
    NoRuns();
    assert dates[..0] == [] && DaysOf([]) == {} by { NoDays(); }
    for i := 0 to |dates|
      invariant previous == if i == 0 then None else Some(dates[i - 1])
      invariant RunsUpTo(dates, i, current, longest)
    {
      var day := dates[i];
      ghost var before := current;
      if previous.Some? && day == previous.value + 1 {
        current := current + 1;
      } else {
        current := 1;
      }
      RunStep(dates, i, before, longest, current);
      longest := Max(longest, current);
      previous := Some(day);
    }
    assert dates[..|dates|] == dates;
  }

  lemma NoDays()
    ensures DaysOf([]) == {}
  {}

  lemma NoRuns()
    ensures IsLongestRun({}, 0)
  {
    var none: set<int> := {};
    assert IsRun(none, 0, 0);
    forall start, m: nat | IsRun(none, start, m) ensures m <= 0 {
      assert m > 0 ==> start in none;
    }
  }

  lemma RunGrows(days: set<int>, last: int, current: nat)
    requires current >= 1 && IsRun(days, last - current + 1, current) && last - current !in days
    ensures IsRun(days + {last + 1}, last + 1 - current, current + 1) && last - current !in days + {last + 1}
  {
    assert forall d :: d in days ==> d in days + {last + 1};
  }

  lemma FreshRun(days: set<int>, day: int)
    requires forall d :: d in days ==> d < day - 1
    ensures IsRun(days + {day}, day, 1) && day - 1 !in days + {day}
  {}

  // ---------- counting in windows ----------

  /** `sum(lo <= value <= hi for value in dates)`. */
  function CountBetween(dates: seq<int>, lo: int, hi: int): nat
  {
    if dates == [] then 0
    else CountBetween(dates[..|dates| - 1], lo, hi) + if lo <= dates[|dates| - 1] <= hi then 1 else 0
  }

  function Between(days: set<int>, lo: int, hi: int): set<int>
  {
    set d | d in days && lo <= d <= hi
  }

  lemma {:induction false} CountIsSize(dates: seq<int>, lo: int, hi: int)
    requires Increasing(dates)
    ensures CountBetween(dates, lo, hi) == |Between(DaysOf(dates), lo, hi)|
  {
    if dates == [] {
      assert Between(DaysOf(dates), lo, hi) == {};
    } else {
      var init, last := dates[..|dates| - 1], dates[|dates| - 1];
      CountIsSize(init, lo, hi);
      assert init + [last] == dates;
      BetweenStep(init, last, lo, hi);
    }
  }

  lemma BetweenStep(init: seq<int>, last: int, lo: int, hi: int)
    requires last !in init
    ensures |Between(DaysOf(init + [last]), lo, hi)| == |Between(DaysOf(init), lo, hi)| + if lo <= last <= hi then 1 else 0
  {
    var before := Between(DaysOf(init), lo, hi);
    assert last !in before;
    assert Between(DaysOf(init + [last]), lo, hi) == if lo <= last <= hi then before + {last} else before;
  }

  function Ending(days: set<int>, day: int): set<int>
  {
    Between(days, day - WINDOW_DAYS + 1, day)
  }

  /** A window's days all lie in the window that ends on its last day. */
  lemma WindowEndsOnADay(days: set<int>, start: int)
    requires Window(days, start) != {}
    ensures exists d :: d in days && Window(days, start) <= Ending(days, d)
  {
    var later := (a: int, b: int) => a > b;
    LeastExists(later, Window(days, start));
    var d :| IsLeast(later, Window(days, start), d);
    forall x | x in Window(days, start) ensures x in Ending(days, d) {
      assert x != d ==> later(d, x);
    }
  }

  lemma Subset<T>(a: set<T>, b: set<T>)
    requires a <= b
    ensures |a| <= |b|
  {
    assert a + (b - a) == b;
  }

  /** The greatest count over windows that end on a day of the set is the greatest over all windows. */
  lemma EndingWindowsSuffice(days: set<int>, n: nat)
    requires forall d :: d in days ==> |Ending(days, d)| <= n
    requires (days == {} && n == 0) || exists d :: d in days && |Ending(days, d)| == n
    ensures IsGreatestCount(days, n)
  {
    forall start ensures |Window(days, start)| <= n {
      if Window(days, start) != {} {
        WindowEndsOnADay(days, start);
        var d :| d in days && Window(days, start) <= Ending(days, d);
        Subset(Window(days, start), Ending(days, d));
      }
    }
    if days == {} {
      assert Window(days, 0) == {};
    } else {
      var d :| d in days && |Ending(days, d)| == n;
      assert Window(days, d - WINDOW_DAYS + 1) == Ending(days, d);
    }
  }

  /** Days that come later do not belong to the window ending on an earlier day. */
  lemma LaterDaysOutside(dates: seq<int>, i: nat)
    requires Increasing(dates) && i < |dates|
    ensures Ending(DaysOf(dates[..i + 1]), dates[i]) == Ending(DaysOf(dates), dates[i])
  {
    forall d | d in Ending(DaysOf(dates), dates[i]) ensures d in DaysOf(dates[..i + 1]) {
      var k :| 0 <= k < |dates| && dates[k] == d;
      assert k <= i;
      assert dates[..i + 1][k] == d;
    }
  }

  method GreatestCount(dates: seq<int>) returns (greatest: Option<nat>)
    requires Increasing(dates)
    ensures greatest.None? <==> dates != [] && dates[0] < WINDOW_DAYS
    ensures greatest.Some? ==> IsGreatestCount(DaysOf(dates), greatest.value)
  {
    hide Ending;
    var maximum := 0;
    for i := 0 to |dates|
      invariant i > 0 ==> dates[0] >= WINDOW_DAYS
      invariant forall k :: 0 <= k < i ==> |Ending(DaysOf(dates), dates[k])| <= maximum
      invariant (i == 0 && maximum == 0) || exists k :: 0 <= k < i && |Ending(DaysOf(dates), dates[k])| == maximum
    {
      if dates[i] < WINDOW_DAYS { return None; }
      var count := CountBetween(dates[..i + 1], dates[i] - WINDOW_DAYS + 1, dates[i]);
      assert count == |Ending(DaysOf(dates), dates[i])| by { CountIsWindow(dates, i); }
      if count > maximum {
        maximum := count;
      } else {
        assert i == 0 ==> dates[0] in DaysOf(dates);
        if i == 0 { WindowHoldsItsDay(dates); }
      }
      assert i == 0 ==> maximum == |Ending(DaysOf(dates), dates[0])|;
    }
    EndingWindows(dates, maximum);
    return Some(maximum);
  }

  lemma CountIsWindow(dates: seq<int>, i: nat)
    requires Increasing(dates) && i < |dates|
    ensures CountBetween(dates[..i + 1], dates[i] - WINDOW_DAYS + 1, dates[i]) == |Ending(DaysOf(dates), dates[i])|
  {
    CountIsSize(dates[..i + 1], dates[i] - WINDOW_DAYS + 1, dates[i]);
    LaterDaysOutside(dates, i);
  }

  lemma WindowHoldsItsDay(dates: seq<int>)
    requires dates != []
    ensures |Ending(DaysOf(dates), dates[0])| >= 1
  {
    Subset({dates[0]}, Ending(DaysOf(dates), dates[0]));
  }

  lemma EndingWindows(dates: seq<int>, n: nat)
    requires forall k :: 0 <= k < |dates| ==> |Ending(DaysOf(dates), dates[k])| <= n
    requires (dates == [] && n == 0) || exists k :: 0 <= k < |dates| && |Ending(DaysOf(dates), dates[k])| == n
    ensures IsGreatestCount(DaysOf(dates), n)
  {
    hide Ending;
    if dates != [] { assert dates[0] in DaysOf(dates); }
    EndingWindowsSuffice(DaysOf(dates), n);
  }

  // ---------- the summary ----------

  /** `by_family`: the adverse dates of each family, in event order and with repetitions. */
  method GroupByFamily(events: seq<Observation>) returns (byFamily: map<Family, seq<int>>)
    ensures forall f: Family :: f in byFamily && DaysOf(byFamily[f]) == AdverseDays(events, f)
  {
    byFamily := map f: Family | f in FAMILIES :: [];
    assert forall f: Family :: f in FAMILIES by { forall f: Family ensures f in FAMILIES { AllFamilies(f); } }
    for i := 0 to |events|
      invariant forall f: Family :: f in byFamily && DaysOf(byFamily[f]) == AdverseDays(events[..i], f)
    {
      var e := events[i];
      forall f: Family
        ensures AdverseDays(events[..i + 1], f) == AdverseDays(events[..i], f) + if e.adverse && e.family == f then {e.day} else {}
      {
        AdverseStep(events, i, f);
      }
      if e.adverse { byFamily := byFamily[e.family := byFamily[e.family] + [e.day]]; }
    }
    assert events[..|events|] == events;
  }

  lemma AllFamilies(f: Family)
    ensures f in FAMILIES
  {
    assert FAMILIES[0] == AccountActivity && FAMILIES[1] == Payment && FAMILIES[2] == Utilisation && FAMILIES[3] == Treasury
        && FAMILIES[4] == Concentration && FAMILIES[5] == Industry && FAMILIES[6] == News;
  }

  lemma AdverseStep(events: seq<Observation>, i: nat, f: Family)
    requires i < |events|
    ensures AdverseDays(events[..i + 1], f)
         == (AdverseDays(events[..i], f) + if events[i].adverse && events[i].family == f then {events[i].day} else {})
  {
    var a, b := events[..i], events[..i + 1];
    assert b[i] == events[i] && forall k :: 0 <= k < i ==> a[k] == b[k];
    forall d | d in AdverseDays(a, f) ensures d in AdverseDays(b, f) {
      var k :| 0 <= k < i && a[k].adverse && a[k].family == f && a[k].day == d;
      assert b[k].adverse && b[k].family == f && b[k].day == d;
    }
  }

  method SummariseFamily(events: seq<Observation>, family: Family, dates: seq<int>) returns (r: Option<Summary>)
    requires DaysOf(dates) == AdverseDays(events, family)
    ensures r.None? <==> exists d :: d in dates && d < WINDOW_DAYS
    ensures r.Some? ==> Summarises(events, family, r.value)
  {
    hide IsLongestRun, IsGreatestCount;
    var ordered := SortedDays(DaysOf(dates));
    assert DaysOf(ordered) == DaysOf(dates);
    var longest := LongestRun(ordered);
    var count := GreatestCount(ordered);
    if count.None? {
      assert ordered[0] in dates;
      return None;
    }
    forall d | d in dates ensures d >= WINDOW_DAYS {
      assert d in DaysOf(dates);
      var k :| 0 <= k < |ordered| && ordered[k] == d;
    }
    return Some(Summary(family, longest, count.value, longest >= CONSECUTIVE_DAYS || count.value >= WINDOW_EVENTS));
  }

  /** `persistence_summary`; None is the OverflowError of a window before the first date. */
  method Summarise(events: seq<Observation>) returns (r: Option<seq<Summary>>)
    ensures r.None? <==> TooEarly(events)
    ensures r.Some? ==> |r.value| == |FAMILIES| && forall k :: 0 <= k < |FAMILIES| ==> Summarises(events, FAMILIES[k], r.value[k])
  {
    hide Summarises, DaysOf, AdverseDays;
    var byFamily := GroupByFamily(events);
    var summaries: seq<Summary> := [];
    for k := 0 to |FAMILIES|
      invariant |summaries| == k && forall j :: 0 <= j < k ==> Summarises(events, FAMILIES[j], summaries[j])
      invariant forall j, d :: 0 <= j < k && d in byFamily[FAMILIES[j]] ==> d >= WINDOW_DAYS
    {
      var family := FAMILIES[k];
      var summary := SummariseFamily(events, family, byFamily[family]);
      if summary.None? {
        var d :| d in byFamily[family] && d < WINDOW_DAYS;
        EarlyEvent(events, family, byFamily[family], d);
        return None;
      }
      summaries := summaries + [summary.value];
    }
    NoneEarly(events, byFamily);
    return Some(summaries);
  }

  lemma EarlyEvent(events: seq<Observation>, family: Family, dates: seq<int>, d: int)
    requires DaysOf(dates) == AdverseDays(events, family) && d in dates && d < WINDOW_DAYS
    ensures TooEarly(events)
  {
    assert d in DaysOf(dates);
    var i :| 0 <= i < |events| && events[i].adverse && events[i].family == family && events[i].day == d;
    assert events[i] in events;
  }

  lemma NoneEarly(events: seq<Observation>, byFamily: map<Family, seq<int>>)
    requires forall f: Family :: f in byFamily && DaysOf(byFamily[f]) == AdverseDays(events, f)
    requires forall j, d :: 0 <= j < |FAMILIES| && d in byFamily[FAMILIES[j]] ==> d >= WINDOW_DAYS
    ensures !TooEarly(events)
  {
    forall e | e in events && e.adverse ensures e.day >= WINDOW_DAYS {
      var i :| 0 <= i < |events| && events[i] == e;
      assert e.day in AdverseDays(events, e.family);
      assert e.day in DaysOf(byFamily[e.family]);
      AllFamilies(e.family);
      var j :| 0 <= j < |FAMILIES| && FAMILIES[j] == e.family;
      assert e.day in byFamily[FAMILIES[j]];
    }
  }
}
