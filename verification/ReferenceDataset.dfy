/** The complete data set (cohorts.py): the generator satisfies its own validator. */
module ReferenceDataset {
  import opened Prelude
  import opened Ordering
  import opened Runtime
  import opened Persistence
  import opened ReferenceSignals
  import opened ReferenceStream
  import opened ReferenceLabels
  import opened ReferenceCohorts

  const MINIMUM_DAYS := CROSSING_DAY + 1

  // ---------- how each cohort behaves ----------

  lemma DeterioratingEvents(s: Stream, b: nat, d: nat)
    requires s.Valid() && b < |s.borrowers| && d < s.days && s.cohorts[s.borrowers[b].id].Deteriorating?
    ensures s.EventOf(b, d, UTILISATION_NUMBER).magnitude == DeterioratingValue(d, s.source.jitter(b + 1, d, Utilisation), Utilisation)
    ensures s.EventOf(b, d, PAYMENT_NUMBER).magnitude == (2 + d / 8) * ONE
  {
    assert FAMILIES[UTILISATION_NUMBER] == Utilisation && FAMILIES[PAYMENT_NUMBER] == Payment;
  }

  /** Values within one quantum of the utilisation line climb as soon as there are two. */
  lemma NearLineClimbs(u: seq<int>)
    requires u != [] && forall d :: 0 <= d < |u| ==>
      57_990_000 + d * 80_000 <= u[d] <= 58_010_000 + d * 80_000
    ensures Climbs(u) <==> |u| >= 2
  {}

  lemma PaymentClimbs(p: seq<int>)
    requires p != [] && forall d :: 0 <= d < |p| ==> p[d] == (2 + d / 8) * ONE
    ensures Climbs(p) <==> |p| >= 9
  {}

  /** Whatever the noise, both trajectories climb exactly from nine days on. */
  lemma DeterioratingClimb(s: Stream, b: nat)
    requires s.Valid() && b < |s.borrowers| && s.cohorts[s.borrowers[b].id].Deteriorating?
    ensures TrajectoriesClimb(s, b) <==> s.days >= 9
  {
    hide DeterioratingValue, Stream.Valid, Stream.EventOf, Climbs;
    var u, p := Magnitudes(s.FamilyEvents(b, UTILISATION_NUMBER)), Magnitudes(s.FamilyEvents(b, PAYMENT_NUMBER));
    AtLeastOneDay(s);
    forall d | 0 <= d < s.days
      ensures p[d] == (2 + d / 8) * ONE && 57_990_000 + d * 80_000 <= u[d] <= 58_010_000 + d * 80_000
    {
      DeterioratingEvents(s, b, d);
      UtilisationNearLine(d, s.source.jitter(b + 1, d, Utilisation));
    }
    NearLineClimbs(u);
    PaymentClimbs(p);
  }

  lemma AtLeastOneDay(s: Stream)
    requires s.Valid()
    ensures s.days >= 1 && s.start >= 1
  {}

  lemma StableStays(s: Stream, b: nat)
    requires s.Valid() && b < |s.borrowers| && s.cohorts[s.borrowers[b].id].Stable?
    ensures AllInBand(s.BorrowerEvents(b))
  {
    hide StableValue, InStableBand;
    var events := s.BorrowerEvents(b);
    forall i | 0 <= i < |events| ensures InStableBand(events[i].family, events[i].magnitude) {
      StableInBand(s.source.jitter(b + 1, i / 7, FAMILIES[i % 7]), FAMILIES[i % 7]);
    }
  }

  /** The days of the two spikes, as dates of the stream. */
  function SpikeDays(s: Stream, family: Family): set<int>
  {
    set d | d in Spikes(family) :: s.start + d
  }

  lemma NoisyEvent(s: Stream, b: nat, i: nat)
    requires s.Valid() && b < |s.borrowers| && i < s.PerBorrower() && s.cohorts[s.borrowers[b].id].NoisyTransient?
    ensures var e := s.EventOf(b, i / 7, i % 7);
            e.family == FAMILIES[i % 7] && e.day == s.start + i / 7 && (e.adverse <==> i / 7 in Spikes(e.family))
  {
    hide NoisyValue, Spikes, Threshold;
    NoisyAdverseOnSpikes(i / 7, s.source.jitter(b + 1, i / 7, FAMILIES[i % 7]), FAMILIES[i % 7]);
  }

  /** Event `i` of a noisy borrower, if adverse, falls on a spike day, never in the first month of the calendar. */
  lemma NoisyObservation(s: Stream, b: nat, i: nat)
    requires s.Valid() && b < |s.borrowers| && i < s.PerBorrower() && s.cohorts[s.borrowers[b].id].NoisyTransient?
    ensures var o := Observed(s.BorrowerEvents(b))[i];
            o.adverse ==> o.day in SpikeDays(s, o.family) && o.day >= WINDOW_DAYS
  {
    hide Stream.Valid, Stream.EventOf, Spikes, FAMILIES;
    NoisyEvent(s, b, i);
    AtLeastOneDay(s);
    var e := s.EventOf(b, i / 7, i % 7);
    if e.adverse { SpikesLate(e.family, i / 7); }
  }

  /** A noisy borrower is adverse in a family on at most its two spike days. */
  lemma NoisyDays(s: Stream, b: nat, family: Family)
    requires s.Valid() && b < |s.borrowers| && s.cohorts[s.borrowers[b].id].NoisyTransient?
    ensures AdverseDays(Observed(s.BorrowerEvents(b)), family) <= SpikeDays(s, family)
    ensures !TooEarly(Observed(s.BorrowerEvents(b)))
  {
    hide Stream.Valid, Stream.BorrowerEvents, SpikeDays, Observed;
    var seen := Observed(s.BorrowerEvents(b));
    forall i | 0 <= i < |seen| ensures seen[i].adverse ==> seen[i].day in SpikeDays(s, seen[i].family) && seen[i].day >= WINDOW_DAYS {
      NoisyObservation(s, b, i);
    }
  }

  lemma SpikesLate(family: Family, d: nat)
    requires d in Spikes(family)
    ensures d >= WINDOW_DAYS
  {}

  /** Two days, far apart. */
  lemma SpikesApart(s: Stream, family: Family)
    ensures |SpikeDays(s, family)| == 2
    ensures forall x, y :: x in SpikeDays(s, family) && y in SpikeDays(s, family) && x < y ==> y > x + 1
  {
    match family
    case AccountActivity => TwoDays(s.start, 30, 250, Spikes(family));
    case Payment => TwoDays(s.start, 45, 180, Spikes(family));
    case Utilisation => TwoDays(s.start, 90, 240, Spikes(family));
    case Treasury => TwoDays(s.start, 130, 300, Spikes(family));
    case Concentration => TwoDays(s.start, 70, 210, Spikes(family));
    case Industry => TwoDays(s.start, 110, 280, Spikes(family));
    case News => TwoDays(s.start, 150, 330, Spikes(family));
  }

  lemma TwoDays(start: int, a: nat, b: nat, spikes: map<nat, int>)
    requires spikes.Keys == {a, b} && a + 1 < b
    ensures var days := set d | d in spikes :: start + d;
            |days| == 2 && forall x, y :: x in days && y in days && x < y ==> y > x + 1
  {
    var days := set d | d in spikes :: start + d;
    assert a in spikes && b in spikes;
    assert days == {start + a, start + b};
  }

  /** Two separate days are neither a run nor enough events to be sustained. */
  lemma ApartIsTransient(days: set<int>, spikes: set<int>, run: nat, count: nat)
    requires days <= spikes && |spikes| == 2
    requires forall x, y :: x in spikes && y in spikes && x < y ==> y > x + 1
    requires IsLongestRun(days, run) && IsGreatestCount(days, count)
    ensures run <= 1 && count <= 2
  {
    var start :| IsRun(days, start, run);
    assert run >= 2 ==> start in days && start + 1 in days;
    var from :| |Window(days, from)| == count;
    Subset(Window(days, from), spikes);
  }

  /** No noisy borrower is ever sustained in any family. */
  lemma NoisyStaysTransient(s: Stream, b: nat)
    requires s.Valid() && b < |s.borrowers| && s.cohorts[s.borrowers[b].id].NoisyTransient?
    ensures OnlyTransient(Observed(s.BorrowerEvents(b)))
  {
    hide Stream.Valid, Stream.EventOf, Stream.BorrowerEvents, SpikeDays, AdverseDays, TooEarly, IsLongestRun, IsGreatestCount;
    var seen := Observed(s.BorrowerEvents(b));
    NoisyDays(s, b, News);
    forall k, summary | 0 <= k < |FAMILIES| && Summarises(seen, FAMILIES[k], summary) ensures !summary.sustained {
      var family := FAMILIES[k];
      NoisyDays(s, b, family);
      SpikesApart(s, family);
      ApartIsTransient(AdverseDays(seen, family), SpikeDays(s, family), summary.consecutive, summary.inWindow);
    }
  }

  /** From nine days on every borrower behaves as its cohort demands, whatever the noise. */
  lemma AllBehave(s: Stream, b: nat)
    requires s.Valid() && s.days >= 9 && b < |s.borrowers|
    ensures s.borrowers[b].id in s.cohorts && BehavesAs(s, b, s.cohorts[s.borrowers[b].id])
  {
    hide Stream.BorrowerEvents, TrajectoriesClimb, OnlyTransient, AllInBand, Observed;
    assert s.borrowers[b].id in IdSet(s.borrowers);
    match s.cohorts[s.borrowers[b].id]
    case Deteriorating => DeterioratingClimb(s, b);
    case NoisyTransient => NoisyStaysTransient(s, b);
    case Stable => StableStays(s, b);
    case TemplatedRemainder =>
  }

  lemma AllKept(s: Stream, assignments: seq<Assignment>)
    requires s.Valid() && s.days >= 9 && Matches(s, assignments)
    ensures forall i :: 0 <= i < |assignments| ==> AssignmentKept(s, assignments[i])
  {
    hide Stream.Valid, BehavesAs, NumberOf;
    forall i | 0 <= i < |assignments| ensures AssignmentKept(s, assignments[i]) {
      AllBehave(s, i);
      NumberFound(s, i);
    }
  }

  // ---------- the labels ----------

  /** One label for each deteriorating borrower among the first `n`. */
  function StreamRows(s: Stream, n: nat): seq<Label>
    requires s.Valid() && n <= |s.borrowers| && s.days > CROSSING_DAY
  {
    if n == 0 then [] else
    assert s.borrowers[n - 1].id in IdSet(s.borrowers);
    StreamRows(s, n - 1)
    + if s.cohorts[s.borrowers[n - 1].id].Deteriorating? then [CrossingLabel(s, n - 1)] else []
  }

  /** References that agree with the portfolio, or none at all. */
  predicate Consistent(s: Stream, references: map<Uuid, string>)
  {
    forall b :: 0 <= b < |s.borrowers| && s.borrowers[b].id in references ==> references[s.borrowers[b].id] == s.borrowers[b].reference
  }

  lemma LabelOfBorrower(rt: Runtime, s: Stream, b: nat, references: map<Uuid, string>)
    requires s.Valid() && b < |s.borrowers| && s.cohorts[s.borrowers[b].id].Deteriorating?
    requires s.source.Lawful() && NoBlankReference(rt, s.borrowers) && Consistent(s, references)
    ensures LabelFor(rt, s, s.borrowers[b].id, references)
         == if s.days > CROSSING_DAY then Ok(CrossingLabel(s, b)) else Err(NeverCrosses)
  {
    hide DeterioratingValue, Stream.FamilyEvents, FirstCrossing, IsDigest;
    UtilisationEvents(s, b);
    NumberFound(s, b);
  }

  lemma NumberFound(s: Stream, b: nat)
    requires s.Valid() && b < |s.borrowers|
    ensures NumberOf(s.borrowers, s.borrowers[b].id) == Some(b)
  {
    hide NumberOf;
    var r := NumberOf(s.borrowers, s.borrowers[b].id);
    assert r.Some?;
  }

  lemma {:induction false} RowsOnStream(rt: Runtime, s: Stream, assignments: seq<Assignment>, references: map<Uuid, string>, n: nat)
    requires s.Valid() && Matches(s, assignments) && n <= |assignments|
    requires s.source.Lawful() && NoBlankReference(rt, s.borrowers) && Consistent(s, references)
    ensures s.days > CROSSING_DAY ==> Rows(rt, s, Pairs(assignments)[..n], references) == Ok(StreamRows(s, n))
    ensures s.days <= CROSSING_DAY && (exists b :: 0 <= b < n && assignments[b].cohort.Deteriorating?) ==>
              Rows(rt, s, Pairs(assignments)[..n], references) == Err(NeverCrosses)
  {
    hide LabelFor, Stream.Valid, Source.Lawful, NoBlankReference, Consistent, CrossingLabel;
    if n > 0 {
      var pairs := Pairs(assignments)[..n];
      assert pairs[..n - 1] == Pairs(assignments)[..n - 1];
      RowsOnStream(rt, s, assignments, references, n - 1);
      assert s.borrowers[n - 1].id in s.cohorts && assignments[n - 1].cohort == s.cohorts[s.borrowers[n - 1].id];
      assert pairs[n - 1] == (s.borrowers[n - 1].id, assignments[n - 1].cohort);
      if assignments[n - 1].cohort.Deteriorating? { LabelOfBorrower(rt, s, n - 1, references); }
      if s.days > CROSSING_DAY { assert StreamRows(s, n - 1) + [] == StreamRows(s, n - 1); }
      if s.days <= CROSSING_DAY { OnlyFailureIsCrossing(rt, s, assignments, references, n - 1); }
    }
  }

  lemma {:induction false} OnlyFailureIsCrossing(rt: Runtime, s: Stream, assignments: seq<Assignment>, references: map<Uuid, string>, n: nat)
    requires s.Valid() && Matches(s, assignments) && n <= |assignments|
    requires s.source.Lawful() && NoBlankReference(rt, s.borrowers) && Consistent(s, references)
    ensures Rows(rt, s, Pairs(assignments)[..n], references).Err? ==>
              Rows(rt, s, Pairs(assignments)[..n], references) == Err(NeverCrosses)
  {
    hide LabelFor, Stream.Valid, Source.Lawful, NoBlankReference, Consistent;
    if n > 0 {
      assert Pairs(assignments)[..n][..n - 1] == Pairs(assignments)[..n - 1];
      OnlyFailureIsCrossing(rt, s, assignments, references, n - 1);
      assert s.borrowers[n - 1].id in s.cohorts;
      if assignments[n - 1].cohort.Deteriorating? { LabelOfBorrower(rt, s, n - 1, references); }
    }
  }

  /** Labels of different borrowers carry different ids. */
  lemma {:induction false} StreamRowsOneEach(s: Stream, n: nat)
    requires s.Valid() && n <= |s.borrowers| && s.days > CROSSING_DAY
    ensures OneEach(StreamRows(s, n))
    ensures forall row :: row in StreamRows(s, n) ==> exists b :: 0 <= b < n && row.borrowerId == s.borrowers[b].id
  {
    hide Stream.EventOf;
    if n > 0 {
      StreamRowsOneEach(s, n - 1);
      var before := StreamRows(s, n - 1);
      assert s.borrowers[n - 1].id in IdSet(s.borrowers);
      LabelNames(s, n - 1);
      forall i | 0 <= i < |before| ensures before[i].borrowerId != s.borrowers[n - 1].id {
        assert before[i] in before;
      }
    }
  }

  lemma LabelNames(s: Stream, b: nat)
    requires s.Valid() && b < |s.borrowers| && s.days > CROSSING_DAY
    ensures var row := CrossingLabel(s, b);
            row.borrowerId == s.borrowers[b].id && row.reference == s.borrowers[b].reference && row.breachDay == s.start + CROSSING_DAY
  {
    hide ValueFor;
  }

  /** There is one label for each borrower of the first cohort. */
  lemma {:induction false} LabelCount(s: Stream, assignments: seq<Assignment>, size: nat, n: nat)
    requires s.Valid() && s.days > CROSSING_DAY && Matches(s, assignments) && size >= 1
    requires Assigns(s.borrowers, size, assignments) && n <= |s.borrowers|
    ensures |StreamRows(s, n)| == Min(n, size)
  {
    hide Stream.EventOf, CohortAt;
    if n > 0 {
      LabelCount(s, assignments, size, n - 1);
      CohortBlocks(n - 1, size);
      assert assignments[n - 1].cohort == s.cohorts[s.borrowers[n - 1].id];
    }
  }

  lemma OneEachPermuted(a: seq<Label>, b: seq<Label>)
    requires multiset(a) == multiset(b) && OneEach(a)
    ensures OneEach(b)
  {
    RepeatsPermuted(a, b);
    forall i, j | 0 <= i < j < |b| ensures b[i].borrowerId != b[j].borrowerId {
      assert b[i] in multiset(b) && b[j] in multiset(b);
      assert b[i] in a && b[j] in a;
      assert b[i] != b[j];
    }
  }

  /** The labels derived on a generated stream, with the portfolio's references or with none. */
  lemma DerivedOnStream(rt: Runtime, s: Stream, assignments: seq<Assignment>, references: map<Uuid, string>)
    requires s.Valid() && Matches(s, assignments) && AllAuthored(assignments)
    requires s.source.Lawful() && NoBlankReference(rt, s.borrowers) && Consistent(s, references)
    ensures s.days > CROSSING_DAY ==>
              Derived(rt, s, Pairs(assignments), references) == Ok(SortWith(LabelLess, StreamRows(s, |s.borrowers|)))
    ensures s.days <= CROSSING_DAY ==> Derived(rt, s, Pairs(assignments), references).Err?
  {
    hide Stream.Valid, Rows, StreamRows, NoBlankReference, Source.Lawful, Consistent, LabelLess;
    RowsOnStream(rt, s, assignments, references, |assignments|);
    assert Pairs(assignments)[..|assignments|] == Pairs(assignments);
    if s.days > CROSSING_DAY {
      StreamRowsOneEach(s, |s.borrowers|);
      OneEachPermuted(StreamRows(s, |s.borrowers|), SortWith(LabelLess, StreamRows(s, |s.borrowers|)));
    } else {
      assert AUTHORED[0] == Deteriorating && Deteriorating in AUTHORED;
    }
  }

  /** The label names a deteriorating borrower and its reference. */
  predicate LabelledBorrower(s: Stream, row: Label)
    requires s.Valid()
  {
    exists b :: 0 <= b < |s.borrowers| && s.borrowers[b] == Borrower(row.borrowerId, row.reference)
      && row.borrowerId in s.cohorts && s.cohorts[row.borrowerId].Deteriorating?
  }

  /**
   * The labels of a generated stream, in any order of its events: each is dated on day index 338 of the history and
   * carries the event of a deteriorating borrower, and each deteriorating borrower has exactly one.
   */
  lemma LabelsExact(rt: Runtime, s: Stream, assignments: seq<Assignment>, references: map<Uuid, string>)
    requires s.Valid() && s.days > CROSSING_DAY && Matches(s, assignments) && AllAuthored(assignments)
    requires s.source.Lawful() && NoBlankReference(rt, s.borrowers) && Consistent(s, references)
    ensures Derived(rt, s, Pairs(assignments), references).Ok?
    ensures var rows := Derived(rt, s, Pairs(assignments), references).value;
            && OneEach(rows)
            && (forall row :: row in rows ==> row.breachDay == END_DAY - s.days + 339)
            && (forall row :: row in rows ==> LabelledBorrower(s, row))
            && (forall b :: 0 <= b < |s.borrowers| && s.cohorts[s.borrowers[b].id].Deteriorating? ==>
                  exists row :: row in rows && row.borrowerId == s.borrowers[b].id)
  {
    hide Rows, StreamRows, NoBlankReference, Source.Lawful, Consistent, LabelLess, Matches, AllAuthored, Derived;
    DerivedOnStream(rt, s, assignments, references);
    var made := StreamRows(s, |s.borrowers|);
    var rows := SortWith(LabelLess, made);
    StreamRowsOneEach(s, |s.borrowers|);
    OneEachPermuted(made, rows);
    forall row ensures row in rows <==> row in made { assert row in multiset(rows) <==> row in multiset(made); }
    CohortsKnown(s);
    hide Stream.Valid, OneEach, LabelledBorrower;
    StreamRowsMembers(s, |s.borrowers|);
    forall row | row in rows ensures row.breachDay == END_DAY - s.days + 339 && LabelledBorrower(s, row) {
      var b :| 0 <= b < |s.borrowers| && s.cohorts[s.borrowers[b].id].Deteriorating? && row == CrossingLabel(s, b);
      CrossingLabelled(s, b);
    }
    forall b | 0 <= b < |s.borrowers| && s.cohorts[s.borrowers[b].id].Deteriorating?
      ensures exists row :: row in rows && row.borrowerId == s.borrowers[b].id
    {
      LabelNames(s, b);
      assert CrossingLabel(s, b) in rows;
    }
  }

  lemma CohortsKnown(s: Stream)
    requires s.Valid()
    ensures forall b :: 0 <= b < |s.borrowers| ==> s.borrowers[b].id in s.cohorts
  {
    forall b | 0 <= b < |s.borrowers| ensures s.borrowers[b].id in s.cohorts { assert s.borrowers[b].id in IdSet(s.borrowers); }
  }

  lemma CrossingLabelled(s: Stream, b: nat)
    requires s.Valid() && s.days > CROSSING_DAY && b < |s.borrowers|
    requires s.borrowers[b].id in s.cohorts && s.cohorts[s.borrowers[b].id].Deteriorating?
    ensures CrossingLabel(s, b).breachDay == END_DAY - s.days + 339 && LabelledBorrower(s, CrossingLabel(s, b))
  {
    LabelNames(s, b);
  }

  /** The rows are the crossing labels of the deteriorating borrowers. */
  lemma {:induction false} StreamRowsMembers(s: Stream, n: nat)
    requires s.Valid() && n <= |s.borrowers| && s.days > CROSSING_DAY
    requires forall b :: 0 <= b < |s.borrowers| ==> s.borrowers[b].id in s.cohorts
    ensures forall row :: row in StreamRows(s, n) ==>
              exists b :: 0 <= b < n && s.cohorts[s.borrowers[b].id].Deteriorating? && row == CrossingLabel(s, b)
    ensures forall b :: 0 <= b < n && s.cohorts[s.borrowers[b].id].Deteriorating? ==> CrossingLabel(s, b) in StreamRows(s, n)
  {
    hide Stream.Valid, CrossingLabel;
    if n > 0 { StreamRowsMembers(s, n - 1); }
  }

  // ---------- the generator ----------

  lemma AuthoredPresent(borrowers: seq<Borrower>, size: nat, assignments: seq<Assignment>)
    requires size >= 1 && size * 3 <= |borrowers| && Assigns(borrowers, size, assignments)
    ensures AllAuthored(assignments)
  {
    CohortBlocks(0, size);
    CohortBlocks(size, size);
    CohortBlocks(2 * size, size);
    assert assignments[0].cohort == Deteriorating && assignments[size].cohort == NoisyTransient
        && assignments[2 * size].cohort == Stable;
  }

  /** What a portfolio needs, apart from enough days. */
  predicate Usable(rt: Runtime, portfolio: Portfolio, requested: Option<int>)
  {
    && ResolveSize(|portfolio.borrowers|, requested).Ok?
    && NoBlankReference(rt, portfolio.borrowers)
    && DistinctIds(portfolio.borrowers)
    && OwnerSet(portfolio.facilities) == IdSet(portfolio.borrowers)
  }

  /**
   * `generate_reference_cohorts` succeeds exactly for a usable portfolio and from 339 days up to the first
   * representable date, whatever the noise; the labels are then the day-338 events of the deteriorating borrowers.
   */
  method GenerateReferenceCohorts(rt: Runtime, source: Source, portfolio: Portfolio, requested: Option<int>, days: int)
      returns (r: Result<Dataset, CohortError>)
    requires source.Lawful()
    ensures r.Ok? <==> Usable(rt, portfolio, requested) && MINIMUM_DAYS <= days <= END_DAY
    ensures r.Ok? ==>
              var s := r.value.signals;
              s.Valid() && s.source == source && s.borrowers == portfolio.borrowers && s.days == days
              && Assigns(portfolio.borrowers, ResolveSize(|portfolio.borrowers|, requested).value, r.value.assignments)
              && Matches(s, r.value.assignments)
              && r.value.labels == SortWith(LabelLess, StreamRows(s, |s.borrowers|))
  {
    hide Stream.Valid, NoBlankReference, OwnerSet, IdSet, DistinctIds, Assigns, Matches, AllAuthored, ResolveSize, AssignmentKept,
         Lists, Derived, Agrees, OneEach, StreamRows, LabelLess, FirstFacilities, Source.Lawful, Consistent;
    var placed := AssignCohorts(rt, portfolio.borrowers, requested);
    if placed.Err? { return Err(placed.error); }
    var assignments := placed.value;
    AssignedFacts(rt, portfolio.borrowers, requested, assignments);
    var cohorts := CohortMap(assignments);
    MapFacts(portfolio.borrowers, assignments);
    if |cohorts| != |assignments| { return Err(TwoAssignments); }
    var stream := GenerateSignals(source, portfolio, cohorts, days);
    if stream.Err? { return Err(StreamFault(stream.error)); }
    var s := stream.value;
    StreamMatches(s, portfolio.borrowers, assignments);
    ReferencesConsistent(s);
    DerivedOnStream(rt, s, assignments, ReferenceMap(portfolio.borrowers));
    DerivedOnStream(rt, s, assignments, map[]);
    var labels := DeriveLabels(rt, s, Pairs(assignments), ReferenceMap(portfolio.borrowers));
    if labels.Err? { return Err(LabelFault(labels.error)); }
    DerivedOneEach(rt, s, Pairs(assignments), ReferenceMap(portfolio.borrowers));
    AgreesWithItself(labels.value);
    var dataset := Dataset(portfolio.borrowers, assignments, s, Pairs(assignments), labels.value);
    PairsList(s, assignments);
    assert s.days >= 9 ==> forall i :: 0 <= i < |assignments| ==> AssignmentKept(s, assignments[i]) by {
      if s.days >= 9 { AllKept(s, assignments); }
    }
    var fault := ValidateCohorts(rt, dataset);
    return Outcome(dataset, fault);
  }

  lemma PairsList(s: Stream, assignments: seq<Assignment>)
    requires s.Valid() && Matches(s, assignments)
    ensures Lists(Pairs(assignments), s.cohorts)
    ensures s.cohorts.Keys == IdSet(s.borrowers) && |assignments| == |s.borrowers|
  {
    hide IdSet;
    DistinctBySize(s.borrowers);
    assert |s.cohorts| == |s.cohorts.Keys|;
  }

  function Outcome(dataset: Dataset, fault: Option<CohortError>): Result<Dataset, CohortError>
  {
    match fault case None => Ok(dataset) case Some(error) => Err(error)
  }

  lemma AssignedFacts(rt: Runtime, borrowers: seq<Borrower>, requested: Option<int>, assignments: seq<Assignment>)
    requires ResolveSize(|borrowers|, requested).Ok? && ResolveSize(|borrowers|, requested).value >= 1
    requires Assigns(borrowers, ResolveSize(|borrowers|, requested).value, assignments)
    ensures AllAuthored(assignments) && assignments != [] && |assignments| == |borrowers|
    ensures forall i :: 0 <= i < |borrowers| ==> assignments[i].borrowerId == borrowers[i].id
  {
    AuthoredPresent(borrowers, ResolveSize(|borrowers|, requested).value, assignments);
  }

  lemma MapFacts(borrowers: seq<Borrower>, assignments: seq<Assignment>)
    requires |assignments| == |borrowers| && forall i :: 0 <= i < |borrowers| ==> assignments[i].borrowerId == borrowers[i].id
    ensures CohortMap(assignments).Keys == IdSet(borrowers)
    ensures |CohortMap(assignments)| == |assignments| <==> DistinctIds(borrowers)
  {
    CohortMapMeaning(borrowers, assignments);
    DistinctBySize(borrowers);
    assert |CohortMap(assignments)| == |CohortMap(assignments).Keys|;
  }

  lemma StreamMatches(s: Stream, borrowers: seq<Borrower>, assignments: seq<Assignment>)
    requires s.Valid() && s.borrowers == borrowers && s.cohorts == CohortMap(assignments)
    requires |assignments| == |borrowers| && forall i :: 0 <= i < |borrowers| ==> assignments[i].borrowerId == borrowers[i].id
    ensures Matches(s, assignments)
  {
    CohortMapMeaning(borrowers, assignments);
  }

  lemma ReferencesConsistent(s: Stream)
    requires s.Valid()
    ensures Consistent(s, ReferenceMap(s.borrowers)) && Consistent(s, map[])
  {
    ReferenceMapMeaning(s.borrowers);
  }
}
