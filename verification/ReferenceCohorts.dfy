/** Cohorts of the reference portfolio, their validation and the complete data set (evaluation/reference_portfolio/cohorts.py). */
module ReferenceCohorts {
  import opened Prelude
  import opened Runtime
  import opened Persistence
  import opened ReferenceSignals
  import opened ReferenceStream
  import opened ReferenceLabels

  const AUTHORED: seq<Profile> := [Deteriorating, NoisyTransient, Stable]
  const DEFAULT_SIZE := 100

  datatype Assignment = Assignment(borrowerId: Uuid, reference: string, cohort: Profile, ordinal: nat)

  datatype CohortError =
    | TooFewBorrowers
    | BadSize
    | NoRoom
    | BlankReference
    | TwoAssignments
    | StreamFault(streamError: StreamError)
    | LabelFault(labelError: LabelError)
    | Incomplete
    | EmptyCohort
    | BadCoverage
    | UnknownBorrower
    | BadTrajectory
    | PersistentNoise
    | OutOfBand
    | DateOverflow

  /** `cohorts` is the stream's cohort mapping, item by item in its own order. */
  datatype Dataset = Dataset(
    borrowers: seq<Borrower>,
    assignments: seq<Assignment>,
    signals: Stream,
    cohorts: seq<(Uuid, Profile)>,
    labels: seq<Label>)
  {
    /** What the parts' own constructors check. */
    predicate Valid()
    {
      signals.Valid() && Lists(cohorts, signals.cohorts)
    }
  }

  predicate Lists(items: seq<(Uuid, Profile)>, m: map<Uuid, Profile>)
  {
    |items| == |m| && forall i :: 0 <= i < |items| ==> items[i].0 in m && m[items[i].0] == items[i].1
  }

  /** `_resolve_authored_size`. */
  function ResolveSize(count: nat, requested: Option<int>): Result<nat, CohortError>
  {
    if count < 3 then Err(TooFewBorrowers)
    else if requested.Some? && requested.value < 1 then Err(BadSize)
    else
      var size: nat := if requested.Some? then requested.value else Min(DEFAULT_SIZE, Max(1, count / 10));
      if size * 3 > count then Err(NoRoom) else Ok(size)
  }

  /** Without an explicit size three borrowers are always enough. */
  lemma DefaultSizeFits(count: nat)
    ensures ResolveSize(count, None).Ok? <==> count >= 3
  {}

  function CohortAt(i: nat, size: nat): Profile
    requires size >= 1
  {
    if i < size * 3 then AUTHORED[i / size] else TemplatedRemainder
  }

  /** The authored cohorts are the first three blocks of `size` borrowers each. */
  lemma CohortBlocks(i: nat, size: nat)
    requires size >= 1
    ensures CohortAt(i, size) ==
            if i < size then Deteriorating else if i < 2 * size then NoisyTransient
            else if i < 3 * size then Stable else TemplatedRemainder
  {
    if i < size {
      DivisionUnique(i, size, 0, i);
    } else if i < 2 * size {
      DivisionUnique(i, size, 1, i - size);
    } else if i < 3 * size {
      DivisionUnique(i, size, 2, i - 2 * size);
    }
  }

  predicate NoBlankReference(rt: Runtime, borrowers: seq<Borrower>)
  {
    forall i :: 0 <= i < |borrowers| ==> rt.Strip(borrowers[i].reference) != ""
  }

  predicate Assigns(borrowers: seq<Borrower>, size: nat, assignments: seq<Assignment>)
    requires size >= 1
  {
    |assignments| == |borrowers| && forall i :: 0 <= i < |borrowers| ==>
      assignments[i] == Assignment(borrowers[i].id, borrowers[i].reference, CohortAt(i, size), i + 1)
  }

  method AssignCohorts(rt: Runtime, borrowers: seq<Borrower>, requested: Option<int>) returns (r: Result<seq<Assignment>, CohortError>)
    ensures r.Ok? <==> ResolveSize(|borrowers|, requested).Ok? && NoBlankReference(rt, borrowers)
    ensures r.Ok? ==> ResolveSize(|borrowers|, requested).value >= 1
    ensures r.Ok? ==> Assigns(borrowers, ResolveSize(|borrowers|, requested).value, r.value)
  {
    var size := ResolveSize(|borrowers|, requested);
    if size.Err? { return Err(size.error); }
    var assignments: seq<Assignment> := [];
    for i := 0 to |borrowers|
      invariant |assignments| == i
      invariant forall k :: 0 <= k < i ==> rt.Strip(borrowers[k].reference) != ""
      invariant forall k :: 0 <= k < i ==>
        assignments[k] == Assignment(borrowers[k].id, borrowers[k].reference, CohortAt(k, size.value), k + 1)
    {
      if rt.Strip(borrowers[i].reference) == "" { return Err(CohortError.BlankReference); }
      assignments := assignments + [Assignment(borrowers[i].id, borrowers[i].reference, CohortAt(i, size.value), i + 1)];
    }
    return Ok(assignments);
  }

  /** `{borrower id: cohort}`; a repeated id keeps its last cohort. */
  function CohortMap(assignments: seq<Assignment>): map<Uuid, Profile>
  {
    if assignments == [] then map[] else
    var last := assignments[|assignments| - 1];
    CohortMap(assignments[..|assignments| - 1])[last.borrowerId := last.cohort]
  }

  function ReferenceMap(borrowers: seq<Borrower>): map<Uuid, string>
  {
    if borrowers == [] then map[] else
    var last := borrowers[|borrowers| - 1];
    ReferenceMap(borrowers[..|borrowers| - 1])[last.id := last.reference]
  }

  function Pairs(assignments: seq<Assignment>): (r: seq<(Uuid, Profile)>)
    ensures |r| == |assignments|
  {
    seq(|assignments|, i requires 0 <= i < |assignments| => (assignments[i].borrowerId, assignments[i].cohort))
  }

  lemma {:induction false} CohortMapKeys(borrowers: seq<Borrower>, assignments: seq<Assignment>)
    requires |assignments| == |borrowers| && forall i :: 0 <= i < |borrowers| ==> assignments[i].borrowerId == borrowers[i].id
    ensures CohortMap(assignments).Keys == IdSet(borrowers)
  {
    if borrowers != [] {
      hide IdSet;
      var n := |borrowers| - 1;
      CohortMapKeys(borrowers[..n], assignments[..n]);
      IdSetStep(borrowers);
    } else {
      assert IdSet(borrowers) == {};
    }
  }

  lemma {:induction false} CohortMapValues(assignments: seq<Assignment>, i: nat)
    requires i < |assignments| && forall k :: i < k < |assignments| ==> assignments[k].borrowerId != assignments[i].borrowerId
    ensures assignments[i].borrowerId in CohortMap(assignments)
    ensures CohortMap(assignments)[assignments[i].borrowerId] == assignments[i].cohort
  {
    var n := |assignments| - 1;
    if i < n {
      assert assignments[..n][i] == assignments[i];
      CohortMapValues(assignments[..n], i);
    }
  }

  lemma CohortMapMeaning(borrowers: seq<Borrower>, assignments: seq<Assignment>)
    requires |assignments| == |borrowers| && forall i :: 0 <= i < |borrowers| ==> assignments[i].borrowerId == borrowers[i].id
    ensures CohortMap(assignments).Keys == IdSet(borrowers)
    ensures DistinctIds(borrowers) ==>
              forall i :: 0 <= i < |borrowers| ==> borrowers[i].id in CohortMap(assignments) && CohortMap(assignments)[borrowers[i].id] == assignments[i].cohort
  {
    hide CohortMap, IdSet;
    CohortMapKeys(borrowers, assignments);
    if DistinctIds(borrowers) {
      forall i | 0 <= i < |borrowers|
        ensures borrowers[i].id in CohortMap(assignments) && CohortMap(assignments)[borrowers[i].id] == assignments[i].cohort
      {
        CohortMapValues(assignments, i);
      }
    }
  }

  lemma IdSetStep(borrowers: seq<Borrower>)
    requires borrowers != []
    ensures IdSet(borrowers) == IdSet(borrowers[..|borrowers| - 1]) + {borrowers[|borrowers| - 1].id}
  {
    var n := |borrowers| - 1;
    var init := borrowers[..n];
    assert forall i :: 0 <= i < n ==> init[i] == borrowers[i];
    forall x | x in IdSet(init) ensures x in IdSet(borrowers) {
      var i :| 0 <= i < n && init[i].id == x;
      assert borrowers[i].id == x;
    }
    forall x | x in IdSet(borrowers) ensures x in IdSet(init) + {borrowers[n].id} {
      var i :| 0 <= i < |borrowers| && borrowers[i].id == x;
      assert i < n ==> init[i].id == x;
    }
  }

  lemma {:induction false} ReferenceMapMeaning(borrowers: seq<Borrower>)
    requires DistinctIds(borrowers)
    ensures forall i :: 0 <= i < |borrowers| ==>
              borrowers[i].id in ReferenceMap(borrowers) && ReferenceMap(borrowers)[borrowers[i].id] == borrowers[i].reference
  {
    if borrowers != [] {
      var n := |borrowers| - 1;
      ReferenceMapMeaning(borrowers[..n]);
      assert forall i :: 0 <= i < n ==> borrowers[..n][i] == borrowers[i];
    }
  }

  // ---------- validation ----------

  function Magnitudes(events: seq<SignalEvent>): (r: seq<int>)
    ensures |r| == |events|
  {
    seq(|events|, i requires 0 <= i < |events| => events[i].magnitude)
  }

  /** Not empty, higher at the end than at the start, and never falling in between. */
  predicate Climbs(values: seq<int>)
  {
    values != [] && values[|values| - 1] > values[0] && forall i :: 0 <= i < |values| - 1 ==> values[i] <= values[i + 1]
  }

  predicate TrajectoriesClimb(s: Stream, b: nat)
    requires s.Valid() && b < |s.borrowers|
  {
    Climbs(Magnitudes(s.FamilyEvents(b, UTILISATION_NUMBER))) && Climbs(Magnitudes(s.FamilyEvents(b, PAYMENT_NUMBER)))
  }

  function Observed(events: seq<SignalEvent>): (r: seq<Observation>)
    ensures |r| == |events|
  {
    seq(|events|, i requires 0 <= i < |events| => Observation(events[i].family, events[i].day, events[i].adverse))
  }

  /** No family's evidence is sustained. */
  ghost predicate OnlyTransient(events: seq<Observation>)
  {
    !TooEarly(events) && forall k, s :: 0 <= k < |FAMILIES| && Summarises(events, FAMILIES[k], s) ==> !s.sustained
  }

  predicate AllInBand(events: seq<SignalEvent>)
  {
    forall i :: 0 <= i < |events| ==> InStableBand(events[i].family, events[i].magnitude)
  }

  /** The cohort checks for borrower `b` when it is placed in `cohort`. */
  ghost predicate BehavesAs(s: Stream, b: nat, cohort: Profile)
    requires s.Valid() && b < |s.borrowers|
  {
    match cohort
    case Deteriorating => TrajectoriesClimb(s, b)
    case NoisyTransient => OnlyTransient(Observed(s.BorrowerEvents(b)))
    case Stable => AllInBand(s.BorrowerEvents(b))
    case TemplatedRemainder => true
  }

  /** The checks of one assignment: outside the remainder it names a borrower of the stream that behaves. */
  ghost predicate AssignmentKept(s: Stream, a: Assignment)
    requires s.Valid()
  {
    a.cohort.TemplatedRemainder?
    || (NumberOf(s.borrowers, a.borrowerId).Some? && BehavesAs(s, NumberOf(s.borrowers, a.borrowerId).value, a.cohort))
  }

  /** Assignments list the stream's borrowers in order, with their cohorts. */
  predicate Matches(s: Stream, assignments: seq<Assignment>)
    requires s.Valid()
  {
    |assignments| == |s.borrowers| && forall i :: 0 <= i < |assignments| ==>
      s.borrowers[i].id in s.cohorts && assignments[i].borrowerId == s.borrowers[i].id
      && assignments[i].cohort == s.cohorts[s.borrowers[i].id]
  }

  ghost predicate Climbing(s: Stream, a: Assignment)
    requires s.Valid()
  {
    a.cohort.Deteriorating? ==> AssignmentKept(s, a)
  }

  ghost predicate Quiet(s: Stream, a: Assignment)
    requires s.Valid()
  {
    a.cohort.NoisyTransient? || a.cohort.Stable? ==> AssignmentKept(s, a)
  }

  method CheckTrajectories(s: Stream, assignments: seq<Assignment>) returns (fault: Option<CohortError>)
    requires s.Valid()
    ensures fault.None? <==> forall i :: 0 <= i < |assignments| ==> Climbing(s, assignments[i])
    ensures fault != Some(Incomplete)
  {
    hide Stream.Valid, Stream.FamilyEvents, Climbs, NumberOf;
    for i := 0 to |assignments|
      invariant forall k :: 0 <= k < i ==> Climbing(s, assignments[k])
    {
      ghost var climbing := Climbing(s, assignments[i]);
      if !assignments[i].cohort.Deteriorating? { continue; }
      var number := NumberOf(s.borrowers, assignments[i].borrowerId);
      if number.None? { return Some(CohortError.UnknownBorrower); }
      var utilisation := Magnitudes(s.FamilyEvents(number.value, UTILISATION_NUMBER));
      var payment := Magnitudes(s.FamilyEvents(number.value, PAYMENT_NUMBER));
      assert climbing <==> TrajectoriesClimb(s, number.value);
      if !Climbs(utilisation) { return Some(BadTrajectory); }
      if !Climbs(payment) { return Some(BadTrajectory); }
    }
    return None;
  }

  method CheckNoisy(events: seq<SignalEvent>) returns (fault: Option<CohortError>)
    ensures fault.None? <==> OnlyTransient(Observed(events))
    ensures fault != Some(Incomplete)
  {
    hide Summarises, Observed;
    var summaries := Summarise(Observed(events));
    if summaries.None? { return Some(CohortError.DateOverflow); }
    forall k, s | 0 <= k < |FAMILIES| && Summarises(Observed(events), FAMILIES[k], s) ensures s == summaries.value[k] {
      SummaryUnique(Observed(events), FAMILIES[k], s, summaries.value[k]);
    }
    if exists k :: 0 <= k < |summaries.value| && summaries.value[k].sustained { return Some(PersistentNoise); }
    return None;
  }

  method CheckQuiet(s: Stream, assignments: seq<Assignment>) returns (fault: Option<CohortError>)
    requires s.Valid()
    ensures fault.None? <==> forall i :: 0 <= i < |assignments| ==> Quiet(s, assignments[i])
    ensures fault != Some(Incomplete)
  {
    hide Stream.Valid, Stream.BorrowerEvents, OnlyTransient, AllInBand, Observed, NumberOf;
    for i := 0 to |assignments|
      invariant forall k :: 0 <= k < i ==> Quiet(s, assignments[k])
    {
      ghost var quiet := Quiet(s, assignments[i]);
      var cohort := assignments[i].cohort;
      if cohort.Deteriorating? || cohort.TemplatedRemainder? { continue; }
      var number := NumberOf(s.borrowers, assignments[i].borrowerId);
      if number.None? { return Some(CohortError.UnknownBorrower); }
      var events := s.BorrowerEvents(number.value);
      if cohort.NoisyTransient? {
        var noisy := CheckNoisy(events);
        if noisy.Some? { return noisy; }
      } else {
        var inside := CheckBand(events);
        if !inside { return Some(OutOfBand); }
      }
    }
    return None;
  }

  method CheckBand(events: seq<SignalEvent>) returns (inside: bool)
    ensures inside <==> AllInBand(events)
  {
    for i := 0 to |events|
      invariant forall k :: 0 <= k < i ==> InStableBand(events[k].family, events[k].magnitude)
    {
      if !InStableBand(events[i].family, events[i].magnitude) { return false; }
    }
    return true;
  }

  predicate AllAuthored(assignments: seq<Assignment>)
  {
    forall p :: p in AUTHORED ==> exists i :: 0 <= i < |assignments| && assignments[i].cohort == p
  }

  /** Every sampled borrower has an event of every family on every day. */
  predicate Covers(s: Stream, b: nat)
    requires s.Valid() && b < |s.borrowers|
  {
    var events := s.BorrowerEvents(b);
    |events| == s.PerBorrower() && (set i | 0 <= i < |events| :: events[i].family) == (set f | f in FAMILIES)
  }

  /** The first assignment to a cohort. */
  function FirstOf(assignments: seq<Assignment>, cohort: Profile): (i: nat)
    requires exists k :: 0 <= k < |assignments| && assignments[k].cohort == cohort
    ensures i < |assignments| && assignments[i].cohort == cohort
  {
    if assignments[0].cohort == cohort then 0 else
    assert exists k :: 0 <= k < |assignments[1..]| && assignments[1..][k].cohort == cohort by {
      var k :| 0 <= k < |assignments| && assignments[k].cohort == cohort;
      assert assignments[1..][k - 1].cohort == cohort;
    }
    1 + FirstOf(assignments[1..], cohort)
  }

  /** `_validate_stream_coverage`: the size of the stream, then the events of sampled borrowers. */
  method CheckCoverage(dataset: Dataset) returns (fault: Option<CohortError>)
    requires dataset.Valid() && Complete(dataset) && AllAuthored(dataset.assignments)
    ensures fault.None? <==>
              && |dataset.signals.borrowers| == |dataset.borrowers|
              && forall p :: p in AUTHORED ==>
                   dataset.assignments[FirstOf(dataset.assignments, p)].borrowerId in IdSet(dataset.signals.borrowers)
    ensures fault != Some(Incomplete)
  {
    hide Stream.Valid, Covers, IdSet, FirstOf;
    var s, borrowers, assignments := dataset.signals, dataset.borrowers, dataset.assignments;
    StreamIds(s);
    SameLength(|s.borrowers|, |borrowers|, s.days);
    if s.Length() != |borrowers| * s.PerBorrower() { return Some(BadCoverage); }
    assert Deteriorating in AUTHORED by { assert AUTHORED[0] == Deteriorating; }
    InIdSet(borrowers, 0);
    InIdSet(borrowers, |borrowers| - 1);
    var ends := CheckSample(s, borrowers, borrowers[0].id);
    if ends.Some? { return ends; }
    ends := CheckSample(s, borrowers, borrowers[|borrowers| - 1].id);
    if ends.Some? { return ends; }
    for p := 0 to |AUTHORED|
      invariant forall k :: 0 <= k < p ==>
        AUTHORED[k] in AUTHORED && assignments[FirstOf(assignments, AUTHORED[k])].borrowerId in IdSet(s.borrowers)
    {
      assert AUTHORED[p] in AUTHORED;
      var sample := CheckSample(s, borrowers, assignments[FirstOf(assignments, AUTHORED[p])].borrowerId);
      if sample.Some? { return sample; }
    }
    return None;
  }

  lemma InIdSet(borrowers: seq<Borrower>, i: int)
    requires 0 <= i < |borrowers|
    ensures borrowers[i].id in IdSet(borrowers)
  {}

  lemma StreamIds(s: Stream)
    requires s.Valid()
    ensures s.cohorts.Keys == IdSet(s.borrowers) && s.days >= 1
  {}

  lemma SameLength(m: nat, n: nat, days: nat)
    requires days >= 1
    ensures m * (days * 7) == n * (days * 7) <==> m == n
  {
    if m != n { assert (m - n) * (days * 7) != 0; }
  }

  method CheckSample(s: Stream, borrowers: seq<Borrower>, id: Uuid) returns (fault: Option<CohortError>)
    requires s.Valid() && IdSet(borrowers) == IdSet(s.borrowers)
    ensures fault.None? <==> id in IdSet(s.borrowers)
    ensures fault != Some(Incomplete)
  {
    hide Stream.Valid, Covers, NumberOf;
    var known := NumberOf(borrowers, id);
    if known.None? { return Some(CohortError.UnknownBorrower); }
    assert id in IdSet(borrowers);
    var number := NumberOf(s.borrowers, id);
    assert number.Some?;
    AlwaysCovered(s, number.value);
    if !Covers(s, number.value) { return Some(BadCoverage); }
    return None;
  }

  /** As many assignments as borrowers, and cohorts for exactly their ids. */
  predicate Complete(dataset: Dataset)
  {
    |dataset.assignments| == |dataset.borrowers| && dataset.signals.cohorts.Keys == IdSet(dataset.borrowers)
  }

  /** What `validate_cohorts` demands of a data set. */
  ghost predicate Coherent(rt: Runtime, dataset: Dataset)
    requires dataset.Valid()
  {
    var s, assignments := dataset.signals, dataset.assignments;
    && Complete(dataset) && |s.borrowers| == |dataset.borrowers|
    && AllAuthored(assignments)
    && (forall i :: 0 <= i < |assignments| ==> AssignmentKept(s, assignments[i]))
    && Derived(rt, s, dataset.cohorts, map[]).Ok?
    && Agrees(dataset.labels, Derived(rt, s, dataset.cohorts, map[]).value)
  }

  /** `validate_cohorts`: None when every check passes. */
  method ValidateCohorts(rt: Runtime, dataset: Dataset) returns (fault: Option<CohortError>)
    requires dataset.Valid()
    ensures fault.None? <==> Coherent(rt, dataset)
    ensures fault == Some(Incomplete) <==> !Complete(dataset)
  {
    hide Stream.Valid, AssignmentKept, Derived, Agrees, IdSet, FirstOf, NumberOf;
    var s, assignments := dataset.signals, dataset.assignments;
    if |assignments| != |dataset.borrowers| { return Some(Incomplete); }
    if s.cohorts.Keys != IdSet(dataset.borrowers) { return Some(Incomplete); }
    if !AllAuthored(assignments) { return Some(EmptyCohort); }
    SampledKnown(s, assignments);
    KeptParts(s, assignments);
    fault := CheckCoverage(dataset);
    if fault.Some? { return; }
    fault := CheckTrajectories(s, assignments);
    if fault.Some? { return; }
    fault := CheckQuiet(s, assignments);
    if fault.Some? { return; }
    var wrong := VerifyLabels(rt, dataset.labels, s, dataset.cohorts);
    fault := if wrong.Some? then Some(LabelFault(wrong.value)) else None;
  }

  /** When all assignments are kept, the sampled ones name borrowers of the stream. */
  lemma SampledKnown(s: Stream, assignments: seq<Assignment>)
    requires s.Valid() && AllAuthored(assignments)
    ensures (forall i :: 0 <= i < |assignments| ==> AssignmentKept(s, assignments[i])) ==>
              forall p :: p in AUTHORED ==> assignments[FirstOf(assignments, p)].borrowerId in IdSet(s.borrowers)
  {
    hide Stream.Valid, NumberOf, BehavesAs, FirstOf;
    if forall i :: 0 <= i < |assignments| ==> AssignmentKept(s, assignments[i]) {
      forall p | p in AUTHORED ensures assignments[FirstOf(assignments, p)].borrowerId in IdSet(s.borrowers) {
        assert AssignmentKept(s, assignments[FirstOf(assignments, p)]);
      }
    }
  }

  lemma KeptParts(s: Stream, assignments: seq<Assignment>)
    requires s.Valid()
    ensures (forall i :: 0 <= i < |assignments| ==> AssignmentKept(s, assignments[i])) <==>
              && (forall i :: 0 <= i < |assignments| ==> Climbing(s, assignments[i]))
              && (forall i :: 0 <= i < |assignments| ==> Quiet(s, assignments[i]))
  {
    hide Stream.Valid, NumberOf, BehavesAs;
    forall i | 0 <= i < |assignments|
      ensures AssignmentKept(s, assignments[i]) <==> Climbing(s, assignments[i]) && Quiet(s, assignments[i])
    {}
  }

  lemma EventFamily(s: Stream, b: nat, d: nat, k: nat)
    requires s.Valid() && b < |s.borrowers| && d < s.days && k < 7
    ensures s.EventOf(b, d, k).family == FAMILIES[k]
  {
    hide ValueFor;
  }

  /** The coverage check can never fail on a valid stream. */
  lemma AlwaysCovered(s: Stream, b: nat)
    requires s.Valid() && b < |s.borrowers|
    ensures Covers(s, b)
  {
    hide Stream.EventOf, Stream.Valid, Stream.BorrowerEvents, FAMILIES;
    SevenFamilies(s);
    var events := s.BorrowerEvents(b);
    var families := set i | 0 <= i < |events| :: events[i].family;
    forall i | 0 <= i < |events| ensures events[i].family == FAMILIES[i % 7] { EventFamily(s, b, i / 7, i % 7); }
    forall f | f in FAMILIES ensures f in families {
      var k :| 0 <= k < 7 && FAMILIES[k] == f;
      assert events[k].family == FAMILIES[k % 7] && k % 7 == k;
    }
    assert families == set f | f in FAMILIES;
  }

  lemma SevenFamilies(s: Stream)
    ensures |FAMILIES| == 7 && (s.Valid() ==> s.PerBorrower() >= 7)
  {}
}
