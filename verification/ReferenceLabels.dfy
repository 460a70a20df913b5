/** Outcome labels derived from the utilisation trajectory (evaluation/reference_portfolio/labels.py). */
module ReferenceLabels {
  import opened Prelude
  import opened Ordering
  import opened Runtime
  import opened Persistence
  import opened ReferenceSignals
  import opened ReferenceStream

  const UTILISATION_NUMBER := 2
  const PAYMENT_NUMBER := 1

  /** The covenant, its direction, its threshold and the cohort are the same for every label. */
  datatype Label = Label(borrowerId: Uuid, reference: string, breachDay: Day, sourceId: Uuid, sourceHash: string)

  datatype LabelError = UnknownBorrower | NeverCrosses | BlankReference | BadHash | DuplicateLabel | Disagreement

  // ---------- the first crossing ----------

  function FirstCrossing(events: seq<SignalEvent>): Option<SignalEvent>
  {
    if events == [] then None else
    var before, last := FirstCrossing(events[..|events| - 1]), events[|events| - 1];
    if last.magnitude >= LABEL_THRESHOLD && (before.None? || last.day < before.value.day) then Some(last) else before
  }

  method FindFirstCrossing(events: seq<SignalEvent>) returns (crossing: Option<SignalEvent>)
    ensures crossing == FirstCrossing(events)
  {
    crossing := None;
    for i := 0 to |events|
      invariant crossing == FirstCrossing(events[..i])
    {
      assert events[..i + 1][..i] == events[..i];
      if events[i].magnitude >= LABEL_THRESHOLD && (crossing.None? || events[i].day < crossing.value.day) {
        crossing := Some(events[i]);
      }
    }
    assert events[..|events|] == events;
  }

  /** The earliest event at or above the threshold, and the first of those on its day. */
  ghost predicate IsCrossing(events: seq<SignalEvent>, i: nat)
  {
    && i < |events| && events[i].magnitude >= LABEL_THRESHOLD
    && forall k :: 0 <= k < |events| && events[k].magnitude >= LABEL_THRESHOLD ==>
         events[i].day <= events[k].day && (k < i ==> events[i].day < events[k].day)
  }

  /** In any event order the crossing is the earliest event at or above the threshold, and the first of equals. */
  lemma {:induction false} CrossingMeaning(events: seq<SignalEvent>)
    ensures FirstCrossing(events).None? <==> forall k :: 0 <= k < |events| ==> events[k].magnitude < LABEL_THRESHOLD
    ensures FirstCrossing(events).Some? ==> exists i: nat :: IsCrossing(events, i) && FirstCrossing(events) == Some(events[i])
  {
    if events != [] {
      var n := |events| - 1;
      var init, last := events[..n], events[n];
      CrossingMeaning(init);
      assert forall k :: 0 <= k < n ==> events[k] == init[k];
      var before := FirstCrossing(init);
      if last.magnitude >= LABEL_THRESHOLD && (before.None? || last.day < before.value.day) {
        if before.Some? {
          var i: nat :| IsCrossing(init, i) && before == Some(init[i]);
        }
        assert IsCrossing(events, n);
      } else if before.Some? {
        var i: nat :| IsCrossing(init, i) && before == Some(init[i]);
        assert IsCrossing(events, i);
      }
    }
  }

  // ---------- deriving labels ----------

  /** Where a borrower is in the stream. */
  function NumberOf(borrowers: seq<Borrower>, id: Uuid): (r: Option<nat>)
    ensures r.Some? ==> r.value < |borrowers| && borrowers[r.value].id == id
    ensures r.None? ==> forall i :: 0 <= i < |borrowers| ==> borrowers[i].id != id
  {
    if borrowers == [] then None
    else if borrowers[|borrowers| - 1].id == id then Some(|borrowers| - 1)
    else NumberOf(borrowers[..|borrowers| - 1], id)
  }

  function MakeLabel(rt: Runtime, id: Uuid, reference: string, crossing: SignalEvent): Result<Label, LabelError>
  {
    if rt.Strip(reference) == "" then Err(BlankReference)
    else if !IsDigest(crossing.hash) then Err(BadHash)
    else Ok(Label(id, reference, crossing.day, crossing.id, crossing.hash))
  }

  /** The label of one deteriorating borrower. */
  function LabelFor(rt: Runtime, s: Stream, id: Uuid, references: map<Uuid, string>): Result<Label, LabelError>
    requires s.Valid()
  {
    match NumberOf(s.borrowers, id)
    case None => Err(UnknownBorrower)
    case Some(b) =>
      match FirstCrossing(s.FamilyEvents(b, UTILISATION_NUMBER))
      case None => Err(NeverCrosses)
      case Some(crossing) =>
        MakeLabel(rt, id, if id in references then references[id] else crossing.reference, crossing)
  }

  /** The rows in the order in which the borrowers were assigned to cohorts. */
  function Rows(rt: Runtime, s: Stream, cohorts: seq<(Uuid, Profile)>, references: map<Uuid, string>): Result<seq<Label>, LabelError>
    requires s.Valid()
  {
    if cohorts == [] then Ok([]) else
    var n := |cohorts| - 1;
    match Rows(rt, s, cohorts[..n], references)
    case Err(e) => Err(e)
    case Ok(rows) =>
      if !cohorts[n].1.Deteriorating? then Ok(rows) else
      match LabelFor(rt, s, cohorts[n].0, references)
      case Err(e) => Err(e)
      case Ok(row) => Ok(rows + [row])
  }

  predicate LabelLess(a: Label, b: Label)
  {
    a.breachDay < b.breachDay
    || (a.breachDay == b.breachDay
        && (TextLess(a.reference, b.reference)
            || (a.reference == b.reference && TextLess(UuidText(a.borrowerId), UuidText(b.borrowerId)))))
  }

  predicate OneEach(rows: seq<Label>)
  {
    forall i, j :: 0 <= i < j < |rows| ==> rows[i].borrowerId != rows[j].borrowerId
  }

  function Derived(rt: Runtime, s: Stream, cohorts: seq<(Uuid, Profile)>, references: map<Uuid, string>): Result<seq<Label>, LabelError>
    requires s.Valid()
  {
    match Rows(rt, s, cohorts, references)
    case Err(e) => Err(e)
    case Ok(rows) =>
      var sorted := SortWith(LabelLess, rows);
      if OneEach(sorted) then Ok(sorted) else Err(DuplicateLabel)
  }

  method DeriveLabels(rt: Runtime, s: Stream, cohorts: seq<(Uuid, Profile)>, references: map<Uuid, string>)
      returns (r: Result<seq<Label>, LabelError>)
    requires s.Valid()
    ensures r == Derived(rt, s, cohorts, references)
  {
    hide Stream.FamilyEvents, Stream.Valid, OneEach, LabelLess, FirstCrossing, NumberOf, MakeLabel;
    var rows: seq<Label> := [];
    for i := 0 to |cohorts|
      invariant Rows(rt, s, cohorts[..i], references) == Ok(rows)
    {
      RowsStep(rt, s, cohorts, references, i);
      var (id, cohort) := cohorts[i];
      if !cohort.Deteriorating? { continue; }
      var number := NumberOf(s.borrowers, id);
      if number.None? { RowsStop(rt, s, cohorts, references, i + 1); return Err(UnknownBorrower); }
      var crossing := FindFirstCrossing(s.FamilyEvents(number.value, UTILISATION_NUMBER));
      if crossing.None? { RowsStop(rt, s, cohorts, references, i + 1); return Err(NeverCrosses); }
      var made := MakeLabel(rt, id, if id in references then references[id] else crossing.value.reference, crossing.value);
      if made.Err? { RowsStop(rt, s, cohorts, references, i + 1); return Err(made.error); }
      rows := rows + [made.value];
    }
    assert cohorts[..|cohorts|] == cohorts;
    var sorted := SortWith(LabelLess, rows);
    if !OneEach(sorted) { return Err(DuplicateLabel); }
    return Ok(sorted);
  }

  lemma RowsStep(rt: Runtime, s: Stream, cohorts: seq<(Uuid, Profile)>, references: map<Uuid, string>, i: nat)
    requires s.Valid() && i < |cohorts| && Rows(rt, s, cohorts[..i], references).Ok?
    ensures var rows := Rows(rt, s, cohorts[..i], references).value;
            Rows(rt, s, cohorts[..i + 1], references)
            == if !cohorts[i].1.Deteriorating? then Ok(rows) else
               match LabelFor(rt, s, cohorts[i].0, references) case Err(e) => Err(e) case Ok(row) => Ok(rows + [row])
  {
    hide LabelFor;
    assert cohorts[..i + 1][..i] == cohorts[..i];
  }

  /** A failure on the way stands. */
  lemma {:induction false} RowsStop(rt: Runtime, s: Stream, cohorts: seq<(Uuid, Profile)>, references: map<Uuid, string>, i: nat)
    requires s.Valid() && i <= |cohorts| && Rows(rt, s, cohorts[..i], references).Err?
    ensures Rows(rt, s, cohorts, references) == Rows(rt, s, cohorts[..i], references)
  {
    hide LabelFor;
    if i < |cohorts| {
      assert cohorts[..|cohorts| - 1][..i] == cohorts[..i];
      RowsStop(rt, s, cohorts[..|cohorts| - 1], references, i);
    } else {
      assert cohorts[..i] == cohorts;
    }
  }

  lemma LabelOrder()
    ensures StrictWeakOrder(LabelLess)
  {
    hide UuidText;
    TextOrder();
    assert forall x, y: string :: x != y ==> TextLess(x, y) || TextLess(y, x);
  }

  /** Labels come out by breach date, then reference, then id. */
  lemma LabelsSorted(rt: Runtime, s: Stream, cohorts: seq<(Uuid, Profile)>, references: map<Uuid, string>)
    requires s.Valid() && Derived(rt, s, cohorts, references).Ok?
    ensures InOrder(LabelLess, Derived(rt, s, cohorts, references).value)
    ensures multiset(Derived(rt, s, cohorts, references).value) == multiset(Rows(rt, s, cohorts, references).value)
  {
    hide LabelLess;
    LabelOrder();
    SortsInOrder(LabelLess, Rows(rt, s, cohorts, references).value);
  }

  // ---------- verifying labels ----------

  /** `by_borrower`. */
  function ByBorrower(rows: seq<Label>): map<Uuid, Label>
  {
    if rows == [] then map[] else
    var last := rows[|rows| - 1];
    ByBorrower(rows[..|rows| - 1])[last.borrowerId := last]
  }

  /** The last label given for the row's borrower is this row. */
  predicate IsLastFor(labels: seq<Label>, row: Label, i: nat)
  {
    i < |labels| && labels[i] == row && forall k :: i < k < |labels| ==> labels[k].borrowerId != row.borrowerId
  }

  predicate Given(labels: seq<Label>, row: Label)
  {
    exists i: nat :: i < |labels| && IsLastFor(labels, row, i)
  }

  predicate NamedIn(rows: seq<Label>, id: Uuid)
  {
    exists i :: 0 <= i < |rows| && rows[i].borrowerId == id
  }

  /** Row by row: each derived label is the last one given for its borrower, and no other borrower is labelled. */
  predicate Agrees(labels: seq<Label>, derived: seq<Label>)
  {
    && (forall row :: row in derived ==> Given(labels, row))
    && forall i :: 0 <= i < |labels| ==> NamedIn(derived, labels[i].borrowerId)
  }

  lemma {:induction false} ByBorrowerHolds(rows: seq<Label>, id: Uuid)
    ensures id in ByBorrower(rows) <==> NamedIn(rows, id)
    ensures id in ByBorrower(rows) ==> ByBorrower(rows)[id].borrowerId == id && Given(rows, ByBorrower(rows)[id])
  {
    if rows != [] {
      var n := |rows| - 1;
      var init, last := rows[..n], rows[n];
      ByBorrowerHolds(init, id);
      assert forall i :: 0 <= i < n ==> init[i] == rows[i];
      if last.borrowerId == id {
        assert IsLastFor(rows, last, n);
      } else if id in ByBorrower(init) {
        var i: nat :| i < |init| && IsLastFor(init, ByBorrower(init)[id], i);
        assert IsLastFor(rows, ByBorrower(init)[id], i);
      }
    }
  }

  lemma GivenUnique(rows: seq<Label>, a: Label, b: Label)
    requires Given(rows, a) && Given(rows, b) && a.borrowerId == b.borrowerId
    ensures a == b
  {
    var i: nat :| i < |rows| && IsLastFor(rows, a, i);
    var j: nat :| j < |rows| && IsLastFor(rows, b, j);
    assert i == j;
  }

  lemma HeldIsGiven(rows: seq<Label>, row: Label)
    ensures Given(rows, row) <==> row.borrowerId in ByBorrower(rows) && ByBorrower(rows)[row.borrowerId] == row
  {
    ByBorrowerHolds(rows, row.borrowerId);
    if Given(rows, row) {
      var i: nat :| i < |rows| && IsLastFor(rows, row, i);
      assert NamedIn(rows, row.borrowerId);
      GivenUnique(rows, row, ByBorrower(rows)[row.borrowerId]);
    }
  }

  lemma OneEachGiven(rows: seq<Label>)
    requires OneEach(rows)
    ensures forall row :: row in rows ==> Given(rows, row)
  {
    forall row | row in rows ensures Given(rows, row) {
      var i: nat :| i < |rows| && rows[i] == row;
      assert IsLastFor(rows, row, i);
    }
  }

  /** The comparison by borrower is the comparison row by row. */
  lemma ByBorrowerAgrees(labels: seq<Label>, derived: seq<Label>)
    requires OneEach(derived)
    ensures ByBorrower(labels) == ByBorrower(derived) <==> Agrees(labels, derived)
  {
    OneEachGiven(derived);
    hide ByBorrower, OneEach, Given;
    var m, n := ByBorrower(labels), ByBorrower(derived);
    if m == n {
      forall row | row in derived ensures Given(labels, row) { HeldIsGiven(derived, row); HeldIsGiven(labels, row); }
      forall i | 0 <= i < |labels| ensures NamedIn(derived, labels[i].borrowerId) {
        assert NamedIn(labels, labels[i].borrowerId);
        ByBorrowerHolds(labels, labels[i].borrowerId);
        ByBorrowerHolds(derived, labels[i].borrowerId);
      }
    }
    if Agrees(labels, derived) {
      forall id | id in n ensures id in m && m[id] == n[id] { DerivedHeld(labels, derived, id); }
      forall id | id in m ensures id in n {
        ByBorrowerHolds(labels, id);
        var i :| 0 <= i < |labels| && labels[i].borrowerId == id;
        ByBorrowerHolds(derived, id);
      }
      assert m == n;
    }
  }

  lemma DerivedHeld(labels: seq<Label>, derived: seq<Label>, id: Uuid)
    requires Agrees(labels, derived) && id in ByBorrower(derived)
    ensures id in ByBorrower(labels) && ByBorrower(labels)[id] == ByBorrower(derived)[id]
  {
    hide ByBorrower;
    var row := ByBorrower(derived)[id];
    ByBorrowerHolds(derived, id);
    var i: nat :| i < |derived| && IsLastFor(derived, row, i);
    HeldIsGiven(labels, row);
  }

  lemma DerivedOneEach(rt: Runtime, s: Stream, cohorts: seq<(Uuid, Profile)>, references: map<Uuid, string>)
    requires s.Valid() && Derived(rt, s, cohorts, references).Ok?
    ensures OneEach(Derived(rt, s, cohorts, references).value)
  {
    hide Rows, LabelLess, OneEach;
  }

  lemma AgreesWithItself(rows: seq<Label>)
    requires OneEach(rows)
    ensures Agrees(rows, rows)
  {
    OneEachGiven(rows);
    hide Given;
    forall i | 0 <= i < |rows| ensures NamedIn(rows, rows[i].borrowerId) {}
  }

  /** `verify_labels`: None when every label agrees with the trajectory. */
  method VerifyLabels(rt: Runtime, labels: seq<Label>, s: Stream, cohorts: seq<(Uuid, Profile)>) returns (fault: Option<LabelError>)
    requires s.Valid()
    ensures fault.None? <==>
              Derived(rt, s, cohorts, map[]).Ok? && Agrees(labels, Derived(rt, s, cohorts, map[]).value)
  {
    hide Derived, Stream.Valid, Agrees, OneEach;
    var derived := DeriveLabels(rt, s, cohorts, map[]);
    if derived.Err? { return Some(derived.error); }
    DerivedOneEach(rt, s, cohorts, map[]);
    ByBorrowerAgrees(labels, derived.value);
    var actual, expected := ByBorrower(labels), ByBorrower(derived.value);
    if actual.Keys != expected.Keys { return Some(Disagreement); }
    var left := expected.Keys;
    while left != {}
      invariant left <= expected.Keys
      invariant forall id :: id in expected.Keys - left ==> actual[id] == expected[id]
      decreases |left|
    {
      var id :| id in left;
      if actual[id] != expected[id] { return Some(Disagreement); }
      left := left - {id};
    }
    return None;
  }

  // ---------- labels on a generated stream ----------

  /** The label every deteriorating borrower gets: its event on day index 338. */
  function CrossingLabel(s: Stream, b: nat): Label
    requires s.Valid() && b < |s.borrowers| && s.days > CROSSING_DAY
  {
    var e := s.EventOf(b, CROSSING_DAY, UTILISATION_NUMBER);
    Label(e.borrowerId, e.reference, e.day, e.id, e.hash)
  }

  lemma UtilisationEvents(s: Stream, b: nat)
    requires s.Valid() && b < |s.borrowers| && s.cohorts[s.borrowers[b].id].Deteriorating?
    ensures FirstCrossing(s.FamilyEvents(b, UTILISATION_NUMBER)).Some? <==> s.days > CROSSING_DAY
    ensures s.days > CROSSING_DAY ==>
              FirstCrossing(s.FamilyEvents(b, UTILISATION_NUMBER)) == Some(s.EventOf(b, CROSSING_DAY, UTILISATION_NUMBER))
  {
    hide DeterioratingValue, Stream.Valid;
    var events := s.FamilyEvents(b, UTILISATION_NUMBER);
    forall d | 0 <= d < |events|
      ensures events[d].day == s.start + d && (events[d].magnitude >= LABEL_THRESHOLD <==> d >= CROSSING_DAY)
    {
      UtilisationEvent(s, b, d);
    }
    CrossingMeaning(events);
    if s.days > CROSSING_DAY { assert events[CROSSING_DAY] in events; }
    if FirstCrossing(events).Some? {
      var i :| 0 <= i < |events| && FirstCrossing(events) == Some(events[i]) && events[i].magnitude >= LABEL_THRESHOLD
        && (forall k :: 0 <= k < |events| && events[k].magnitude >= LABEL_THRESHOLD ==> events[i].day <= events[k].day);
      assert i >= CROSSING_DAY;
      assert events[CROSSING_DAY].day >= events[i].day;
      assert i == CROSSING_DAY;
    }
  }

  lemma UtilisationEvent(s: Stream, b: nat, d: nat)
    requires s.Valid() && b < |s.borrowers| && d < s.days && s.cohorts[s.borrowers[b].id].Deteriorating?
    ensures var e := s.EventOf(b, d, UTILISATION_NUMBER);
            e.day == s.start + d && (e.magnitude >= LABEL_THRESHOLD <==> d >= CROSSING_DAY)
  {
    assert FAMILIES[UTILISATION_NUMBER] == Utilisation;
    CrossesOnDay338(d, s.source.jitter(b + 1, d, Utilisation));
    hide DeterioratingValue;
  }
}
