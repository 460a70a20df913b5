/** The signal stream: a sequence that is computed by index and never stored (evaluation/reference_portfolio/signals.py). */
module ReferenceStream {
  import opened Prelude
  import opened Runtime
  import opened Persistence
  import opened ReferenceSignals

  /** 30 August 2026. */
  const END_DAY := 739_858

  datatype Borrower = Borrower(id: Uuid, reference: string)

  datatype Facility = Facility(id: Uuid, borrowerId: Uuid)

  datatype Portfolio = Portfolio(borrowers: seq<Borrower>, facilities: seq<Facility>)

  /** What the seed determines: the jitter, event ids and the digest of an event's natural key. */
  datatype Source = Source(
    jitter: (nat, nat, Family) -> Fraction,
    eventId: nat -> Uuid,
    contentHash: (Uuid, Uuid, int, Family, int) -> string)
  {
    ghost predicate Lawful() { forall b, f, d, k, v :: IsDigest(contentHash(b, f, d, k, v)) }
  }

  /** No jitter, one event id and one digest: the law can be met. */
  ghost function ConstantSource(): (source: Source)
    ensures source.Lawful()
  {
    Source((b, d, f) => 0, n => 0, (b, f, d, k, v) => seq(64, i => '0'))
  }

  datatype SignalEvent = SignalEvent(
    id: Uuid,
    borrowerId: Uuid,
    reference: string,
    facilityId: Uuid,
    day: Day,
    family: Family,
    magnitude: int,
    adverse: bool,
    hash: string)

  datatype StreamError = BadSignalDays | DateOverflow | CohortMismatch | FacilityMismatch | DuplicateBorrower

  predicate DistinctIds(borrowers: seq<Borrower>)
  {
    forall i, j :: 0 <= i < j < |borrowers| ==> borrowers[i].id != borrowers[j].id
  }

  function IdSet(borrowers: seq<Borrower>): set<Uuid>
  {
    set i | 0 <= i < |borrowers| :: borrowers[i].id
  }

  function OwnerSet(facilities: seq<Facility>): set<Uuid>
  {
    set i | 0 <= i < |facilities| :: facilities[i].borrowerId
  }

  datatype Stream = Stream(
    source: Source,
    borrowers: seq<Borrower>,
    facilities: map<Uuid, Facility>,
    cohorts: map<Uuid, Profile>,
    start: int,
    days: nat)
  {
    predicate Valid()
    {
      && days >= 1 && 1 <= start && start + days - 1 == END_DAY
      && DistinctIds(borrowers)
      && cohorts.Keys == IdSet(borrowers) && facilities.Keys == IdSet(borrowers)
    }

    /** `len(stream)`. */
    function Length(): nat { |borrowers| * PerBorrower() }

    function PerBorrower(): nat { days * 7 }

    lemma Present(b: nat, d: nat)
      requires Valid() && b < |borrowers| && d < days
      ensures borrowers[b].id in cohorts && borrowers[b].id in facilities && 1 <= start + d <= END_DAY
    {
      assert borrowers[b].id in IdSet(borrowers);
    }

    /** The event of borrower `b` on day `d` in family number `k`. */
    function EventOf(b: nat, d: nat, k: nat): SignalEvent
      requires Valid() && b < |borrowers| && d < days && k < 7
    {
      hide ValueFor, IsAdverse, IdSet;
      Present(b, d);
      var borrower, family := borrowers[b], FAMILIES[k];
      var value := ValueFor(cohorts[borrower.id], d, source.jitter(b + 1, d, family), family);
      var facility, day := facilities[borrower.id].id, start + d;
      SignalEvent(
        source.eventId(b * PerBorrower() + d * 7 + k + 1),
        borrower.id,
        borrower.reference,
        facility,
        day,
        family,
        value,
        IsAdverse(family, value),
        source.contentHash(borrower.id, facility, day, family, value))
    }

    /** `stream[index]`: the index is taken apart into borrower, day and family. */
    function At(index: nat): SignalEvent
      requires Valid() && index < Length()
    {
      var b, rest := index / PerBorrower(), index % PerBorrower();
      IndexInRange(index);
      EventOf(b, rest / 7, rest % 7)
    }

    lemma IndexInRange(index: nat)
      requires days >= 1 && index < Length()
      ensures 0 <= index / PerBorrower() < |borrowers| && 0 <= index % PerBorrower() / 7 < days
    {
      QuotientBelow(index, PerBorrower(), |borrowers|);
    }

    function Position(b: nat, d: nat, k: nat): nat { b * PerBorrower() + d * 7 + k }

    /** Position and index arithmetic are inverse: each event of the stream has exactly one index. */
    lemma PositionDecodes(b: nat, d: nat, k: nat)
      requires Valid() && b < |borrowers| && d < days && k < 7
      ensures Position(b, d, k) < Length() && At(Position(b, d, k)) == EventOf(b, d, k)
    {
      var per := PerBorrower();
      ProductMonotone(b + 1, |borrowers|, per);
      assert (b + 1) * per == b * per + per;
      DivisionUnique(Position(b, d, k), per, b, d * 7 + k);
      assert Position(b, d, k) % per == d * 7 + k;
    }

    /** Every index is the position of what it decodes to. */
    lemma IndexIsPosition(index: nat)
      requires Valid() && index < Length()
      ensures var b, rest := index / PerBorrower(), index % PerBorrower();
              b < |borrowers| && rest / 7 < days && index == Position(b, rest / 7, rest % 7)
    {
      IndexInRange(index);
    }

    /** What event number `n` says: its number, one borrower, its facility, the day, and its value judged and digested. */
    predicate Says(e: SignalEvent, n: nat, b: nat, d: nat, family: Family)
      requires b < |borrowers| && borrowers[b].id in facilities && borrowers[b].id in cohorts
    {
      && e.id == source.eventId(n) && e.borrowerId == borrowers[b].id && e.reference == borrowers[b].reference
      && e.facilityId == facilities[borrowers[b].id].id && e.day == start + d && e.family == family
      && e.magnitude == ValueFor(cohorts[borrowers[b].id], d, source.jitter(b + 1, d, family), family)
      && (e.adverse <==> e.magnitude >= Threshold(family))
      && e.hash == source.contentHash(e.borrowerId, e.facilityId, e.day, e.family, e.magnitude)
    }

    lemma EventSays(b: nat, d: nat, k: nat)
      requires Valid() && b < |borrowers| && d < days && k < 7
      ensures borrowers[b].id in facilities && borrowers[b].id in cohorts
      ensures Says(EventOf(b, d, k), Position(b, d, k) + 1, b, d, FAMILIES[k])
    {
      hide ValueFor, Threshold, Valid, IdSet;
      Present(b, d);
    }

    /** Events are numbered from one through the stream: borrower after borrower, day after day, seven families a day. */
    lemma AtSays(index: nat, b: nat, d: nat, k: nat)
      requires Valid() && b < |borrowers| && d < days && k < 7 && index == (b * days + d) * 7 + k
      ensures index < Length() && borrowers[b].id in facilities && borrowers[b].id in cohorts
      ensures Says(At(index), index + 1, b, d, [AccountActivity, Payment, Utilisation, Treasury, Concentration, Industry, News][k])
    {
      hide EventOf, Says, FAMILIES, At, Valid, IdSet;
      InSevens(b, days, d, k);
      PositionDecodes(b, d, k);
      EventSays(b, d, k);
      Seven();
    }

    /** `events_for_borrower(id, family=...)`. */
    function FamilyEvents(b: nat, k: nat): (r: seq<SignalEvent>)
      requires Valid() && b < |borrowers| && k < 7
      ensures |r| == days && forall d :: 0 <= d < days ==> r[d] == EventOf(b, d, k)
    {
      forall d | 0 <= d < days ensures Position(b, d, k) < Length() && At(Position(b, d, k)) == EventOf(b, d, k) {
        PositionDecodes(b, d, k);
      }
      seq(days, d requires 0 <= d < days => At(Position(b, d, k)))
    }

    /** `events_for_borrower(id)`: day after day, all families of a day in order. */
    function BorrowerEvents(b: nat): (r: seq<SignalEvent>)
      requires Valid() && b < |borrowers|
      ensures |r| == PerBorrower() && forall i :: 0 <= i < PerBorrower() ==> r[i] == EventOf(b, i / 7, i % 7)
    {
      forall i | 0 <= i < PerBorrower()
        ensures Position(b, i / 7, i % 7) < Length() && At(Position(b, i / 7, i % 7)) == EventOf(b, i / 7, i % 7)
      {
        PositionDecodes(b, i / 7, i % 7);
      }
      seq(PerBorrower(), i requires 0 <= i < PerBorrower() => At(Position(b, i / 7, i % 7)))
    }
  }

  lemma InSevens(b: nat, days: nat, d: nat, k: nat)
    ensures b * (days * 7) + d * 7 + k == (b * days + d) * 7 + k
  {
    assert b * (days * 7) == b * days * 7;
  }

  lemma Seven()
    ensures FAMILIES == [AccountActivity, Payment, Utilisation, Treasury, Concentration, Industry, News]
  {}

  lemma QuotientBelow(m: nat, per: int, n: nat)
    requires per >= 1 && m < n * per
    ensures 0 <= m / per < n && 0 <= m % per < per
  {
    var q := m / per;
    assert m == q * per + m % per;
    if q >= n { ProductMonotone(n, q, per); }
  }

  lemma ProductMonotone(a: nat, b: nat, c: nat)
    requires a <= b
    ensures a * c <= b * c
  {
    assert (b - a) * c >= 0;
  }

  /** `setdefault` in order: the first facility of each borrower. */
  function FirstFacilities(facilities: seq<Facility>): (m: map<Uuid, Facility>)
    ensures m.Keys == OwnerSet(facilities)
  {
    if facilities == [] then map[] else
    var init, last := facilities[..|facilities| - 1], facilities[|facilities| - 1];
    assert OwnerSet(facilities) == OwnerSet(init) + {last.borrowerId} by {
      assert forall i :: 0 <= i < |init| ==> init[i] == facilities[i];
      forall x | x in OwnerSet(init) ensures x in OwnerSet(facilities) {
        var i :| 0 <= i < |init| && init[i].borrowerId == x;
        assert facilities[i].borrowerId == x;
      }
    }
    var before := FirstFacilities(init);
    if last.borrowerId in before then before else before[last.borrowerId := last]
  }

  /** `generate_signal_events` with the default end date. */
  method GenerateSignals(source: Source, portfolio: Portfolio, cohorts: map<Uuid, Profile>, days: int)
      returns (r: Result<Stream, StreamError>)
    ensures r.Ok? <==>
              && 1 <= days <= END_DAY
              && DistinctIds(portfolio.borrowers)
              && cohorts.Keys == IdSet(portfolio.borrowers)
              && OwnerSet(portfolio.facilities) == IdSet(portfolio.borrowers)
    ensures r.Ok? ==> r.value.Valid()
    ensures r.Ok? ==>
              r.value == Stream(source, portfolio.borrowers, FirstFacilities(portfolio.facilities), cohorts, END_DAY - days + 1, days)
  {
    if days < 1 { return Err(BadSignalDays); }
    if cohorts.Keys != IdSet(portfolio.borrowers) { return Err(CohortMismatch); }
    var first: map<Uuid, Facility> := map[];
    for i := 0 to |portfolio.facilities|
      invariant first == FirstFacilities(portfolio.facilities[..i])
    {
      var facility := portfolio.facilities[i];
      assert portfolio.facilities[..i + 1][..i] == portfolio.facilities[..i];
      if facility.borrowerId !in first { first := first[facility.borrowerId := facility]; }
    }
    assert portfolio.facilities[..|portfolio.facilities|] == portfolio.facilities;
    var start := END_DAY - (days - 1);
    if start < 1 { return Err(DateOverflow); }
    DistinctBySize(portfolio.borrowers);
    if |portfolio.borrowers| != |cohorts| { return Err(CohortMismatch); }
    if first.Keys != IdSet(portfolio.borrowers) { return Err(FacilityMismatch); }
    return Ok(Stream(source, portfolio.borrowers, first, cohorts, start, days));
  }

  /** Ids are distinct exactly when there are as many of them as borrowers. */
  lemma {:induction false} DistinctBySize(borrowers: seq<Borrower>)
    ensures |IdSet(borrowers)| <= |borrowers|
    ensures DistinctIds(borrowers) <==> |IdSet(borrowers)| == |borrowers|
  {
    if borrowers == [] {
      assert IdSet(borrowers) == {};
    } else {
      var init, last := borrowers[..|borrowers| - 1], borrowers[|borrowers| - 1];
      DistinctBySize(init);
      assert forall i :: 0 <= i < |init| ==> init[i] == borrowers[i];
      forall x | x in IdSet(init) ensures x in IdSet(borrowers) {
        var i :| 0 <= i < |init| && init[i].id == x;
        assert borrowers[i].id == x;
      }
      assert IdSet(borrowers) == IdSet(init) + {last.id};
      if last.id in IdSet(init) {
        var i :| 0 <= i < |init| && init[i].id == last.id;
        assert borrowers[i].id == borrowers[|borrowers| - 1].id;
        assert IdSet(borrowers) == IdSet(init);
      } else {
        forall i, j | 0 <= i < j < |borrowers| && DistinctIds(init) ensures borrowers[i].id != borrowers[j].id {
          assert init[i].id in IdSet(init);
        }
      }
    }
  }
}
