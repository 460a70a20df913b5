/** The UUIDv7 generator (core/ids.py; sections 5.7 and 6.2 of RFC 9562). */
module UuidV7 {
  import opened Prelude
  import opened Runtime

  const VERSION := 7
  const VARIANT := 2
  const SEQUENCE_MASK := 0xFFF

  // ---------- bits ----------

  function Pow2(k: nat): (p: nat)
    ensures p >= 1
  {
    if k == 0 then 1 else 2 * Pow2(k - 1)
  }

  /** `a << k`. */
  function Shl(a: nat, k: nat): nat { a * Pow2(k) }

  /** `a | b`, bit by bit. */
  function BitOr(a: nat, b: nat): nat
  {
    if a == 0 then b
    else if b == 0 then a
    else Max(a % 2, b % 2) + 2 * BitOr(a / 2, b / 2)
  }

  /** `a & b`, bit by bit. */
  function BitAnd(a: nat, b: nat): nat
  {
    if a == 0 || b == 0 then 0 else Min(a % 2, b % 2) + 2 * BitAnd(a / 2, b / 2)
  }

  /** Or-ing bits into zeros below position `k` adds them. */
  lemma {:induction false} OrIsSum(a: nat, k: nat, b: nat)
    requires b < Pow2(k)
    ensures BitOr(Shl(a, k), b) == Shl(a, k) + b
  {
    if k > 0 && Shl(a, k) != 0 && b != 0 {
      var x := Shl(a, k);
      ShiftHalves(a, k);
      OrIsSum(a, k - 1, b / 2);
      assert x / 2 == Shl(a, k - 1) && x % 2 == 0;
    }
  }

  lemma ShiftHalves(a: nat, k: nat)
    requires k > 0
    ensures Shl(a, k) == 2 * Shl(a, k - 1)
  {
    var p := Pow2(k - 1);
    assert a * (2 * p) == 2 * (a * p);
  }

  /** Masking with twelve ones keeps a twelve-bit number. */
  lemma {:induction false} MaskKeeps(n: nat, k: nat)
    requires n < Pow2(k)
    ensures BitAnd(n, Pow2(k) - 1) == n
  {
    if n > 0 {
      assert k > 0;
      MaskKeeps(n / 2, k - 1);
      assert (Pow2(k) - 1) / 2 == Pow2(k - 1) - 1 && (Pow2(k) - 1) % 2 == 1;
    }
  }

  lemma Powers()
    ensures Pow2(12) == 0x1000
    ensures Pow2(62) == 0x4000_0000_0000_0000
    ensures Pow2(64) == 0x1_0000_0000_0000_0000
    ensures Pow2(76) == 0x1000_0000_0000_0000_0000
    ensures Pow2(80) == 0x1_0000_0000_0000_0000_0000
  {
    assert Pow2(6) == 64;
    assert Pow2(12) == 0x1000;
    assert Pow2(18) == 0x4_0000;
    assert Pow2(24) == 0x100_0000;
    assert Pow2(30) == 0x4000_0000;
    assert Pow2(36) == 0x10_0000_0000;
    assert Pow2(42) == 0x400_0000_0000;
    assert Pow2(48) == 0x1_0000_0000_0000;
    assert Pow2(54) == 0x40_0000_0000_0000;
    assert Pow2(60) == 0x1000_0000_0000_0000;
    assert Pow2(64) == 0x1_0000_0000_0000_0000;
    assert Pow2(70) == 0x40_0000_0000_0000_0000;
    assert Pow2(76) == 0x1000_0000_0000_0000_0000;
  }

  // ---------- the layout ----------

  type Sequence = n: nat | n <= SEQUENCE_MASK

  type Random62 = n: nat | n < 0x4000_0000_0000_0000

  /** The value put together with shifts and ors. */
  function Packed(timestamp: nat, sequence: Sequence, random: Random62): nat
  {
    var stamped := BitOr(Shl(timestamp, 80), Shl(VERSION, 76));
    var sequenced := BitOr(stamped, Shl(BitAnd(sequence, SEQUENCE_MASK), 64));
    BitOr(BitOr(sequenced, Shl(VARIANT, 62)), random)
  }

  // The fields of a value, read at the positions that section 5.7 gives them.

  function TimestampOf(v: nat): nat { v / 0x1_0000_0000_0000_0000_0000 }

  function VersionOf(v: nat): nat { v / 0x1000_0000_0000_0000_0000 % 16 }

  function SequenceOf(v: nat): nat { v / 0x1_0000_0000_0000_0000 % 0x1000 }

  function VariantOf(v: nat): nat { v / 0x4000_0000_0000_0000 % 4 }

  function RandomOf(v: nat): nat { v % 0x4000_0000_0000_0000 }

  function Layout(timestamp: nat, sequence: Sequence, random: Random62): nat
  {
    timestamp * 0x1_0000_0000_0000_0000_0000 + VERSION * 0x1000_0000_0000_0000_0000
    + sequence * 0x1_0000_0000_0000_0000 + VARIANT * 0x4000_0000_0000_0000 + random
  }

  lemma VersionAdded(timestamp: nat)
    ensures BitOr(Shl(timestamp, 80), Shl(VERSION, 76)) == Shl(timestamp * 16 + VERSION, 76)
  {
    Powers();
    hide Pow2, BitOr;
    OrIsSum(timestamp, 80, Shl(VERSION, 76));
  }

  lemma SequenceAdded(high: nat, sequence: Sequence)
    ensures BitOr(Shl(high, 76), Shl(sequence, 64)) == Shl(high * 0x1000 + sequence, 64)
  {
    Powers();
    hide Pow2, BitOr;
    OrIsSum(high, 76, Shl(sequence, 64));
  }

  lemma VariantAdded(high: nat)
    ensures BitOr(Shl(high, 64), Shl(VARIANT, 62)) == Shl(high * 4 + VARIANT, 62)
  {
    Powers();
    hide Pow2, BitOr;
    OrIsSum(high, 64, Shl(VARIANT, 62));
  }

  lemma RandomAdded(high: nat, random: Random62)
    ensures BitOr(Shl(high, 62), random) == high * 0x4000_0000_0000_0000 + random
  {
    Powers();
    hide Pow2, BitOr;
    OrIsSum(high, 62, random);
  }

  lemma SequenceMasked(sequence: Sequence)
    ensures BitAnd(sequence, SEQUENCE_MASK) == sequence
  {
    Powers();
    hide Pow2, BitAnd;
    MaskKeeps(sequence, 12);
  }

  /** Shifting and or-ing never lets one field spill into another. */
  lemma PackedIsLayout(timestamp: nat, sequence: Sequence, random: Random62)
    ensures Packed(timestamp, sequence, random) == Layout(timestamp, sequence, random)
  {
    hide BitOr, BitAnd, Shl;
    var versioned := timestamp * 16 + VERSION;
    var sequenced := versioned * 0x1000 + sequence;
    SequenceMasked(sequence);
    VersionAdded(timestamp);
    SequenceAdded(versioned, sequence);
    VariantAdded(sequenced);
    RandomAdded(sequenced * 4 + VARIANT, random);
  }

  lemma HighFields(timestamp: nat, sequence: Sequence, random: Random62)
    ensures var v := Layout(timestamp, sequence, random); TimestampOf(v) == timestamp && VersionOf(v) == VERSION
  {
    var v := Layout(timestamp, sequence, random);
    var low76 := sequence * 0x1_0000_0000_0000_0000 + VARIANT * 0x4000_0000_0000_0000 + random;
    DivisionUnique(v, 0x1_0000_0000_0000_0000_0000, timestamp, VERSION * 0x1000_0000_0000_0000_0000 + low76);
    DivisionUnique(v, 0x1000_0000_0000_0000_0000, timestamp * 16 + VERSION, low76);
  }

  lemma LowFields(timestamp: nat, sequence: Sequence, random: Random62)
    ensures var v := Layout(timestamp, sequence, random);
            SequenceOf(v) == sequence && VariantOf(v) == VARIANT && RandomOf(v) == random
  {
    var v := Layout(timestamp, sequence, random);
    var high := (timestamp * 16 + VERSION) * 0x1000 + sequence;
    DivisionUnique(v, 0x1_0000_0000_0000_0000, high, VARIANT * 0x4000_0000_0000_0000 + random);
    DivisionUnique(v, 0x4000_0000_0000_0000, high * 4 + VARIANT, random);
  }

  /** Every field reads back; version and variant are always 7 and 2. */
  lemma FieldsReadBack(timestamp: nat, sequence: Sequence, random: Random62)
    ensures var v := Packed(timestamp, sequence, random);
            TimestampOf(v) == timestamp && SequenceOf(v) == sequence && RandomOf(v) == random
            && VersionOf(v) == VERSION && VariantOf(v) == VARIANT
  {
    hide Packed, Layout, TimestampOf, VersionOf, SequenceOf, VariantOf, RandomOf;
    PackedIsLayout(timestamp, sequence, random);
    HighFields(timestamp, sequence, random);
    LowFields(timestamp, sequence, random);
  }

  /** A value fits a UUID exactly while its timestamp fits 48 bits. */
  lemma FitsWhileTimestampFits(timestamp: nat, sequence: Sequence, random: Random62)
    ensures Packed(timestamp, sequence, random) < 0x1_0000_0000_0000_0000_0000_0000_0000_0000 <==> timestamp < 0x1_0000_0000_0000
  {
    PackedIsLayout(timestamp, sequence, random);
    hide Packed;
  }

  // ---------- the generator ----------

  /** One call: what the clock, the sequence draw and the random draw returned. */
  datatype Reading = Reading(clock: int, sequenceDraw: Sequence, randomDraw: Random62)

  datatype State = State(timestamp: nat, sequence: Sequence)

  predicate Before(a: State, b: State)
  {
    a.timestamp < b.timestamp || (a.timestamp == b.timestamp && a.sequence < b.sequence)
  }

  function Step(s: State, r: Reading): State
  {
    if r.clock > s.timestamp then State(r.clock, r.sequenceDraw)
    else if s.sequence + 1 > SEQUENCE_MASK then State(s.timestamp + 1, r.sequenceDraw)
    else State(s.timestamp, s.sequence + 1)
  }

  function ValueOf(s: State, r: Reading): nat { Packed(s.timestamp, s.sequence, r.randomDraw) }

  method Pack(timestamp: nat, sequence: Sequence, random: Random62) returns (value: nat)
    ensures value == Packed(timestamp, sequence, random)
  {
    hide BitOr, BitAnd, Shl;
    value := Shl(timestamp, 80);
    value := BitOr(value, Shl(VERSION, 76));
    value := BitOr(value, Shl(BitAnd(sequence, SEQUENCE_MASK), 64));
    value := BitOr(value, Shl(VARIANT, 62));
    value := BitOr(value, random);
  }

  class IdGenerator {
    var lastTimestamp: nat
    var sequence: Sequence

    constructor ()
      ensures State(lastTimestamp, sequence) == State(0, 0)
    {
      lastTimestamp, sequence := 0, 0;
    }

    /** `new_id`; None is the ValueError of a value that does not fit 128 bits. */
    method NewId(r: Reading) returns (id: Option<Uuid>)
      modifies this
      ensures State(lastTimestamp, sequence) == Step(old(State(lastTimestamp, sequence)), r)
      ensures id.Some? <==> lastTimestamp < 0x1_0000_0000_0000
      ensures id.Some? ==> id.value == ValueOf(State(lastTimestamp, sequence), r)
    {
      hide Packed;
      if r.clock > lastTimestamp {
        lastTimestamp := r.clock;
        sequence := r.sequenceDraw;
      } else if sequence + 1 > SEQUENCE_MASK {
        lastTimestamp := lastTimestamp + 1;
        sequence := r.sequenceDraw;
      } else {
        sequence := sequence + 1;
      }
      var value := Pack(lastTimestamp, sequence, r.randomDraw);
      FitsWhileTimestampFits(lastTimestamp, sequence, r.randomDraw);
      if value >= 0x1_0000_0000_0000_0000_0000_0000_0000_0000 { return None; }
      return Some(value);
    }
  }

  /** The state before each call of a run, and after the last one. */
  function Run(s: State, readings: seq<Reading>): (r: seq<State>)
    ensures |r| == |readings| + 1 && r[0] == s
    decreases |readings|
  {
    if readings == [] then [s] else [s] + Run(Step(s, readings[0]), readings[1..])
  }

  /** The values of a run's calls. */
  function ValuesOf(s: State, readings: seq<Reading>): (r: seq<nat>)
    ensures |r| == |readings|
    decreases |readings|
  {
    if readings == [] then [] else
    var next := Step(s, readings[0]);
    [ValueOf(next, readings[0])] + ValuesOf(next, readings[1..])
  }

  /** Every call moves the state forward, even when the clock stands still, goes back or the sequence overflows. */
  lemma StepAdvances(s: State, r: Reading)
    ensures Before(s, Step(s, r)) && Step(s, r).timestamp >= s.timestamp
    ensures r.clock >= 0 ==> Step(s, r).timestamp >= r.clock
  {}

  /** Later states give greater values, whatever the random bits. */
  lemma ValuesFollowStates(a: State, b: State, r: Reading, t: Reading)
    requires Before(a, b)
    ensures ValueOf(a, r) < ValueOf(b, t)
  {
    PackedIsLayout(a.timestamp, a.sequence, r.randomDraw);
    PackedIsLayout(b.timestamp, b.sequence, t.randomDraw);
    hide Packed;
  }

  lemma {:induction false} ValuesAbove(s: State, readings: seq<Reading>, before: State, r: Reading)
    requires before == s || Before(before, s)
    ensures forall i :: 0 <= i < |readings| ==> ValueOf(before, r) < ValuesOf(s, readings)[i]
    decreases |readings|
  {
    if readings != [] {
      hide ValueOf, Step;
      var next := Step(s, readings[0]);
      StepAdvances(s, readings[0]);
      ValuesFollowStates(before, next, r, readings[0]);
      ValuesAbove(next, readings[1..], before, r);
    }
  }

  /** Over any run, from any state, for any clock readings and any draws, the values strictly increase. */
  lemma {:induction false} StrictlyIncreasing(s: State, readings: seq<Reading>)
    ensures forall i, j :: 0 <= i < j < |readings| ==> ValuesOf(s, readings)[i] < ValuesOf(s, readings)[j]
    decreases |readings|
  {
    if readings != [] {
      hide ValueOf;
      var next := Step(s, readings[0]);
      StrictlyIncreasing(next, readings[1..]);
      ValuesAbove(next, readings[1..], next, readings[0]);
    }
  }

  /**
   * What one value says about the next: a clock that has moved on gives its own millisecond and a drawn sequence; in
   * the same millisecond, or with the clock behind, the sequence goes up by one, and only past 4095 does the
   * timestamp move, by one, with a drawn sequence again.
   */
  lemma NextValue(s: State, last: Reading, r: Reading)
    ensures var u, v := ValueOf(s, last), ValueOf(Step(s, r), r);
            && (r.clock > TimestampOf(u) ==> TimestampOf(v) == r.clock && SequenceOf(v) == r.sequenceDraw)
            && (r.clock <= TimestampOf(u) && SequenceOf(u) < 4095 ==>
                  TimestampOf(v) == TimestampOf(u) && SequenceOf(v) == SequenceOf(u) + 1)
            && (r.clock <= TimestampOf(u) && SequenceOf(u) == 4095 ==>
                  TimestampOf(v) == TimestampOf(u) + 1 && SequenceOf(v) == r.sequenceDraw)
            && RandomOf(v) == r.randomDraw
  {
    FieldsReadBack(s.timestamp, s.sequence, last.randomDraw);
    FieldsReadBack(Step(s, r).timestamp, Step(s, r).sequence, r.randomDraw);
    hide Packed, TimestampOf, SequenceOf, RandomOf;
  }

  /** While the clock stands still, the sequence counts the calls and the timestamp stays. */
  lemma {:induction false} CountsWithinMillisecond(s: State, readings: seq<Reading>)
    requires forall i :: 0 <= i < |readings| ==> readings[i].clock <= s.timestamp
    requires s.sequence + |readings| <= 4095
    ensures Run(s, readings)[|readings|] == State(s.timestamp, s.sequence + |readings|)
    decreases |readings|
  {
    if readings != [] {
      var next := Step(s, readings[0]);
      assert Run(s, readings)[|readings|] == Run(next, readings[1..])[|readings| - 1];
      CountsWithinMillisecond(next, readings[1..]);
    }
  }

  /** The timestamp runs ahead of the clock by at most one millisecond for each call made since. */
  lemma {:induction false} DriftBounded(s: State, readings: seq<Reading>, latest: int)
    requires s.timestamp <= latest && forall i :: 0 <= i < |readings| ==> readings[i].clock <= latest
    ensures Run(s, readings)[|readings|].timestamp <= latest + |readings|
    decreases |readings|
  {
    if readings != [] {
      var next := Step(s, readings[0]);
      DriftBounded(next, readings[1..], latest + 1);
      DriftFromOne(s, readings, latest);
    }
  }

  lemma DriftFromOne(s: State, readings: seq<Reading>, latest: int)
    requires readings != [] && Run(Step(s, readings[0]), readings[1..])[|readings| - 1].timestamp <= latest + 1 + (|readings| - 1)
    ensures Run(s, readings)[|readings|].timestamp <= latest + |readings|
  {}
}
