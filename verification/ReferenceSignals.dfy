/** The reference portfolio's signal values (evaluation/reference_portfolio/signals.py), in millionths. */
module ReferenceSignals {
  import opened Persistence

  const PERCENT_QUANTUM := 10_000
  const RATIO_QUANTUM := 100
  const ONE := 1_000_000

  datatype Profile = Deteriorating | NoisyTransient | Stable | TemplatedRemainder

  /** `_stable_fraction`: ten-thousandths, fixed by the seed but otherwise arbitrary. */
  type Fraction = f: int | 0 <= f < 10_000

  /** `Decimal.quantize` in the default context: to the nearest multiple, ties to the even one. */
  function Quantize(n: int, quantum: int): int
    requires quantum > 0
  {
    var k, r := n / quantum, n % quantum;
    if 2 * r < quantum || (2 * r == quantum && k % 2 == 0) then k * quantum else (k + 1) * quantum
  }

  function Percent(n: int): int { Quantize(n, PERCENT_QUANTUM) }

  function Ratio(n: int): int { Quantize(n, RATIO_QUANTUM) }

  /** `(fraction - 0.5) * scale` for a scale of that many hundredths. */
  function Noise(f: Fraction, hundredths: nat): int
  {
    (f - 5_000) * hundredths
  }

  function DeterioratingValue(day: nat, f: Fraction, family: Family): int
  {
    match family
    case AccountActivity => Percent(2_000_000 + day * 120_000 + Noise(f, 40))
    case Payment => (2 + day / 8) * ONE
    case Utilisation => Percent(58_000_000 + day * 80_000 + Noise(f, 2))
    case Treasury => Ratio(80_000 + day * 500 + Noise(f, 1))
    case Concentration => Percent(22_000_000 + day * 70_000 + Noise(f, 50))
    case Industry => Ratio(100_000 + day * 1_000 + Noise(f, 2))
    case News => Ratio(80_000 + day * 1_500 + Noise(f, 2))
  }

  /** The two one-day spikes of each family: day and value. */
  function Spikes(family: Family): map<nat, int>
  {
    match family
    case AccountActivity => map[30 := 13_000_000, 250 := 15_000_000]
    case Payment => map[45 := 12_000_000, 180 := 11_000_000]
    case Utilisation => map[90 := 82_000_000, 240 := 83_000_000]
    case Treasury => map[130 := 350_000, 300 := 320_000]
    case Concentration => map[70 := 55_000_000, 210 := 54_000_000]
    case Industry => map[110 := 650_000, 280 := 620_000]
    case News => map[150 := 700_000, 330 := 660_000]
  }

  function QuietValue(f: Fraction, family: Family): int
  {
    match family
    case AccountActivity => Percent(1_000_000 + f * 400)
    case Payment => (2 + f * 3 / 10_000) * ONE
    case Utilisation => Percent(50_000_000 + f * 800)
    case Treasury => Ratio(60_000 + f * 8)
    case Concentration => Percent(20_000_000 + f * 1_200)
    case Industry => Ratio(60_000 + f * 20)
    case News => Ratio(40_000 + f * 20)
  }

  function NoisyValue(day: nat, f: Fraction, family: Family): int
  {
    if day in Spikes(family) then Spikes(family)[day] else QuietValue(f, family)
  }

  function StableValue(f: Fraction, family: Family): int
  {
    match family
    case AccountActivity => Percent(500_000 + f * 300)
    case Payment => (1 + f * 4 / 10_000) * ONE
    case Utilisation => Percent(50_000_000 + f * 800)
    case Treasury => Ratio(60_000 + f * 6)
    case Concentration => Percent(20_000_000 + f * 1_000)
    case Industry => Ratio(50_000 + f * 14)
    case News => Ratio(30_000 + f * 12)
  }

  function RemainderValue(f: Fraction, family: Family): int
  {
    match family
    case AccountActivity => Percent(1_000_000 + f * 500)
    case Payment => (2 + f * 4 / 10_000) * ONE
    case Utilisation => Percent(50_000_000 + f * 1_000)
    case Treasury => Ratio(50_000 + f * 10)
    case Concentration => Percent(18_000_000 + f * 1_400)
    case Industry => Ratio(50_000 + f * 20)
    case News => Ratio(30_000 + f * 20)
  }

  /** `_value_for`. */
  function ValueFor(profile: Profile, day: nat, f: Fraction, family: Family): int
  {
    match profile
    case Deteriorating => DeterioratingValue(day, f, family)
    case NoisyTransient => NoisyValue(day, f, family)
    case Stable => StableValue(f, family)
    case TemplatedRemainder => RemainderValue(f, family)
  }

  function Threshold(family: Family): int
  {
    match family
    case AccountActivity => 10_000_000
    case Payment => 7_000_000
    case Utilisation => 70_000_000
    case Treasury => 200_000
    case Concentration => 45_000_000
    case Industry => 500_000
    case News => 500_000
  }

  predicate IsAdverse(family: Family, value: int) { value >= Threshold(family) }

  /** `STABLE_BANDS`: from zero to the family's threshold. */
  predicate InStableBand(family: Family, value: int) { 0 <= value <= Threshold(family) }

  // ---------- what rounding can do ----------

  /** Rounding moves a value by at most half a quantum, onto a multiple of it. */
  lemma QuantizeNear(n: int)
    ensures Percent(n) % PERCENT_QUANTUM == 0 && -5_000 <= Percent(n) - n <= 5_000
    ensures Ratio(n) % RATIO_QUANTUM == 0 && -50 <= Ratio(n) - n <= 50
  {
    hide Quantize;
    PercentNear(n);
    RatioNear(n);
  }

  lemma PercentNear(n: int)
    ensures Percent(n) % PERCENT_QUANTUM == 0 && -5_000 <= Percent(n) - n <= 5_000
  {
    var k := n / PERCENT_QUANTUM;
    assert Percent(n) == k * PERCENT_QUANTUM || Percent(n) == (k + 1) * PERCENT_QUANTUM;
  }

  lemma RatioNear(n: int)
    ensures Ratio(n) % RATIO_QUANTUM == 0 && -50 <= Ratio(n) - n <= 50
  {
    var k := n / RATIO_QUANTUM;
    assert Ratio(n) == k * RATIO_QUANTUM || Ratio(n) == (k + 1) * RATIO_QUANTUM;
  }

  const LABEL_THRESHOLD := 85_000_000
  const CROSSING_DAY := 338

  /** A deteriorating borrower's utilisation stays within one hundredth of a percent of its line, whatever the noise. */
  lemma UtilisationNearLine(day: nat, f: Fraction)
    ensures var line := 58_000_000 + day * 80_000;
            line - PERCENT_QUANTUM <= DeterioratingValue(day, f, Utilisation) <= line + PERCENT_QUANTUM
  {
    var line, noise := 58_000_000 + day * 80_000, Noise(f, 2);
    assert -10_000 <= noise <= 9_998;
    QuantizeNear(line + noise);
    assert line == (5_800 + 8 * day) * PERCENT_QUANTUM;
    var v := DeterioratingValue(day, f, Utilisation);
    MultiplesBetween(v / PERCENT_QUANTUM, 5_800 + 8 * day, v);
  }

  /** A multiple of the quantum within one and a half quanta of another is within one. */
  lemma MultiplesBetween(k: int, line: int, v: int)
    requires v == k * PERCENT_QUANTUM && -15_000 <= v - line * PERCENT_QUANTUM < 15_000
    ensures (line - 1) * PERCENT_QUANTUM <= v <= (line + 1) * PERCENT_QUANTUM
  {}

  /** So the covenant level is reached exactly from day index 338 on. */
  lemma CrossesOnDay338(day: nat, f: Fraction)
    ensures DeterioratingValue(day, f, Utilisation) >= LABEL_THRESHOLD <==> day >= CROSSING_DAY
  {
    UtilisationNearLine(day, f);
  }

  /** Utilisation never falls from one day to the next, payment delay neither. */
  lemma DeterioratingClimbs(day: nat, f: Fraction, g: Fraction)
    ensures DeterioratingValue(day, f, Utilisation) <= DeterioratingValue(day + 1, g, Utilisation)
    ensures DeterioratingValue(day, f, Payment) <= DeterioratingValue(day + 1, g, Payment)
  {
    hide Quantize;
    UtilisationNearLine(day, f);
    UtilisationNearLine(day + 1, g);
    hide DeterioratingValue;
    assert DeterioratingValue(day, f, Payment) <= DeterioratingValue(day + 1, g, Payment) by { PaymentClimbs(day, f, g); }
  }

  lemma PaymentClimbs(day: nat, f: Fraction, g: Fraction)
    ensures DeterioratingValue(day, f, Payment) <= DeterioratingValue(day + 1, g, Payment)
  {}

  /** Away from its spikes every family of a noisy borrower is quiet: exactly the spike days are adverse. */
  lemma NoisyAdverseOnSpikes(day: nat, f: Fraction, family: Family)
    ensures IsAdverse(family, NoisyValue(day, f, family)) <==> day in Spikes(family)
  {
    QuietBelowThreshold(f, family);
    if day in Spikes(family) { SpikesAbove(family, day); }
  }

  lemma QuietBelowThreshold(f: Fraction, family: Family)
    ensures 0 <= QuietValue(f, family) < Threshold(family)
  {
    hide Quantize;
    match family
    case AccountActivity => QuantizeNear(1_000_000 + f * 400);
    case Payment =>
    case Utilisation => QuantizeNear(50_000_000 + f * 800);
    case Treasury => QuantizeNear(60_000 + f * 8);
    case Concentration => QuantizeNear(20_000_000 + f * 1_200);
    case Industry => QuantizeNear(60_000 + f * 20);
    case News => QuantizeNear(40_000 + f * 20);
  }

  lemma SpikesAbove(family: Family, day: nat)
    requires day in Spikes(family)
    ensures Spikes(family)[day] >= Threshold(family)
  {}

  lemma StableInBand(f: Fraction, family: Family)
    ensures InStableBand(family, StableValue(f, family)) && !IsAdverse(family, StableValue(f, family))
  {
    hide Quantize;
    match family
    case AccountActivity => QuantizeNear(500_000 + f * 300);
    case Payment =>
    case Utilisation => QuantizeNear(50_000_000 + f * 800);
    case Treasury => QuantizeNear(60_000 + f * 6);
    case Concentration => QuantizeNear(20_000_000 + f * 1_000);
    case Industry => QuantizeNear(50_000 + f * 14);
    case News => QuantizeNear(30_000 + f * 12);
  }

  lemma RemainderNeverAdverse(f: Fraction, family: Family)
    ensures InStableBand(family, RemainderValue(f, family)) && !IsAdverse(family, RemainderValue(f, family))
  {
    hide Quantize;
    match family
    case AccountActivity => QuantizeNear(1_000_000 + f * 500);
    case Payment =>
    case Utilisation => QuantizeNear(50_000_000 + f * 1_000);
    case Treasury => QuantizeNear(50_000 + f * 10);
    case Concentration => QuantizeNear(18_000_000 + f * 1_400);
    case Industry => QuantizeNear(50_000 + f * 20);
    case News => QuantizeNear(30_000 + f * 20);
  }

  // ---------- where the values lie ----------

  /** The mean and the greatest deviation of a deteriorating family on a day. */
  function Trend(day: nat, family: Family): (int, int)
  {
    match family
    case AccountActivity => (2_000_000 + 120_000 * day, 200_000)
    case Payment => (2_000_000 + day / 8 * 1_000_000, 0)
    case Utilisation => (58_000_000 + 80_000 * day, 10_000)
    case Treasury => (80_000 + 500 * day, 5_000)
    case Concentration => (22_000_000 + 70_000 * day, 250_000)
    case Industry => (100_000 + 1_000 * day, 10_000)
    case News => (80_000 + 1_500 * day, 10_000)
  }

  /** Every deteriorating family follows its trend: on it when the noise is nil, and never farther off than it allows. */
  lemma FollowsTrend(day: nat, f: Fraction, family: Family)
    ensures var (mean, spread) := Trend(day, family);
            ValueFor(Deteriorating, day, 5_000, family) == mean
            && mean - spread <= ValueFor(Deteriorating, day, f, family) <= mean + spread
  {
    match family
    case AccountActivity => NearPercent(200 + 12 * day, Noise(f, 40), 20);
    case Payment =>
    case Utilisation => NearPercent(5_800 + 8 * day, Noise(f, 2), 1);
    case Treasury => NearRatio(800 + 5 * day, Noise(f, 1), 50);
    case Concentration => NearPercent(2_200 + 7 * day, Noise(f, 50), 25);
    case Industry => NearRatio(1_000 + 10 * day, Noise(f, 2), 100);
    case News => NearRatio(800 + 15 * day, Noise(f, 2), 100);
  }

  /** A multiple of the quantum is kept by rounding, and noise of at most so many quanta moves it no farther. */
  lemma NearPercent(k: int, noise: int, spread: int)
    requires -10_000 * spread <= noise <= 10_000 * spread
    ensures Percent(10_000 * k) == 10_000 * k
    ensures 10_000 * (k - spread) <= Percent(10_000 * k + noise) <= 10_000 * (k + spread)
  {}

  lemma NearRatio(k: int, noise: int, spread: int)
    requires -100 * spread <= noise <= 100 * spread
    ensures Ratio(100 * k) == 100 * k
    ensures 100 * (k - spread) <= Ratio(100 * k + noise) <= 100 * (k + spread)
  {}

  /** What a quiet family goes from, at the least fraction, and to, at the greatest. */
  function QuietRange(profile: Profile, family: Family): (int, int)
  {
    match (profile, family)
    case (Stable, AccountActivity) => (500_000, 3_500_000)
    case (Stable, Payment) => (1_000_000, 4_000_000)
    case (Stable, Utilisation) => (50_000_000, 58_000_000)
    case (Stable, Treasury) => (60_000, 120_000)
    case (Stable, Concentration) => (20_000_000, 30_000_000)
    case (Stable, Industry) => (50_000, 190_000)
    case (Stable, News) => (30_000, 150_000)
    case (NoisyTransient, AccountActivity) => (1_000_000, 5_000_000)
    case (NoisyTransient, Payment) => (2_000_000, 4_000_000)
    case (NoisyTransient, Utilisation) => (50_000_000, 58_000_000)
    case (NoisyTransient, Treasury) => (60_000, 140_000)
    case (NoisyTransient, Concentration) => (20_000_000, 32_000_000)
    case (NoisyTransient, Industry) => (60_000, 260_000)
    case (NoisyTransient, News) => (40_000, 240_000)
    case (_, AccountActivity) => (1_000_000, 6_000_000)
    case (_, Payment) => (2_000_000, 5_000_000)
    case (_, Utilisation) => (50_000_000, 60_000_000)
    case (_, Treasury) => (50_000, 150_000)
    case (_, Concentration) => (18_000_000, 32_000_000)
    case (_, Industry) => (50_000, 250_000)
    case (_, News) => (30_000, 230_000)
  }

  /** Off its spike days every other profile goes from one end of its range to the other as the fraction grows. */
  lemma FillsQuietRange(profile: Profile, day: nat, f: Fraction, g: Fraction, family: Family)
    requires !profile.Deteriorating? && (profile.NoisyTransient? ==> day !in Spikes(family)) && f <= g
    ensures var (low, high) := QuietRange(profile, family);
            ValueFor(profile, day, 0, family) == low && ValueFor(profile, day, 9_999, family) == high
            && ValueFor(profile, day, f, family) <= ValueFor(profile, day, g, family)
  {
    hide Quantize, Spikes;
    match profile
    case Stable => StableRange(f, g, family);
    case NoisyTransient => NoisyRange(f, g, family);
    case TemplatedRemainder => RemainderRange(f, g, family);
  }

  lemma PercentMonotone(m: int, n: int)
    requires m <= n
    ensures Percent(m) <= Percent(n)
  {
    hide Quantize;
    QuantizeNear(m);
    QuantizeNear(n);
    if m < n { TenThousandsApart(Percent(m), Percent(n)); }
  }

  lemma TenThousandsApart(x: int, y: int)
    requires x % 10_000 == 0 && y % 10_000 == 0 && x < y + 10_000
    ensures x <= y
  {}

  lemma HundredsApart(x: int, y: int)
    requires x % 100 == 0 && y % 100 == 0 && x < y + 100
    ensures x <= y
  {}

  lemma RatioMonotone(m: int, n: int)
    requires m <= n
    ensures Ratio(m) <= Ratio(n)
  {
    hide Quantize;
    QuantizeNear(m);
    QuantizeNear(n);
    if m < n { HundredsApart(Ratio(m), Ratio(n)); }
  }

  lemma StableEnds(family: Family)
    ensures (StableValue(0, family), StableValue(9_999, family)) == QuietRange(Stable, family)
  {}

  lemma StableRange(f: Fraction, g: Fraction, family: Family)
    requires f <= g
    ensures var (low, high) := QuietRange(Stable, family);
            StableValue(0, family) == low && StableValue(9_999, family) == high && StableValue(f, family) <= StableValue(g, family)
  {
    StableEnds(family);
    hide Quantize, QuietRange;
    match family
    case AccountActivity => PercentMonotone(500_000 + f * 300, 500_000 + g * 300);
    case Payment =>
    case Utilisation => PercentMonotone(50_000_000 + f * 800, 50_000_000 + g * 800);
    case Treasury => RatioMonotone(60_000 + f * 6, 60_000 + g * 6);
    case Concentration => PercentMonotone(20_000_000 + f * 1_000, 20_000_000 + g * 1_000);
    case Industry => RatioMonotone(50_000 + f * 14, 50_000 + g * 14);
    case News => RatioMonotone(30_000 + f * 12, 30_000 + g * 12);
  }

  lemma NoisyEnds(family: Family)
    ensures (QuietValue(0, family), QuietValue(9_999, family)) == QuietRange(NoisyTransient, family)
  {}

  lemma NoisyRange(f: Fraction, g: Fraction, family: Family)
    requires f <= g
    ensures var (low, high) := QuietRange(NoisyTransient, family);
            QuietValue(0, family) == low && QuietValue(9_999, family) == high && QuietValue(f, family) <= QuietValue(g, family)
  {
    NoisyEnds(family);
    hide Quantize, QuietRange;
    match family
    case AccountActivity => PercentMonotone(1_000_000 + f * 400, 1_000_000 + g * 400);
    case Payment =>
    case Utilisation => PercentMonotone(50_000_000 + f * 800, 50_000_000 + g * 800);
    case Treasury => RatioMonotone(60_000 + f * 8, 60_000 + g * 8);
    case Concentration => PercentMonotone(20_000_000 + f * 1_200, 20_000_000 + g * 1_200);
    case Industry => RatioMonotone(60_000 + f * 20, 60_000 + g * 20);
    case News => RatioMonotone(40_000 + f * 20, 40_000 + g * 20);
  }

  lemma RemainderEnds(family: Family)
    ensures (RemainderValue(0, family), RemainderValue(9_999, family)) == QuietRange(TemplatedRemainder, family)
  {}

  lemma RemainderRange(f: Fraction, g: Fraction, family: Family)
    requires f <= g
    ensures var (low, high) := QuietRange(TemplatedRemainder, family);
            RemainderValue(0, family) == low && RemainderValue(9_999, family) == high
            && RemainderValue(f, family) <= RemainderValue(g, family)
  {
    RemainderEnds(family);
    hide Quantize, QuietRange;
    match family
    case AccountActivity => PercentMonotone(1_000_000 + f * 500, 1_000_000 + g * 500);
    case Payment =>
    case Utilisation => PercentMonotone(50_000_000 + f * 1_000, 50_000_000 + g * 1_000);
    case Treasury => RatioMonotone(50_000 + f * 10, 50_000 + g * 10);
    case Concentration => PercentMonotone(18_000_000 + f * 1_400, 18_000_000 + g * 1_400);
    case Industry => RatioMonotone(50_000 + f * 20, 50_000 + g * 20);
    case News => RatioMonotone(30_000 + f * 20, 30_000 + g * 20);
  }
}
