/** Generated financial statements (evaluation/reference_portfolio/financials.py), in whole cents. */
module Statements {
  import opened Prelude
  import opened Numerals

  // ---------- rounding ----------

  /** The whole number nearest to `n / d`, ties to the even one. */
  function Nearest(n: int, d: int): int
    requires d > 0
  {
    var k, r := n / d, n % d;
    if 2 * r < d || (2 * r == d && k % 2 == 0) then k else k + 1
  }

  lemma NearestClose(n: int, d: int)
    requires d > 0
    ensures 2 * n - d <= 2 * (Nearest(n, d) * d) <= 2 * n + d
  {
    var k, r := n / d, n % d;
    assert n == k * d + r;
    assert (k + 1) * d == k * d + d;
  }

  /** The rounded amount of a percentage of `base`, between the percentages `low` and `high` of it. */
  lemma ShareBetween(base: nat, percent: nat, low: nat, high: nat)
    requires low <= percent <= high
    ensures base * low - 50 <= 100 * Share(base, percent) <= base * high + 50
  {
    NearestClose(base * percent, 100);
    assert base * (percent - low) >= 0;
    assert base * (high - percent) >= 0;
  }

  /** `_amount(base * percent / 100)`. */
  function Share(base: int, percent: int): int { Nearest(base * percent, 100) }

  /** `_amount(base * days / 365)` for days given in hundredths. */
  function DaysOf(base: int, hundredths: int): int { Nearest(base * hundredths, 36_500) }

  lemma DaysBetween(base: nat, hundredths: nat, high: nat)
    requires hundredths <= high
    ensures 0 <= 36_500 * DaysOf(base, hundredths) + 18_250 && 36_500 * DaysOf(base, hundredths) <= base * high + 18_250
  {
    NearestClose(base * hundredths, 36_500);
    assert base * (high - hundredths) >= 0;
    assert base * hundredths >= 0;
  }

  // ---------- one statement ----------

  /** What the random source returns, in the order it is asked: cents, percentages and hundredths. */
  datatype Draws = Draws(
    revenue: nat, cogsRate: nat, operatingRate: nat, depreciationRate: nat, financeRate: nat, taxRate: nat,
    cashRate: nat, inventoryDays: nat, receivableDays: nat, payableDays: nat, currentAssetRate: nat,
    shortDebtRate: nat, otherLiabilityRate: nat, longDebtRate: nat, assetRate: nat, netWorthRate: nat,
    serviceRate: nat, capexRate: nat, dividendRate: nat, promoterShare: nat)
  {
    predicate InRange()
    {
      && 12_000 <= revenue <= 95_000 && 55 <= cogsRate <= 65 && 15 <= operatingRate <= 22
      && 2 <= depreciationRate <= 5 && 2 <= financeRate <= 7 && 20 <= taxRate <= 30 && 12 <= cashRate <= 25
      && 4_000 <= inventoryDays <= 7_000 && 4_500 <= receivableDays <= 7_500 && 4_000 <= payableDays <= 7_000
      && 85 <= currentAssetRate <= 95 && 14 <= shortDebtRate <= 18 && 16 <= otherLiabilityRate <= 22
      && 26 <= longDebtRate <= 38 && 190 <= assetRate <= 290 && 115 <= netWorthRate <= 155
      && 60 <= serviceRate <= 90 && 4 <= capexRate <= 12 && dividendRate <= 4 && 4_500 <= promoterShare <= 8_500
    }
  }

  datatype Lines = Lines(
    revenue: int, costOfGoodsSold: int, operatingExpenses: int, depreciation: int, financeCost: int, taxExpense: int,
    profitAfterTax: int, cashAndBank: int, inventory: int, receivables: int, otherCurrentAssets: int, payables: int,
    shortTermDebt: int, otherCurrentLiabilities: int, longTermDebt: int, totalLiabilities: int, tangibleNetWorth: int,
    totalAssets: int, capex: int, cashFlowOperations: int, cashFlowDebtService: int, dividendPaid: int,
    promoterShareholding: int)
  {
    function Ebit(): int { revenue - costOfGoodsSold - operatingExpenses - depreciation }

    function Debt(): int { shortTermDebt + longTermDebt }

    function CurrentAssets(): int { cashAndBank + inventory + receivables + otherCurrentAssets }

    function CurrentLiabilities(): int { payables + shortTermDebt + otherCurrentLiabilities }
  }

  /** Every line of a statement in terms of what was drawn. */
  predicate Drawn(d: Draws, lines: Lines)
  {
    && lines.revenue == d.revenue && lines.costOfGoodsSold == Share(d.revenue, d.cogsRate)
    && lines.operatingExpenses == Share(d.revenue, d.operatingRate) && lines.depreciation == Share(d.revenue, d.depreciationRate)
    && lines.financeCost == Share(d.revenue, d.financeRate) && lines.taxExpense == Share(lines.Ebit(), d.taxRate)
    && lines.profitAfterTax == lines.Ebit() - lines.financeCost - lines.taxExpense
    && lines.cashAndBank == Share(d.revenue, d.cashRate) && lines.inventory == DaysOf(lines.costOfGoodsSold, d.inventoryDays)
    && lines.receivables == DaysOf(d.revenue, d.receivableDays) && lines.payables == DaysOf(lines.costOfGoodsSold, d.payableDays)
    && lines.CurrentAssets() == Share(d.revenue, d.currentAssetRate)
    && lines.shortTermDebt == Share(d.revenue, d.shortDebtRate) && lines.longTermDebt == Share(d.revenue, d.longDebtRate)
    && lines.otherCurrentLiabilities == Share(d.revenue, d.otherLiabilityRate)
    && lines.tangibleNetWorth == Share(d.revenue, d.netWorthRate)
    && lines.totalLiabilities == (if DrawnLiabilities(d) > lines.Debt() then DrawnLiabilities(d) else lines.Debt() + Share(d.revenue, 45))
    && lines.totalAssets == lines.totalLiabilities + lines.tangibleNetWorth
    && lines.capex == Share(d.revenue, d.capexRate) && lines.dividendPaid == Share(d.revenue, d.dividendRate)
    && lines.cashFlowOperations == lines.Ebit() + lines.depreciation - lines.financeCost
    && lines.cashFlowDebtService == Share(lines.Ebit() + lines.depreciation, d.serviceRate)
    && lines.promoterShareholding == d.promoterShare
  }

  /** `_period_lines`. Current assets are the drawn share, so the repair of other current assets is never made. */
  method PeriodLines(d: Draws) returns (lines: Lines)
    requires d.InRange()
    ensures Drawn(d, lines) && Balances(lines)
    ensures var drawn := DrawnLiabilities(d);
            Covered(lines) <==> drawn <= lines.Debt() || drawn >= lines.Debt() + lines.payables + lines.otherCurrentLiabilities
  {
    hide Nearest;
    var revenue := d.revenue;
    var cogs := Share(revenue, d.cogsRate);
    var operating := Share(revenue, d.operatingRate);
    var depreciation := Share(revenue, d.depreciationRate);
    var finance := Share(revenue, d.financeRate);
    var ebit := revenue - cogs - operating - depreciation;
    var tax := Share(ebit, d.taxRate);
    var profit := revenue - cogs - operating - depreciation - finance - tax;

    var cash := Share(revenue, d.cashRate);
    var inventory := DaysOf(cogs, d.inventoryDays);
    var receivables := DaysOf(revenue, d.receivableDays);
    var payables := DaysOf(cogs, d.payableDays);

    var currentAssets := Share(revenue, d.currentAssetRate);
    var otherCurrentAssets := currentAssets - cash - inventory - receivables;
    OtherAssetsPositive(d);
    if otherCurrentAssets <= 0 {
      otherCurrentAssets := 1;
      currentAssets := cash + inventory + receivables + otherCurrentAssets;
    }

    var shortDebt := Share(revenue, d.shortDebtRate);
    var otherLiabilities := Share(revenue, d.otherLiabilityRate);
    var longDebt := Share(revenue, d.longDebtRate);
    var debt := shortDebt + longDebt;
    var assets := Share(revenue, d.assetRate);
    var netWorth := Share(revenue, d.netWorthRate);
    var liabilities := assets - netWorth;
    if liabilities <= debt {
      liabilities := debt + Share(revenue, 45);
      assets := liabilities + netWorth;
    }

    var ebitda := ebit + depreciation;
    lines := Lines(
      revenue, cogs, operating, depreciation, finance, tax, profit, cash, inventory, receivables, otherCurrentAssets, payables,
      shortDebt, otherLiabilities, longDebt, liabilities, netWorth, assets, Share(revenue, d.capexRate), ebitda - finance,
      Share(ebitda, d.serviceRate), Share(revenue, d.dividendRate), d.promoterShare);
    StatementBalances(d, lines);
    LiabilitiesCovered(d, lines);
  }

  /** What a coherent statement satisfies. */
  predicate Balances(lines: Lines)
  {
    && lines.totalAssets == lines.totalLiabilities + lines.tangibleNetWorth
    && lines.totalLiabilities > lines.Debt()
    && lines.Ebit() > 0
    && lines.otherCurrentAssets > 0
    && lines.CurrentAssets() > lines.CurrentLiabilities()
  }

  /** Cash, stock and receivables never use up the current assets, so the repair branch is never taken. */
  lemma OtherAssetsPositive(d: Draws)
    requires d.InRange()
    ensures var cogs := Share(d.revenue, d.cogsRate);
            Share(d.revenue, d.currentAssetRate) - Share(d.revenue, d.cashRate) - DaysOf(cogs, d.inventoryDays)
            - DaysOf(d.revenue, d.receivableDays) > 0
  {
    hide Share, DaysOf;
    var cogs := Share(d.revenue, d.cogsRate);
    ShareBetween(d.revenue, d.cogsRate, 55, 65);
    ShareBetween(d.revenue, d.currentAssetRate, 85, 95);
    ShareBetween(d.revenue, d.cashRate, 12, 25);
    DaysBetween(cogs, d.inventoryDays, 7_000);
    DaysBetween(d.revenue, d.receivableDays, 7_500);
  }

  lemma StatementBalances(d: Draws, lines: Lines)
    requires d.InRange() && Drawn(d, lines)
    ensures Balances(lines)
  {
    hide Share, DaysOf;
    ShareBetween(d.revenue, d.cogsRate, 55, 65);
    ShareBetween(d.revenue, d.operatingRate, 15, 22);
    ShareBetween(d.revenue, d.depreciationRate, 2, 5);
    ShareBetween(d.revenue, d.currentAssetRate, 85, 95);
    ShareBetween(d.revenue, d.shortDebtRate, 14, 18);
    ShareBetween(d.revenue, d.otherLiabilityRate, 16, 22);
    ShareBetween(d.revenue, 45, 45, 45);
    DaysBetween(lines.costOfGoodsSold, d.payableDays, 7_000);
    OtherAssetsPositive(d);
  }

  /** Do the total liabilities hold the current ones and the long-term debt together? */
  predicate Covered(lines: Lines) { lines.totalLiabilities >= lines.CurrentLiabilities() + lines.longTermDebt }

  /** The liabilities drawn as the difference of total assets and net worth. */
  function DrawnLiabilities(d: Draws): int { Share(d.revenue, d.assetRate) - Share(d.revenue, d.netWorthRate) }

  /**
   * Total liabilities cover the listed ones exactly when the drawn ones are repaired or already cover them: the
   * repair, 45 per cent of revenue, exceeds payables and other liabilities in every draw.
   */
  lemma LiabilitiesCovered(d: Draws, lines: Lines)
    requires d.InRange() && Drawn(d, lines)
    ensures var drawn := DrawnLiabilities(d);
            Covered(lines) <==> drawn <= lines.Debt() || drawn >= lines.Debt() + lines.payables + lines.otherCurrentLiabilities
  {
    hide Share, DaysOf;
    ShareBetween(d.revenue, d.cogsRate, 55, 65);
    ShareBetween(d.revenue, d.otherLiabilityRate, 16, 22);
    ShareBetween(d.revenue, 45, 45, 45);
    DaysBetween(lines.costOfGoodsSold, d.payableDays, 7_000);
  }

  /** A draw whose liabilities lie between: 100.00 in all, of which 148.44 are listed. */
  lemma LiabilitiesCanBeExceeded(lines: Lines)
    requires Drawn(Draws(20_000, 60, 20, 4, 4, 25, 20, 5_000, 5_000, 5_000, 90, 16, 20, 30, 190, 140, 75, 8, 2, 6_000), lines)
    ensures lines.totalLiabilities == 10_000 && lines.CurrentLiabilities() + lines.longTermDebt == 14_844 && !Covered(lines)
  {
    assert Share(20_000, 190) == 38_000 && Share(20_000, 140) == 28_000;
    assert Share(20_000, 16) == 3_200 && Share(20_000, 30) == 6_000 && Share(20_000, 60) == 12_000 && Share(20_000, 20) == 4_000;
    assert DaysOf(12_000, 5_000) == 1_644;
  }

  // ---------- fiscal quarters ----------

  datatype Date = Date(year: int, month: int, day: int)

  predicate IsLeap(year: int) { year % 4 == 0 && (year % 100 != 0 || year % 400 == 0) }

  /** `calendar.monthrange(year, month)[1]`. */
  function DaysIn(year: int, month: int): int
  {
    if month == 2 then (if IsLeap(year) then 29 else 28)
    else if month in {4, 6, 9, 11} then 30 else 31
  }

  function NextDay(d: Date): Date
  {
    if d.day < DaysIn(d.year, d.month) then d.(day := d.day + 1)
    else if d.month < 12 then Date(d.year, d.month + 1, 1)
    else Date(d.year + 1, 1, 1)
  }

  datatype Quarter = Quarter(name: string, start: Date, end: Date)

  /** `_fiscal_quarter`; None is the ValueError of a year that dates do not cover. */
  function FiscalQuarter(firstYear: int, offset: nat): Option<Quarter>
    requires 2000 <= firstYear <= 2099
  {
    var fiscalYear, quarter := firstYear + offset / 4, offset % 4 + 1;
    var (startYear, startMonth, endMonth) :=
      if quarter == 1 then (fiscalYear - 1, 4, 6)
      else if quarter == 2 then (fiscalYear - 1, 7, 9)
      else if quarter == 3 then (fiscalYear - 1, 10, 12)
      else (fiscalYear, 1, 3);
    if startYear > 9999 then None else
    Some(Quarter(
      "FY" + Padded(fiscalYear % 100, 2) + "Q" + NatText(quarter),
      Date(startYear, startMonth, 1),
      Date(startYear, endMonth, DaysIn(startYear, endMonth))))
  }

  /**
   * Fiscal year y starts in April of the year before: its quarters are April to June, July to September and October
   * to December of year y - 1, and January to March of year y, under the last two digits of y.
   */
  lemma QuarterDates(firstYear: int, offset: nat, y: int)
    requires 2000 <= firstYear <= 2099 && y == firstYear + offset / 4 && FiscalQuarter(firstYear, offset).Some?
    ensures var quarter := FiscalQuarter(firstYear, offset).value;
            && |quarter.name| == 6 && quarter.name[..2] == "FY" && quarter.name[4] == 'Q'
            && IsDigit(quarter.name[2]) && IsDigit(quarter.name[3])
            && 10 * DigitValue(quarter.name[2]) + DigitValue(quarter.name[3]) == y % 100
            && match offset % 4
               case 0 => quarter.name[5] == '1' && quarter.start == Date(y - 1, 4, 1) && quarter.end == Date(y - 1, 6, 30)
               case 1 => quarter.name[5] == '2' && quarter.start == Date(y - 1, 7, 1) && quarter.end == Date(y - 1, 9, 30)
               case 2 => quarter.name[5] == '3' && quarter.start == Date(y - 1, 10, 1) && quarter.end == Date(y - 1, 12, 31)
               case _ => quarter.name[5] == '4' && quarter.start == Date(y, 1, 1) && quarter.end == Date(y, 3, 31)
  {
    var year := y % 100;
    TwoDigits(year);
    QuarterDigit(offset % 4 + 1);
    hide Padded, NatText;
  }

  lemma TwoDigits(n: nat)
    requires n < 100
    ensures Padded(n, 2) == [DigitChar(n / 10), DigitChar(n % 10)]
  {
    OneDigit(n / 10);
    assert Padded(n, 2) == Padded(n / 10, 1) + [DigitChar(n % 10)];
  }

  lemma OneDigit(n: nat)
    requires n < 10
    ensures Padded(n, 1) == [DigitChar(n)]
  {
    assert Padded(n / 10, 0) == "" && n % 10 == n;
  }

  lemma QuarterDigit(n: nat)
    requires 1 <= n <= 4
    ensures NatText(n) == [DigitChar(n)] && NatText(n) == (if n == 1 then "1" else if n == 2 then "2" else if n == 3 then "3" else "4")
  {}

  /** Consecutive quarters tile the calendar: each one starts the day after the one before it ends. */
  lemma QuartersTile(firstYear: int, offset: nat)
    requires 2000 <= firstYear <= 2099 && FiscalQuarter(firstYear, offset + 1).Some?
    ensures FiscalQuarter(firstYear, offset).Some?
    ensures NextDay(FiscalQuarter(firstYear, offset).value.end) == FiscalQuarter(firstYear, offset + 1).value.start
  {
    hide Padded, NatText;
    var r := offset % 4;
    if r < 3 {
      assert (offset + 1) / 4 == offset / 4 && (offset + 1) % 4 == r + 1;
    } else {
      assert (offset + 1) / 4 == offset / 4 + 1 && (offset + 1) % 4 == 0;
    }
  }

  /** Two quarters share a name exactly when they lie a whole number of centuries apart. */
  lemma QuarterNames(firstYear: int, a: nat, b: nat)
    requires 2000 <= firstYear <= 2099 && FiscalQuarter(firstYear, a).Some? && FiscalQuarter(firstYear, b).Some?
    ensures FiscalQuarter(firstYear, a).value.name == FiscalQuarter(firstYear, b).value.name <==> (a - b) % 400 == 0
  {
    var ya, yb := (firstYear + a / 4) % 100, (firstYear + b / 4) % 100;
    var na, nb := FiscalQuarter(firstYear, a).value.name, FiscalQuarter(firstYear, b).value.name;
    if na == nb {
      SameName(ya, a % 4 + 1, yb, b % 4 + 1);
    }
    hide Padded, NatText;
    SameCycle(firstYear, a, b);
  }

  lemma SameName(ya: nat, qa: nat, yb: nat, qb: nat)
    requires ya < 100 && yb < 100 && 1 <= qa <= 4 && 1 <= qb <= 4
    requires "FY" + Padded(ya, 2) + "Q" + NatText(qa) == "FY" + Padded(yb, 2) + "Q" + NatText(qb)
    ensures ya == yb && qa == qb
  {
    var s, t := "FY" + Padded(ya, 2) + "Q" + NatText(qa), "FY" + Padded(yb, 2) + "Q" + NatText(qb);
    assert s[2..4] == Padded(ya, 2) && t[2..4] == Padded(yb, 2);
    assert s[5..] == NatText(qa) && t[5..] == NatText(qb);
    hide Padded, NatText;
    assert Pow10(2) == 100;
    PaddedInjective(ya, yb, 2);
    NatTextValue(qa);
    NatTextValue(qb);
  }

  lemma SameRemainder(u: int, v: int)
    ensures u % 100 == v % 100 <==> (u - v) % 100 == 0
  {
    var m, n := u / 100, v / 100;
    assert u == 100 * m + u % 100 && v == 100 * n + v % 100;
  }

  lemma SameCycle(firstYear: int, a: nat, b: nat)
    ensures (firstYear + a / 4) % 100 == (firstYear + b / 4) % 100 && a % 4 == b % 4 <==> (a - b) % 400 == 0
  {
    var x, y := a / 4, b / 4;
    SameRemainder(firstYear + x, firstYear + y);
    var z := x - y;
    assert firstYear + x - (firstYear + y) == z;
    if a % 4 == b % 4 {
      assert a - b == 4 * z;
      FourTimes(z);
    } else {
      assert a - b == 4 * z + (a % 4 - b % 4);
      NotFourTimes(z, a % 4 - b % 4);
    }
  }

  lemma FourTimes(z: int)
    ensures z % 100 == 0 <==> 4 * z % 400 == 0
  {
    var q, r := z / 100, z % 100;
    assert z == 100 * q + r && 4 * z == 400 * q + 4 * r;
  }

  lemma NotFourTimes(z: int, r: int)
    requires -4 < r < 4 && r != 0
    ensures (4 * z + r) % 400 != 0
  {
    var q := (4 * z + r) / 400;
    assert (4 * z + r) % 400 == 4 * z + r - 400 * q;
  }
}
