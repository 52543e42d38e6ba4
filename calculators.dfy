/**
 * The educational calculators (lib/calculators.ts): net income after expenses, the
 * quarterly estimated-tax illustration and the default expense lists per role.
 * JavaScript numbers are modelled as exact reals and `Math.round(x)` as `floor(x + 0.5)`.
 */
module Calculators {
  import opened Wrappers

  /** `ExpenseCategory`; `name` holds the source's `label`. */
  datatype ExpenseCategory = ExpenseCategory(name: string, amount: real)

  datatype NetIncomeResult = NetIncomeResult(
    grossIncome: real,
    totalExpenses: real,
    netIncome: real,
    expenses: seq<ExpenseCategory>)

  /**
   * `expenses.reduce((sum, e) => sum + e.amount, 0)`: a left fold from 0. Non-negative
   * amounts have a non-negative total.
   */
  function TotalExpenses(expenses: seq<ExpenseCategory>): (total: real)
    ensures (forall i :: 0 <= i < |expenses| ==> expenses[i].amount >= 0.0) ==> total >= 0.0
  {
    if expenses == [] then 0.0
    else TotalExpenses(expenses[..|expenses| - 1]) + expenses[|expenses| - 1].amount
  }

  /** The total of two lists run one after the other is the sum of their totals. */
  lemma {:induction false} TotalOfConcat(a: seq<ExpenseCategory>, b: seq<ExpenseCategory>)
    ensures TotalExpenses(a + b) == TotalExpenses(a) + TotalExpenses(b)
    decreases |b|
  {
    if b == [] {
      assert a + b == a;
    } else {
      assert (a + b)[..|a + b| - 1] == a + b[..|b| - 1];
      TotalOfConcat(a, b[..|b| - 1]);
    }
  }

  /** A list whose amounts are all 0 totals 0. */
  lemma {:induction false} TotalOfZeros(expenses: seq<ExpenseCategory>)
    requires forall i :: 0 <= i < |expenses| ==> expenses[i].amount == 0.0
    ensures TotalExpenses(expenses) == 0.0
  {
    if expenses != [] {
      TotalOfZeros(expenses[..|expenses| - 1]);
    }
  }

  /**
   * `calculateNetIncome`: the total of the expenses, and gross minus that total clamped
   * at 0; gross income and the expense list are echoed.
   */
  function CalculateNetIncome(grossIncome: real, expenses: seq<ExpenseCategory>): (r: NetIncomeResult)
    ensures r.grossIncome == grossIncome && r.expenses == expenses
    ensures r.totalExpenses == TotalExpenses(expenses)
    ensures r.netIncome >= 0.0
    ensures r.totalExpenses <= grossIncome ==> r.netIncome + r.totalExpenses == grossIncome
    ensures r.totalExpenses >= grossIncome ==> r.netIncome == 0.0
  {
    var totalExpenses := TotalExpenses(expenses);
    var netIncome := grossIncome - totalExpenses;
    NetIncomeResult(grossIncome, totalExpenses, if 0.0 >= netIncome then 0.0 else netIncome, expenses)
  }

  /** `Math.round`: the nearest integer, halves rounded up. */
  function Round(x: real): (n: int)
    ensures n as real - 0.5 <= x < n as real + 0.5
  {
    (x + 0.5).Floor
  }

  /**
   * Self-employment tax: 15.3% of 92.35% of net income, unrounded; in effect 14.12955% of
   * the income.
   */
  function SelfEmploymentTax(annualNetIncome: real): (tax: real)
    ensures tax == annualNetIncome * 0.1412955
    ensures annualNetIncome >= 0.0 ==> 0.0 <= tax <= annualNetIncome
  {
    annualNetIncome * 0.9235 * 0.153
  }

  /**
   * The income-tax base: net income less half the self-employment tax; in effect
   * 92.935225% of the income.
   */
  function TaxableIncome(annualNetIncome: real): (base: real)
    ensures base == annualNetIncome * 0.92935225
  {
    annualNetIncome - SelfEmploymentTax(annualNetIncome) * 0.5
  }

  /**
   * The five-bracket schedule as the source writes it: a constant plus a marginal rate.
   * On a non-negative base the tax lies between the lowest and the highest rate of it.
   */
  function IncomeTax(taxableIncome: real): (tax: real)
    ensures taxableIncome >= 0.0 ==> taxableIncome * 0.1 <= tax <= taxableIncome * 0.32
    ensures taxableIncome < 0.0 ==> tax == taxableIncome * 0.1
  {
    if taxableIncome <= 11600.0 then taxableIncome * 0.1
    else if taxableIncome <= 47150.0 then 1160.0 + (taxableIncome - 11600.0) * 0.12
    else if taxableIncome <= 100525.0 then 5426.0 + (taxableIncome - 47150.0) * 0.22
    else if taxableIncome <= 191950.0 then 17168.5 + (taxableIncome - 100525.0) * 0.24
    else 39110.5 + (taxableIncome - 191950.0) * 0.32
  }

  /** The part of `x` that falls between `lo` and `hi`. */
  function Portion(x: real, lo: real, hi: real): (p: real)
    requires lo <= hi
    ensures 0.0 <= p <= hi - lo
  {
    if x <= lo then 0.0 else if x >= hi then hi - lo else x - lo
  }

  /**
   * The same schedule stated bracket by bracket: each rate applies to the part of the
   * taxable income inside its bracket (10% to 11600, 12% to 47150, 22% to 100525,
   * 24% to 191950, 32% above).
   */
  function MarginalIncomeTax(taxableIncome: real): real {
    Portion(taxableIncome, 0.0, 11600.0) * 0.1
    + Portion(taxableIncome, 11600.0, 47150.0) * 0.12
    + Portion(taxableIncome, 47150.0, 100525.0) * 0.22
    + Portion(taxableIncome, 100525.0, 191950.0) * 0.24
    + (if taxableIncome > 191950.0 then (taxableIncome - 191950.0) * 0.32 else 0.0)
  }

  /**
   * The constants 1160, 5426, 17168.5 and 39110.5 are the tax owed on the lower brackets,
   * so the if-chain agrees with the bracket-by-bracket schedule on every non-negative income.
   */
  lemma IncomeTaxIsMarginal(taxableIncome: real)
    requires taxableIncome >= 0.0
    ensures IncomeTax(taxableIncome) == MarginalIncomeTax(taxableIncome)
  {
  }

  /**
   * No jump at a bracket edge: just above 11600, 47150, 100525 and 191950 the tax exceeds
   * the tax at the edge by exactly the next bracket's rate times the excess.
   */
  lemma IncomeTaxContinuousAtEdges(d: real)
    requires 0.0 < d <= 1.0
    ensures IncomeTax(11600.0 + d) - IncomeTax(11600.0) == d * 0.12
    ensures IncomeTax(47150.0 + d) - IncomeTax(47150.0) == d * 0.22
    ensures IncomeTax(100525.0 + d) - IncomeTax(100525.0) == d * 0.24
    ensures IncomeTax(191950.0 + d) - IncomeTax(191950.0) == d * 0.32
  {
  }

  /** More taxable income never means less income tax. */
  lemma IncomeTaxMonotone(x: real, y: real)
    requires x <= y
    ensures IncomeTax(x) <= IncomeTax(y)
  {
  }

  /** For non-negative net income the income-tax base is non-negative too. */
  lemma TaxableIncomeNonNegative(annualNetIncome: real)
    requires annualNetIncome >= 0.0
    ensures 0.0 <= TaxableIncome(annualNetIncome) <= annualNetIncome
  {
  }

  datatype QuarterlyEstimateResult = QuarterlyEstimateResult(
    annualNetIncome: real,
    selfEmploymentTax: int,
    estimatedIncomeTax: int,
    totalAnnualTax: int,
    quarterlyPayment: int,
    effectiveRate: real)

  /** Rounding each of two addends and their sum separately leaves the sums within 1 of each other. */
  lemma RoundOfSum(a: real, b: real)
    ensures -1 <= Round(a + b) - (Round(a) + Round(b)) <= 1
  {
  }

  /** Four rounded quarters are within 2 of the rounded whole. */
  lemma RoundOfQuarter(t: real)
    ensures -2 <= 4 * Round(t / 4.0) - Round(t) <= 2
  {
  }

  /** `(totalAnnualTax / annualNetIncome) * 100`, guarded against a zero or negative income. */
  function EffectiveRatePercent(totalAnnualTax: real, annualNetIncome: real): (rate: real)
    ensures annualNetIncome <= 0.0 ==> rate == 0.0
    ensures totalAnnualTax >= 0.0 ==> rate >= 0.0
  {
    if annualNetIncome > 0.0 then (totalAnnualTax / annualNetIncome) * 100.0 else 0.0
  }

  /** `Math.round(x * 10) / 10`: the nearest tenth, halves rounded up. */
  function RoundToTenth(x: real): (y: real)
    ensures x - 0.05 < y <= x + 0.05
    ensures x == 0.0 ==> y == 0.0
    ensures x >= 0.0 ==> y >= 0.0
  {
    var n := Round(x * 10.0);
    assert n as real - 0.5 <= x * 10.0 < n as real + 0.5;
    n as real / 10.0
  }

  /**
   * `calculateQuarterlyEstimate`: the unrounded self-employment tax, the bracket tax on the
   * reduced base, their sum and its quarter, each reported rounded on its own.
   */
  function CalculateQuarterlyEstimate(annualNetIncome: real): (r: QuarterlyEstimateResult)
    ensures r.annualNetIncome == annualNetIncome
  {
    var selfEmploymentTax := SelfEmploymentTax(annualNetIncome);
    var estimatedIncomeTax := IncomeTax(TaxableIncome(annualNetIncome));
    var totalAnnualTax := selfEmploymentTax + estimatedIncomeTax;
    var quarterlyPayment := totalAnnualTax / 4.0;
    QuarterlyEstimateResult(
      annualNetIncome,
      Round(selfEmploymentTax),
      Round(estimatedIncomeTax),
      Round(totalAnnualTax),
      Round(quarterlyPayment),
      RoundToTenth(EffectiveRatePercent(totalAnnualTax, annualNetIncome)))
  }

  /**
   * Each field is rounded on its own: the reported total is within 1 of the sum of the
   * reported parts, and four reported quarterly payments are within 2 of the reported total.
   */
  lemma QuarterlyRoundingArtefacts(annualNetIncome: real)
    ensures var r := CalculateQuarterlyEstimate(annualNetIncome);
      && -1 <= r.totalAnnualTax - (r.selfEmploymentTax + r.estimatedIncomeTax) <= 1
      && -2 <= 4 * r.quarterlyPayment - r.totalAnnualTax <= 2
  {
    var se := SelfEmploymentTax(annualNetIncome);
    var it := IncomeTax(TaxableIncome(annualNetIncome));
    RoundOfSum(se, it);
    RoundOfQuarter(se + it);
  }

  /** Zero income reports zero in every field, with no division. */
  lemma QuarterlyZeroIncome()
    ensures CalculateQuarterlyEstimate(0.0)
         == QuarterlyEstimateResult(0.0, 0, 0, 0, 0, 0.0)
  {
  }

  /** A non-positive income reports an effective rate of 0. */
  lemma QuarterlyRateGuard(annualNetIncome: real)
    requires annualNetIncome <= 0.0
    ensures CalculateQuarterlyEstimate(annualNetIncome).effectiveRate == 0.0
  {
  }

  /** A non-negative income never reports a negative amount or rate. */
  lemma QuarterlyNonNegative(annualNetIncome: real)
    requires annualNetIncome >= 0.0
    ensures var r := CalculateQuarterlyEstimate(annualNetIncome);
      && r.selfEmploymentTax >= 0 && r.estimatedIncomeTax >= 0 && r.totalAnnualTax >= 0
      && r.quarterlyPayment >= 0 && r.effectiveRate >= 0.0
  {
    TaxableIncomeNonNegative(annualNetIncome);
  }

  /** The eight categories offered to a role without its own list. */
  const CommonExpenses: seq<ExpenseCategory> := [
    ExpenseCategory("Booth rent / shop fees", 0.0),
    ExpenseCategory("Supplies & products", 0.0),
    ExpenseCategory("Tools & equipment", 0.0),
    ExpenseCategory("Continuing education", 0.0),
    ExpenseCategory("Software & apps", 0.0),
    ExpenseCategory("Marketing", 0.0),
    ExpenseCategory("Insurance", 0.0),
    ExpenseCategory("Other", 0.0)
  ]

  const BarberExpenses: seq<ExpenseCategory> := [
    ExpenseCategory("Booth rent / chair rental", 0.0),
    ExpenseCategory("Clippers & blades", 0.0),
    ExpenseCategory("Styling products", 0.0),
    ExpenseCategory("Capes & towels", 0.0),
    ExpenseCategory("Barber license renewal", 0.0),
    ExpenseCategory("Continuing education", 0.0),
    ExpenseCategory("Software & booking apps", 0.0),
    ExpenseCategory("Marketing", 0.0),
    ExpenseCategory("Insurance", 0.0),
    ExpenseCategory("Other", 0.0)
  ]

  const CosmetologistExpenses: seq<ExpenseCategory> := [
    ExpenseCategory("Booth rent / station rental", 0.0),
    ExpenseCategory("Hair color & chemicals", 0.0),
    ExpenseCategory("Styling tools", 0.0),
    ExpenseCategory("Skincare products", 0.0),
    ExpenseCategory("Cosmetology license renewal", 0.0),
    ExpenseCategory("Continuing education", 0.0),
    ExpenseCategory("Software & booking apps", 0.0),
    ExpenseCategory("Marketing", 0.0),
    ExpenseCategory("Insurance", 0.0),
    ExpenseCategory("Other", 0.0)
  ]

  /** No two categories of a list share a label. */
  predicate DistinctNames(expenses: seq<ExpenseCategory>) {
    forall i, j :: 0 <= i < j < |expenses| ==> expenses[i].name != expenses[j].name
  }

  /**
   * `getDefaultExpenses`: ten role-specific categories for a barber or a cosmetologist,
   * the eight common ones for any other role or none; every amount starts at 0 and no
   * label repeats within a list.
   */
  function GetDefaultExpenses(role: Option<string>): (expenses: seq<ExpenseCategory>)
    ensures |expenses| == if role == Some("barber") || role == Some("cosmetologist") then 10 else 8
    ensures forall i :: 0 <= i < |expenses| ==> expenses[i].amount == 0.0
    ensures DistinctNames(expenses)
  {
    if role == Some("barber") then BarberExpenses
    else if role == Some("cosmetologist") then CosmetologistExpenses
    else CommonExpenses
  }

  /** Before anything is typed in, the net income of the default list is the gross clamped at 0. */
  lemma DefaultExpensesCostNothing(grossIncome: real, role: Option<string>)
    ensures CalculateNetIncome(grossIncome, GetDefaultExpenses(role)).totalExpenses == 0.0
    ensures CalculateNetIncome(grossIncome, GetDefaultExpenses(role)).netIncome
         == if grossIncome >= 0.0 then grossIncome else 0.0
  {
    TotalOfZeros(GetDefaultExpenses(role));
  }
}
