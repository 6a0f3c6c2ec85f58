/** The year-by-year cash-flow ledger: padding the schedules to the
    horizon, escalating sales and operating costs, earnings before and after
    tax with the tax clipping rule, cash flow, its running total and the
    discounted-cash-flow table. */
module CashFlow {
  import opened Numeric
  import opened Results
  import opened Financing
  import opened Metrics
  import Equipment

  /** Number of year columns of the ledger (years 0 to 19). */
  const Horizon: nat := 20
  /** Part of the capital expenditure paid up front in year 0. */
  const InvestmentShare: real := 0.4
  /** Part of the capital expenditure financed by the loan. */
  const LoanShare: real := 0.6
  const SalesGrowth: real := 1.03
  const WaterGrowth: real := 1.03
  const SalaryGrowth: real := 1.02
  const TaxRate: real := 0.3
  /** Discount rate of the investment metrics. */
  const DiscountRate: real := 0.053

  /** The plant's loan, 60% of its capital cost at 4% over 10 years, meets
      the loan's argument checks whenever the power terms of the capital
      cost are non-negative. */
  lemma PlantLoanValid(pow: PowerFn)
    requires pow(1500.0, 0.75) >= 0.0 && pow(2.84, 0.9) >= 0.0 && pow(10000.0 / 15000.0, 0.8) >= 0.0
    ensures LoanArgumentsValid(LoanShare * Equipment.PlantCapex(pow), 0.04, 10)
  {
    var capex := Equipment.PlantCapex(pow);
    assert capex >= 601280.0;
    assert LoanShare * capex >= LoanShare * 601280.0;
  }

  /** Stacking rows of different lengths fails. */
  datatype LedgerError = RowLengthMismatch

  /** The ledger rows, each indexed by year. */
  datatype Ledger = Ledger(
    investment: seq<real>,
    sales: seq<real>,
    depreciation: seq<real>,
    loanPrincipal: seq<real>,
    loanInterest: seq<real>,
    salaries: seq<real>,
    water: seq<real>,
    ebt: seq<real>,
    taxes: seq<real>,
    eat: seq<real>,
    cashFlow: seq<real>,
    cumulativeCashFlow: seq<real>)

  /** What a run hands to its consumers: the ledger and the
      discounted-cash-flow table. */
  datatype Report = Report(ledger: Ledger, discounted: seq<seq<real>>)

  /** A schedule placed in a row: nothing in year 0, the schedule from year
      1, then zeros up to `years` entries. A schedule longer than `years - 1`
      gets no zeros and makes the row longer than `years`. */
  function Padded(schedule: seq<real>, years: nat): (row: seq<real>)
    ensures |row| == if |schedule| + 1 <= years then years else |schedule| + 1
    ensures row[0] == 0.0
    ensures forall i :: 1 <= i <= |schedule| ==> row[i] == schedule[i - 1]
    ensures forall i :: |schedule| < i < |row| ==> row[i] == 0.0
  {
    [0.0] + schedule + Repeat(0.0, if |schedule| + 1 <= years then years - 1 - |schedule| else 0)
  }

  /** A padded schedule keeps the schedule's total. */
  lemma PaddedSum(schedule: seq<real>, years: nat)
    ensures Sum(Padded(schedule, years)) == Sum(schedule)
  {
    var zeros := Repeat(0.0, if |schedule| + 1 <= years then years - 1 - |schedule| else 0);
    SumAppend([0.0] + schedule, zeros);
    SumAppend([0.0], schedule);
    SumConstant(|zeros|, 0.0);
    assert [0.0][..0] == [];
  }

  /** A row that is 0 in year 0, `first` in year 1 and grows by the factor
      `growth` every year after. */
  function Escalated(first: real, growth: real, year: nat): real
  {
    if year == 0 then 0.0
    else if year == 1 then first
    else Escalated(first, growth, year - 1) * growth
  }

  /** Closed form of the escalation: `first * growth^(year - 1)` from year 1. */
  lemma {:induction false} EscalatedClosedForm(first: real, growth: real, year: nat)
    requires year >= 1
    ensures Escalated(first, growth, year) == first * Power(growth, year - 1)
  {
    if year > 1 {
      EscalatedClosedForm(first, growth, year - 1);
      assert Power(growth, year - 1) == growth * Power(growth, year - 2);
    }
  }

  /** A positive row that grows by more than 1 a year increases strictly
      from year 1 on. */
  lemma {:induction false} EscalatedIncreasing(first: real, growth: real, i: nat, j: nat)
    requires first > 0.0 && growth > 1.0
    requires 1 <= i < j
    ensures 0.0 < Escalated(first, growth, i) < Escalated(first, growth, j)
    decreases j - i
  {
    if i + 1 < j {
      EscalatedIncreasing(first, growth, i, j - 1);
    } else {
      EscalatedPositive(first, growth, i);
    }
    GrowthIncreases(Escalated(first, growth, j - 1), growth, Escalated(first, growth, j));
  }

  lemma {:induction false} EscalatedPositive(first: real, growth: real, year: nat)
    requires first > 0.0 && growth > 1.0 && year >= 1
    ensures Escalated(first, growth, year) > 0.0
  {
    if year > 1 {
      EscalatedPositive(first, growth, year - 1);
      GrowthIncreases(Escalated(first, growth, year - 1), growth, Escalated(first, growth, year));
    }
  }

  lemma GrowthIncreases(x: real, growth: real, y: real)
    requires x > 0.0 && growth > 1.0 && y == x * growth
    ensures x < y
  {
  }

  /** One more year of escalation multiplies by the growth factor. */
  lemma EscalatedNext(first: real, growth: real, year: nat)
    requires year >= 2
    ensures Escalated(first, growth, year) == Escalated(first, growth, year - 1) * growth
  {
  }

  /** The sales, water and salaries rows over `years` years, filled year by
      year in place: zero in year 0, the base amount in year 1 (costs as
      negative amounts), escalated after. */
  method Escalate(years: nat, sales: real, water: real, salaries: real)
    returns (salesRow: seq<real>, waterRow: seq<real>, salariesRow: seq<real>)
    ensures |salesRow| == years && |waterRow| == years && |salariesRow| == years
    ensures forall i :: 0 <= i < years ==> salesRow[i] == Escalated(sales, SalesGrowth, i)
    ensures forall i :: 0 <= i < years ==> waterRow[i] == Escalated(-1.0 * water, WaterGrowth, i)
    ensures forall i :: 0 <= i < years ==> salariesRow[i] == Escalated(-1.0 * salaries, SalaryGrowth, i)
  {
    var salesArray := new real[years](_ => 0.0);
    var waterArray := new real[years](_ => 0.0);
    var salariesArray := new real[years](_ => 0.0);
    for i := 0 to years
      invariant forall j {:trigger salesArray[j]} :: 0 <= j < i ==> salesArray[j] == Escalated(sales, SalesGrowth, j)
      invariant forall j {:trigger waterArray[j]} :: 0 <= j < i ==> waterArray[j] == Escalated(-1.0 * water, WaterGrowth, j)
      invariant forall j {:trigger salariesArray[j]} :: 0 <= j < i ==> salariesArray[j] == Escalated(-1.0 * salaries, SalaryGrowth, j)
    {
      var nextSales, nextWater, nextSalaries;
      if i == 0 {
        nextSales, nextWater, nextSalaries := 0.0, 0.0, 0.0;
      } else if i == 1 {
        nextSales, nextWater, nextSalaries := sales, -1.0 * water, -1.0 * salaries;
      } else {
        nextSales := salesArray[i - 1] * SalesGrowth;
        nextWater := waterArray[i - 1] * WaterGrowth;
        nextSalaries := salariesArray[i - 1] * SalaryGrowth;
        EscalatedNext(sales, SalesGrowth, i);
        EscalatedNext(-1.0 * water, WaterGrowth, i);
        EscalatedNext(-1.0 * salaries, SalaryGrowth, i);
      }
      salesArray[i] := nextSales;
      waterArray[i] := nextWater;
      salariesArray[i] := nextSalaries;
    }
    salesRow, waterRow, salariesRow := salesArray[..], waterArray[..], salariesArray[..];
  }

  /** The tax of a year with earnings `ebt` before tax: `-0.3 * ebt`, set to
      zero where that is positive. Tax is never positive, and it is non-zero
      exactly in years with a profit. */
  function TaxOn(ebt: real): (tax: real)
    ensures tax <= 0.0
    ensures tax != 0.0 <==> ebt > 0.0
    ensures ebt >= 0.0 ==> tax == -TaxRate * ebt
    ensures ebt - tax >= ebt
  {
    var tax := ebt * -TaxRate;
    if tax > 0.0 then 0.0 else tax
  }

  /** The taxes row: `-0.3` times the earnings row, then every positive
      entry cleared in place. */
  method ComputeTaxes(ebt: seq<real>) returns (taxes: seq<real>)
    ensures |taxes| == |ebt|
    ensures forall i :: 0 <= i < |ebt| ==> taxes[i] == TaxOn(ebt[i])
  {
    var row := new real[|ebt|](i requires 0 <= i < |ebt| => ebt[i] * -TaxRate);
    for i := 0 to row.Length
      invariant forall j :: 0 <= j < i ==> row[j] == TaxOn(ebt[j])
      invariant forall j :: i <= j < row.Length ==> row[j] == ebt[j] * -TaxRate
    {
      if row[i] > 0.0 {
        row[i] := 0.0;
      }
    }
    taxes := row[..];
  }

  /** Reference definition of the ledger for a capital expenditure, a
      depreciation schedule, the loan interest and principal series and the
      year-1 sales, water and salaries. EBT adds the investment,
      depreciation, loan interest, sales, water and salaries rows; the loan
      principal is not part of it. */
  ghost predicate IsLedger(l: Ledger, capex: real, depreciation: seq<real>,
                           interest: seq<real>, principal: seq<real>,
                           sales: real, water: real, salaries: real)
  {
    && l.investment == [-capex * InvestmentShare] + Repeat(0.0, Horizon - 1)
    && l.depreciation == Padded(depreciation, Horizon)
    && l.loanInterest == Padded(interest, Horizon)
    && l.loanPrincipal == Padded(principal, Horizon)
    && |l.depreciation| == |l.loanInterest| == |l.loanPrincipal| == Horizon
    && |l.sales| == |l.water| == |l.salaries| == Horizon
    && |l.ebt| == |l.taxes| == |l.eat| == |l.cashFlow| == Horizon
    && (forall i {:trigger l.sales[i]} :: 0 <= i < Horizon ==> l.sales[i] == Escalated(sales, SalesGrowth, i))
    && (forall i {:trigger l.water[i]} :: 0 <= i < Horizon ==> l.water[i] == Escalated(-1.0 * water, WaterGrowth, i))
    && (forall i {:trigger l.salaries[i]} :: 0 <= i < Horizon ==>
          l.salaries[i] == Escalated(-1.0 * salaries, SalaryGrowth, i))
    && (forall i {:trigger l.ebt[i]} :: 0 <= i < Horizon ==>
          l.ebt[i] == l.investment[i] + l.depreciation[i] + l.loanInterest[i]
                      + l.sales[i] + l.water[i] + l.salaries[i])
    && (forall i {:trigger l.taxes[i]} :: 0 <= i < Horizon ==> l.taxes[i] == TaxOn(l.ebt[i]))
    && (forall i {:trigger l.eat[i]} :: 0 <= i < Horizon ==> l.eat[i] == l.ebt[i] - l.taxes[i])
    && (forall i {:trigger l.cashFlow[i]} :: 0 <= i < Horizon ==>
          l.cashFlow[i] == l.eat[i] - l.depreciation[i] + l.loanPrincipal[i])
    && l.cumulativeCashFlow == CumulativeSum(l.cashFlow)
  }

  /** Build the ledger and the discounted-cash-flow table. The capital
      expenditure, the annual depreciation fraction, the loan's rate and its
      interest and principal series, and the year-1 sales, water and
      salaries are the run's inputs. A depreciation schedule or a loan
      longer than 19 years gives rows longer than the horizon, and the run
      fails when it stacks them. */
  method Execute(capex: real, depreciationRate: real, loanRate: real,
                 loanInterest: seq<real>, loanPrincipal: seq<real>,
                 sales: real, water: real, salaries: real)
    returns (r: Result<Report, LedgerError>)
    requires LoanArgumentsValid(LoanShare * capex, loanRate, |loanInterest|)
    requires |loanPrincipal| == |loanInterest|
    requires 0.0 < depreciationRate <= 1.0
    ensures r.Err? <==> FullYears(depreciationRate) + 1 > Horizon - 1 || |loanInterest| > Horizon - 1
    ensures r.Ok? ==> IsLedger(r.value.ledger, capex, Charges(Fractions(depreciationRate), capex),
                               loanInterest, loanPrincipal, sales, water, salaries)
    ensures r.Ok? ==> |r.value.discounted| == Horizon
    ensures r.Ok? ==> forall i :: 0 <= i < Horizon ==> |r.value.discounted[i]| == Horizon
    ensures r.Ok? ==> forall i, k :: 0 <= i < Horizon && 0 <= k < Horizon ==>
              r.value.discounted[i][k] == Discounted(r.value.ledger.cashFlow[i], DiscountRate, k)
  {
    var dep := Depreciation(depreciationRate, capex, 0.0);
    assert capex - 0.0 == capex;

    var investment := [-capex * InvestmentShare] + Repeat(0.0, Horizon - 1);
    var depreciation := Padded(dep, Horizon);
    var principal := Padded(loanPrincipal, Horizon);
    var interest := Padded(loanInterest, Horizon);

    var salesRow, waterRow, salariesRow := Escalate(Horizon, sales, water, salaries);

    if |depreciation| != Horizon || |interest| != Horizon || |principal| != Horizon {
      return Err(RowLengthMismatch);
    }
    var ebt := seq(Horizon, i requires 0 <= i < Horizon =>
      investment[i] + depreciation[i] + interest[i] + salesRow[i] + waterRow[i] + salariesRow[i]);
    var taxes := ComputeTaxes(ebt);
    var eat := seq(Horizon, i requires 0 <= i < Horizon => ebt[i] - taxes[i]);
    var cashFlow := seq(Horizon, i requires 0 <= i < Horizon => eat[i] - depreciation[i] + principal[i]);
    var cumulative := CumulativeSum(cashFlow);

    var table := DiscountTable(cashFlow, DiscountRate);
    var ledger := Ledger(investment, salesRow, depreciation, principal, interest, salariesRow, waterRow,
                         ebt, taxes, eat, cashFlow, cumulative);
    assert IsLedger(ledger, capex, dep, loanInterest, loanPrincipal, sales, water, salaries);
    r := Ok(Report(ledger, table));
  }

  /** Taxes are never positive and are non-zero only in years with a
      positive EBT, so earnings after tax are never below earnings before
      tax. */
  lemma LedgerTaxes(l: Ledger, capex: real, depreciation: seq<real>, interest: seq<real>,
                    principal: seq<real>, sales: real, water: real, salaries: real, i: nat)
    requires IsLedger(l, capex, depreciation, interest, principal, sales, water, salaries)
    requires i < Horizon
    ensures l.taxes[i] <= 0.0
    ensures l.taxes[i] != 0.0 <==> l.ebt[i] > 0.0
    ensures l.eat[i] >= l.ebt[i]
  {
  }

  /** Year 0 holds only the up-front investment: with a positive capital
      expenditure it is a loss, so no tax is due and the cash flow (and its
      running total) is `-0.4 * capex`. */
  lemma LedgerYearZero(l: Ledger, capex: real, depreciation: seq<real>, interest: seq<real>,
                       principal: seq<real>, sales: real, water: real, salaries: real)
    requires IsLedger(l, capex, depreciation, interest, principal, sales, water, salaries)
    requires capex > 0.0
    ensures l.sales[0] == 0.0 && l.water[0] == 0.0 && l.salaries[0] == 0.0
    ensures l.depreciation[0] == 0.0 && l.loanInterest[0] == 0.0 && l.loanPrincipal[0] == 0.0
    ensures l.ebt[0] == -capex * InvestmentShare
    ensures l.taxes[0] == 0.0
    ensures l.cashFlow[0] == -capex * InvestmentShare
    ensures l.cumulativeCashFlow[0] == -capex * InvestmentShare
  {
    CumulativeSumStep(l.cashFlow, 0);
  }

  /** From year 1 the operating rows follow their compound growth: sales
      and water grow 3% a year, salaries 2%, starting from the year-1 amounts. */
  lemma LedgerEscalation(l: Ledger, capex: real, depreciation: seq<real>, interest: seq<real>,
                         principal: seq<real>, sales: real, water: real, salaries: real, i: nat)
    requires IsLedger(l, capex, depreciation, interest, principal, sales, water, salaries)
    requires 1 <= i < Horizon
    ensures l.sales[i] == sales * Power(SalesGrowth, i - 1)
    ensures l.water[i] == -1.0 * water * Power(WaterGrowth, i - 1)
    ensures l.salaries[i] == -1.0 * salaries * Power(SalaryGrowth, i - 1)
  {
    EscalatedClosedForm(sales, SalesGrowth, i);
    EscalatedClosedForm(-1.0 * water, WaterGrowth, i);
    EscalatedClosedForm(-1.0 * salaries, SalaryGrowth, i);
  }

  /** With positive year-1 sales, sales rise every year from year 1. */
  lemma LedgerSalesIncrease(l: Ledger, capex: real, depreciation: seq<real>, interest: seq<real>,
                            principal: seq<real>, sales: real, water: real, salaries: real, i: nat, j: nat)
    requires IsLedger(l, capex, depreciation, interest, principal, sales, water, salaries)
    requires sales > 0.0
    requires 1 <= i < j < Horizon
    ensures 0.0 < l.sales[i] < l.sales[j]
  {
    EscalatedIncreasing(sales, SalesGrowth, i, j);
  }

  /** The depreciation row of a run writes off the whole capital
      expenditure (no residual value): it sums to `-capex`. */
  lemma LedgerDepreciationTotal(l: Ledger, capex: real, rate: real, interest: seq<real>,
                                principal: seq<real>, sales: real, water: real, salaries: real)
    requires 0.0 < rate <= 1.0
    requires IsLedger(l, capex, Charges(Fractions(rate), capex), interest, principal, sales, water, salaries)
    ensures Sum(l.depreciation) == -capex
  {
    PaddedSum(Charges(Fractions(rate), capex), Horizon);
    ChargesTotal(rate, capex);
  }

  /** The cumulative row is the prefix sum of the cash-flow row; its last
      entry is the total cash flow over the horizon. */
  lemma LedgerCumulative(l: Ledger, capex: real, depreciation: seq<real>, interest: seq<real>,
                         principal: seq<real>, sales: real, water: real, salaries: real, i: nat)
    requires IsLedger(l, capex, depreciation, interest, principal, sales, water, salaries)
    requires i < Horizon
    ensures l.cumulativeCashFlow[i] == Sum(l.cashFlow[..i + 1])
    ensures l.cumulativeCashFlow[Horizon - 1] == Sum(l.cashFlow)
  {
    CumulativeSumIsPrefixSum(l.cashFlow, i);
    CumulativeSumIsPrefixSum(l.cashFlow, Horizon - 1);
    assert l.cashFlow[..Horizon] == l.cashFlow;
  }

  /** The loan principal does not enter EBT, taxes or EAT: two ledgers that
      differ only in the principal series agree on those rows, and their cash
      flows differ by exactly the difference of the padded principal rows. */
  lemma LedgerPrincipalOutsideEarnings(l1: Ledger, l2: Ledger, capex: real, depreciation: seq<real>,
                                       interest: seq<real>, principal1: seq<real>, principal2: seq<real>,
                                       sales: real, water: real, salaries: real)
    requires IsLedger(l1, capex, depreciation, interest, principal1, sales, water, salaries)
    requires IsLedger(l2, capex, depreciation, interest, principal2, sales, water, salaries)
    ensures l1.ebt == l2.ebt && l1.taxes == l2.taxes && l1.eat == l2.eat
    ensures forall i :: 0 <= i < Horizon ==>
              l1.cashFlow[i] - l2.cashFlow[i] == l1.loanPrincipal[i] - l2.loanPrincipal[i]
  {
    assert l1.sales == l2.sales && l1.water == l2.water && l1.salaries == l2.salaries;
    assert l1.ebt == l2.ebt;
    assert l1.taxes == l2.taxes;
  }
}
