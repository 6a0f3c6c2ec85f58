# Techno-economic analysis of a steam power plant

This project models the cost core of `economic_analysis.py` in Dafny. It
covers the following parts:

- **Equipment costs.** Bare-cost correlations for the boiler, the centrifugal
  pump and the steam turbine, with Python's `int()` truncation toward zero.
  The out-of-range warnings, the installed-cost multiplier built from the
  capital-factor table, and William's power-law scaling rule.
- **Depreciation.** The schedule's loop charges a fixed annual fraction while
  at least that much remains. The final year takes the remainder.
- **Payback.** The year count up to the first non-negative cash flow.
- **The ledger.** Its 20 yearly columns hold the up-front investment, the
  padded depreciation and loan rows, and sales, water and salaries escalated
  year by year. They also hold earnings before tax (EBT), taxes with the
  clipping rule, earnings after tax (EAT), cash flow and its running total,
  and the discounted-cash-flow table.

Modules, one per concern:

- `Results`: `Result<T, E>`, the error path of an operation that has no
  real-valued result for some inputs. Python either raises there or returns
  a complex number.
- `Numeric`:
  - `Trunc` (Python's `int()` on a float);
  - `Power` for natural exponents;
  - `Sum` and `Repeat`;
  - the type `PowerFn` of non-integer powers (`x ** 0.9`, `x ** 0.75`,
    `x ** n`). Non-integer powers are taken as a parameter, so every property
    holds whatever values the power function has.
- `CapitalFactors`: the factor table and the installation multiplier.
- `Equipment`: correlations, installed costs, warnings, William's rule, and
  the plant's capital cost.
- `Financing`: the loan's argument checks and the depreciation schedule. The
  method `Depreciation` keeps the source's `while True` loop. It is proved
  equal to the reference schedule `Charges(Fractions(d), base)`.
- `Metrics`: payback (a loop proved against `PaybackYear`), the running
  total, and the discount table.
- `CashFlow`: the ledger. The method `Execute` builds it with the source's
  loops: year-by-year escalation into arrays, and tax clipping in place. It
  is proved to satisfy the entrywise reference definition `IsLedger`. The
  lemmas state what holds of every ledger that satisfies it.

Three points of the code are easy to misread:

- **Tax clipping.** Taxes are `-0.3 * EBT`. Entries that come out positive,
  which are the loss years, are set to 0. So tax is never positive, and EAT
  is at least EBT (`CashFlow.TaxOn`, `CashFlow.LedgerTaxes`).
- **EBT.** EBT adds the water and salaries rows. Those rows already hold
  negative amounts.
- **Depreciation fraction.** The code accepts an annual fraction of 0, for
  which its loop never ends. The model requires a positive fraction.

## Model

| member | source | states |
|---|---|---|
| CapitalFactors.FactorOf | economic_analysis.py:9-22 | every entry of the factor table, for each factor and phase, is a fraction strictly between 0 and 1 |
| CapitalFactors.InstallationMultiplier | economic_analysis.py:42-45 | the installed multiplier read from the Fluids column is `1.8 * fm + 1.4` |
| Numeric.Trunc | economic_analysis.py:153 | `int()` truncates toward zero: a non-negative value is truncated down and a negative one up, to within one |
| Numeric.TruncOdd | economic_analysis.py:157 | truncation is symmetric about zero |
| Equipment.BoilerCorrelation | economic_analysis.py:140-153 | below 20000 kg/h, or below 200000 kg/h at a pressure in [15, 40), the cost is the linear formula truncated; in every other case it is the power law truncated |
| Equipment.PumpCorrelation | economic_analysis.py:159-161 | fails (complex power) exactly for a negative caudal; otherwise it is the truncated correlation, at least 6900 when the power term `caudal ** 0.9` is non-negative |
| Equipment.TurbineCorrelation | economic_analysis.py:155-157 | fails exactly for a negative power; otherwise it is the truncated correlation, at least -12000 when the power term `power ** 0.75` is non-negative |
| Equipment.TurbineTruncatesTowardZero | economic_analysis.py:155-157 | a correlation value strictly between -1 and 0 yields cost 0, where floor would yield -1 |
| Equipment.InstalledCost | economic_analysis.py:41-47 | a bare quote is returned unchanged; an installed one is the bare cost times `1.8 * fm + 1.4`, truncated |
| Equipment.InstalledMonotone | economic_analysis.py:41-47 | with a non-negative material factor, a larger bare cost never gives a smaller installed cost |
| Equipment.PlantCapex | economic_analysis.py:178-183 | the plant's capital cost (installed boiler, turbine and pump at the plant's sizes plus the scaled condenser) is at least 601280 when the power terms are non-negative |
| Equipment.InstalledNotBelowBare | economic_analysis.py:41-47 | for a non-negative bare cost and material factor, installing never lowers the cost |
| Equipment.Boiler | economic_analysis.py:24-47 | the cost is the installed boiler correlation; the production warning is raised iff Q < 5000 or Q > 800000 and the pressure warning iff p < 10 or p > 70, and no other warning |
| Equipment.Pump | economic_analysis.py:49-67 | fails iff the caudal is negative; otherwise the cost is the installed correlation and the caudal warning is raised iff Q < 0.2 or Q > 126 |
| Equipment.SteamTurbine | economic_analysis.py:69-87 | fails iff the power is negative; otherwise the cost is the installed correlation and the power warning is raised iff kW < 100 or kW > 20000 |
| Equipment.PlantBoilerCost | economic_analysis.py:178 | the plant's boiler (10000 kg/h, 70 bar) takes the linear branch: 193000 bare, 617600 installed, with no warning since the bounds are strict |
| Equipment.WilliamCorrelation | economic_analysis.py:127-138 | a zero reference capacity, or a zero capacity with a negative exponent, is a division by zero; a negative ratio is a complex power; otherwise the result is `cost_ref * (cap / cap_ref) ** n` |
| Financing.LoanArgumentsValid | economic_analysis.py:95-97 | the loan's checks: a positive amount, a rate in [0, 1] and a term longer than one year |
| CashFlow.PlantLoanValid | economic_analysis.py:192-193 | the plant's loan, 60% of its capital cost at 4% over 10 years, passes the loan's checks when the power terms are non-negative |
| Financing.FullYears | economic_analysis.py:116-121 | the number of full-fraction charges is the largest `k` with `k * d <= 1`, and at least one |
| Financing.FullYearsUnique | economic_analysis.py:116-121 | the bounds `k * d <= 1 < (k + 1) * d` determine the number of full years |
| Financing.Fractions | economic_analysis.py:113-121 | the schedule of fractions has one entry per full year plus the final remainder |
| Financing.Charges | economic_analysis.py:123 | each charge is minus its fraction times the depreciable base |
| Financing.FractionsShape | economic_analysis.py:116-121 | every entry but the last is the annual fraction; the last is at least 0 and less than the fraction |
| Financing.FractionsPrefixSum | economic_analysis.py:116-121 | after `i` full years exactly `i * d` has been charged |
| Financing.FractionsWithinRemaining | economic_analysis.py:116-121 | no entry exceeds what remained undepreciated before it |
| Financing.FractionsSumToOne | economic_analysis.py:113-121 | the fractions add up to exactly one |
| Financing.ChargesSum | economic_analysis.py:123 | the charges sum to minus the sum of the fractions times the base |
| Financing.ChargesTotal | economic_analysis.py:123 | the depreciation schedule writes off exactly `capex - residual_value` |
| Financing.Depreciation | economic_analysis.py:105-125 | the loop's output is the reference schedule `Charges(Fractions(d), capex - residual)` |
| Financing.SevenPercentSchedule | economic_analysis.py:196 | at 7% the schedule is 14 years of 7% and a final 2%; on 100000 that is fourteen charges of -7000 and one of -2000 |
| Financing.FinalFractionZero | economic_analysis.py:116-121 | the last entry is zero exactly when some whole number of years at the fraction writes off exactly one |
| Financing.HalfSchedule | economic_analysis.py:116-121 | at a fraction of 0.5 the schedule is `[0.5, 0.5, 0.0]` |
| Metrics.PaybackYear | economic_analysis.py:163-172 | the payback year lies between 1 and one past the number of years |
| Metrics.PaybackYearIsFirstNonNegative | economic_analysis.py:163-172 | the payback year is one plus the index of the first non-negative cash flow, every earlier one being negative, or one past the end if all are negative |
| Metrics.Payback | economic_analysis.py:163-172 | the loop returns `PaybackYear`: all years before it are negative and the year itself, if present, is non-negative |
| Metrics.PaybackExample | economic_analysis.py:163-172 | two negative years followed by a positive one give payback 3 |
| Metrics.CumulativeSum | economic_analysis.py:234 | the running total has one entry per year |
| Metrics.CumulativeSumIsPrefixSum | economic_analysis.py:234 | entry `i` of the running total is the sum of the first `i + 1` cash flows |
| Metrics.CumulativeSumStep | economic_analysis.py:234 | the running total starts at the first cash flow and adds one cash flow per year |
| Metrics.CumulativeNonDecreasing | economic_analysis.py:234 | once every later cash flow is non-negative, the running total never decreases |
| Metrics.Discounted | economic_analysis.py:253 | discounting zero years leaves an amount unchanged |
| Metrics.DiscountedStep | economic_analysis.py:253 | discounting one more year divides by `1 + rate` |
| Metrics.DiscountTable | economic_analysis.py:249-254 | the table is square; entry `(i, k)` is cash flow `i` discounted `k` years; column 0 is the cash flow and each further column is the previous divided by `1 + rate` |
| CashFlow.Padded | economic_analysis.py:205-207 | a padded row is 0 in year 0, the schedule from year 1, then zeros up to the horizon; a schedule that does not fit gets no zeros |
| CashFlow.PaddedSum | economic_analysis.py:205-207 | padding keeps a schedule's total |
| CashFlow.EscalatedClosedForm | economic_analysis.py:213-225 | from year 1, the escalated row is the year-1 amount times the growth factor raised to `year - 1` |
| CashFlow.EscalatedIncreasing | economic_analysis.py:223-225 | a positive row with growth above one rises strictly every year from year 1 |
| CashFlow.Escalate | economic_analysis.py:209-225 | the loop fills sales, water and salaries so that each row is the escalated row: 0 in year 0, the year-1 amount (costs negated) in year 1, and growth by 3%, 3% and 2% after |
| CashFlow.TaxOn | economic_analysis.py:228-231 | tax is never positive, is non-zero exactly when EBT is positive, is `-0.3 * EBT` for non-negative EBT, and never lowers EAT below EBT |
| CashFlow.ComputeTaxes | economic_analysis.py:228-231 | the in-place clipping loop leaves every entry equal to `TaxOn` of its EBT |
| CashFlow.Execute | economic_analysis.py:204-254 | fails (rows of unequal length) exactly when the depreciation schedule or the loan is longer than 19 years; otherwise the ledger satisfies the entrywise definition (investment, padded rows, escalation, EBT sum, taxes, EAT, cash flow, running total) and the table discounts each year's cash flow at 5.3% |
| CashFlow.LedgerTaxes | economic_analysis.py:227-232 | in every year taxes are never positive, are non-zero exactly when EBT is positive, and EAT is at least EBT |
| CashFlow.LedgerYearZero | economic_analysis.py:204-234 | year 0 holds only the up-front 40% of capex: no tax is due and the cash flow and its running total are `-0.4 * capex` |
| CashFlow.LedgerEscalation | economic_analysis.py:213-225 | from year 1, sales, water and salaries follow compound growth from their year-1 amounts |
| CashFlow.LedgerSalesIncrease | economic_analysis.py:223 | with positive year-1 sales, sales rise strictly every year from year 1 |
| CashFlow.LedgerDepreciationTotal | economic_analysis.py:196-205 | the depreciation row of a run sums to `-capex` |
| CashFlow.LedgerCumulative | economic_analysis.py:234 | the cumulative row is the prefix sum of the cash flows; its last entry is their total |
| CashFlow.LedgerPrincipalOutsideEarnings | economic_analysis.py:227-233 | the loan principal affects neither EBT, taxes nor EAT; cash flows differ exactly by the difference in principal |

## Left out

- The loan payment, interest and principal series (`pmt`, `ipmt`, `ppmt` from `numpy_financial`, lines 99-101) are foreign numerical code. Only the argument checks of lines 95-97 are modelled, as `Financing.LoanArgumentsValid`, which `CashFlow.Execute` requires. The series are inputs of `CashFlow.Execute`.
- Net present value and internal rate of return (`npv`, `irr`, lines 246-247) are foreign numerical code, and the IRR is a root search.
- Non-integer powers are not computed. They are the parameter `pow`, so a cost that uses one is known only in terms of `pow`'s value.
- Floating-point rounding is not modelled: amounts are exact reals. Where IEEE arithmetic would round (for example `1 - 14 * 0.07`), the model computes the exact value.
- `CashFlow.Execute` takes the capital cost as a parameter. `Equipment.PlantCapex` models the sum of lines 178-183, but `Execute` is not bound to it. Water, salaries and sales (lines 186-199) are parameters. The loan's rate and term are parameters, and its series are inputs. The depreciation fraction is also a parameter; the source fixes it at 0.07 (line 196). Only the residual value of 0 is kept.
- Printed warnings become a set of `Equipment.Warning` values in the returned `Equipment.Quote`. For a negative caudal or power the source prints the warning (lines 56-57, 75-77) and then fails at line 161 or 157. The model's `Err` carries no warning. Printing, plotting, the Excel export and the pandas data-frame wrapping of the ledger and the table are not part of this model.
- `assert type(installed) == bool` (lines 30, 54, 73) is enforced by the parameter's type.
- Equipment.WilliamCorrelation: a negative capacity ratio always yields `Err(ComplexPower)`. The source raises nothing there. For a non-integral exponent it returns `cost_ref` times a complex number, and for an integral exponent it returns a real number.
- Financing.Depreciation: requires an annual fraction greater than 0. The source's assertion (line 111) admits 0, for which its loop never ends.
