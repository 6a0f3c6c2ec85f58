/** Investment metrics over a cash-flow series: the payback year, the
    cumulative cash flow and the discounted-cash-flow table. */
module Metrics {
  import opened Numeric

  /** Reference definition of the payback year: one plus the number of
      leading negative cash flows. */
  function PaybackYear(cashFlow: seq<real>): (y: nat)
    ensures 1 <= y <= |cashFlow| + 1
  {
    if cashFlow == [] then 1
    else if cashFlow[0] < 0.0 then 1 + PaybackYear(cashFlow[1..])
    else 1
  }

  /** The payback year is one plus the index of the first non-negative cash
      flow, every earlier one being negative; with no non-negative cash flow
      it is one past the last year. */
  lemma {:induction false} PaybackYearIsFirstNonNegative(cashFlow: seq<real>)
    ensures forall j :: 0 <= j < PaybackYear(cashFlow) - 1 ==> cashFlow[j] < 0.0
    ensures PaybackYear(cashFlow) <= |cashFlow| ==> cashFlow[PaybackYear(cashFlow) - 1] >= 0.0
    ensures (forall j :: 0 <= j < |cashFlow| ==> cashFlow[j] < 0.0) ==> PaybackYear(cashFlow) == |cashFlow| + 1
  {
    if cashFlow != [] && cashFlow[0] < 0.0 {
      var rest := cashFlow[1..];
      PaybackYearIsFirstNonNegative(rest);
      assert forall j :: 1 <= j < |cashFlow| ==> cashFlow[j] == rest[j - 1];
    }
  }

  /** Count the years until the first non-negative cash flow. */
  method Payback(cashFlow: seq<real>) returns (years: nat)
    ensures years == PaybackYear(cashFlow)
    ensures 1 <= years <= |cashFlow| + 1
    ensures forall j :: 0 <= j < years - 1 ==> cashFlow[j] < 0.0
    ensures years <= |cashFlow| ==> cashFlow[years - 1] >= 0.0
  {
    years := 1;
    for i := 0 to |cashFlow|
      invariant years == i + 1
      invariant forall j :: 0 <= j < i ==> cashFlow[j] < 0.0
      invariant PaybackYear(cashFlow) == i + PaybackYear(cashFlow[i..])
    {
      var cash := cashFlow[i];
      if cash < 0.0 {
        years := years + 1;
        assert cashFlow[i..][1..] == cashFlow[i + 1..];
      }
      if cash >= 0.0 {
        break;
      }
    }
  }

  /** Two negative years before the first positive one: payback in year 3. */
  lemma PaybackExample()
    ensures PaybackYear([-100.0, -20.0, 30.0, 40.0]) == 3
  {
    var s := [-100.0, -20.0, 30.0, 40.0];
    assert s[1..] == [-20.0, 30.0, 40.0];
    assert s[1..][1..] == [30.0, 40.0];
  }

  /** The running total of a series, as `np.cumsum`. */
  function CumulativeSum(s: seq<real>): (c: seq<real>)
    ensures |c| == |s|
  {
    if s == [] then [] else CumulativeSum(s[..|s| - 1]) + [Sum(s)]
  }

  /** Entry `i` of the running total is the sum of the first `i + 1`
      entries. */
  lemma {:induction false} CumulativeSumIsPrefixSum(s: seq<real>, i: nat)
    requires i < |s|
    ensures CumulativeSum(s)[i] == Sum(s[..i + 1])
  {
    if i == |s| - 1 {
      assert s[..i + 1] == s;
    } else {
      var init := s[..|s| - 1];
      CumulativeSumIsPrefixSum(init, i);
      assert init[..i + 1] == s[..i + 1];
    }
  }

  /** The running total starts with the first entry and then adds one entry
      per year. */
  lemma CumulativeSumStep(s: seq<real>, i: nat)
    requires i < |s|
    ensures CumulativeSum(s)[i] == if i == 0 then s[0] else CumulativeSum(s)[i - 1] + s[i]
  {
    CumulativeSumIsPrefixSum(s, i);
    if i == 0 {
      assert s[..1][..0] == [];
    } else {
      CumulativeSumIsPrefixSum(s, i - 1);
      assert s[..i + 1][..i] == s[..i];
    }
  }

  /** Once every cash flow from year `from` on is non-negative, the
      cumulative cash flow never decreases from year `from - 1` on. */
  lemma {:induction false} CumulativeNonDecreasing(s: seq<real>, from: nat, i: nat, j: nat)
    requires forall t :: from <= t < |s| ==> s[t] >= 0.0
    requires from <= i + 1 && i <= j < |s|
    ensures CumulativeSum(s)[i] <= CumulativeSum(s)[j]
    decreases j - i
  {
    if i < j {
      CumulativeNonDecreasing(s, from, i, j - 1);
      CumulativeSumStep(s, j);
    }
  }

  /** The value of `amount` discounted back `k` years at `rate`. */
  function Discounted(amount: real, rate: real, k: nat): (v: real)
    requires rate != -1.0
    ensures k == 0 ==> v == amount
  {
    amount / Power(1.0 + rate, k)
  }

  /** Discounting one year further divides by `1 + rate`. */
  lemma DiscountedStep(amount: real, rate: real, k: nat)
    requires rate != -1.0
    ensures Discounted(amount, rate, k + 1) * (1.0 + rate) == Discounted(amount, rate, k)
  {
    DivideStep(amount, 1.0 + rate, Power(1.0 + rate, k));
  }

  lemma DivideStep(a: real, b: real, p: real)
    requires b != 0.0 && p != 0.0
    ensures a / (b * p) * b == a / p
  {
  }

  /** The discounted-cash-flow table: row `i` holds the cash flow of year
      `i` discounted back 0, 1, ..., n-1 years. Column 0 is the cash flow
      itself, and each further column divides by `1 + rate`. */
  method DiscountTable(cashFlow: seq<real>, rate: real) returns (table: seq<seq<real>>)
    requires rate != -1.0
    ensures |table| == |cashFlow|
    ensures forall i :: 0 <= i < |table| ==> |table[i]| == |cashFlow|
    ensures forall i, k :: 0 <= i < |table| && 0 <= k < |cashFlow| ==>
              table[i][k] == Discounted(cashFlow[i], rate, k)
    ensures forall i :: 0 <= i < |table| && |cashFlow| > 0 ==> table[i][0] == cashFlow[i]
    ensures forall i, k :: 0 <= i < |table| && 0 <= k < |cashFlow| - 1 ==>
              table[i][k + 1] * (1.0 + rate) == table[i][k]
  {
    var n := |cashFlow|;
    table := [];
    for i := 0 to n
      invariant |table| == i
      invariant forall r :: 0 <= r < i ==> |table[r]| == n
      invariant forall r, k :: 0 <= r < i && 0 <= k < n ==> table[r][k] == Discounted(cashFlow[r], rate, k)
    {
      var amount := cashFlow[i];
      var row := seq(n, k requires 0 <= k < n => Discounted(amount, rate, k));
      table := table + [row];
    }
    forall i, k | 0 <= i < n && 0 <= k < n - 1
      ensures table[i][k + 1] * (1.0 + rate) == table[i][k]
    {
      DiscountedStep(cashFlow[i], rate, k);
    }
  }
}
