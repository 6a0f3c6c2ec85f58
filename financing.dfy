/** The financing schedules: what a loan demands of its arguments, and the
    depreciation schedule that writes the depreciable base off a fixed
    fraction per year, the last year taking what remains. */
module Financing {
  import opened Numeric

  /** What the loan computation demands of its arguments: a positive amount,
      an annual rate that is a fraction of unity and a term of more than one
      year. */
  predicate LoanArgumentsValid(quantity: real, interest: real, years: int)
  {
    quantity > 0.0 && 0.0 <= interest <= 1.0 && years > 1
  }

  /** The number of years charged at the full annual fraction `d`: the
      largest `k` with `k * d <= 1`. */
  function FullYears(d: real): (k: nat)
    requires 0.0 < d <= 1.0
    ensures k >= 1
    ensures k as real * d <= 1.0 < (k as real + 1.0) * d
  {
    ReciprocalBounds(d);
    FloorScaled(1.0 / d, d, (1.0 / d).Floor as real);
    (1.0 / d).Floor
  }

  /** Any `m` full years with `m * d <= 1` fit in `FullYears(d)`. */
  lemma FullYearsMaximal(d: real, m: nat)
    requires 0.0 < d <= 1.0
    requires m as real * d <= 1.0
    ensures m <= FullYears(d)
  {
    var k := FullYears(d);
    if m > k {
      MultiplyMonotone(k as real + 1.0, m as real, d);
    }
  }

  /** The bounds in the contract of FullYears determine it. */
  lemma FullYearsUnique(d: real, n: nat)
    requires 0.0 < d <= 1.0
    requires n as real * d <= 1.0 < (n as real + 1.0) * d
    ensures n == FullYears(d)
  {
    var k := FullYears(d);
    FullYearsMaximal(d, n);
    if n < k {
      MultiplyMonotone(n as real + 1.0, k as real, d);
    }
  }

  // Facts of real arithmetic, kept free of integer conversions so that the
  // solver's nonlinear reasoning stays small.

  lemma MultiplyMonotone(a: real, b: real, d: real)
    requires a <= b && d > 0.0
    ensures a * d <= b * d
  {
  }

  lemma MultiplyStrictMonotone(a: real, b: real, d: real)
    requires a < b && d > 0.0
    ensures a * d < b * d
  {
  }

  lemma Distribute(a: real, d: real)
    ensures (a + 1.0) * d == a * d + d
  {
  }

  lemma ReciprocalBounds(d: real)
    requires 0.0 < d <= 1.0
    ensures 1.0 / d * d == 1.0
    ensures 1.0 / d >= 1.0
  {
    var q := 1.0 / d;
    assert q * d == 1.0;
    if q < 1.0 {
      MultiplyStrictMonotone(q, 1.0, d);
    }
  }

  lemma FloorScaled(q: real, d: real, k: real)
    requires d > 0.0 && q * d == 1.0
    requires k <= q < k + 1.0
    ensures k * d <= 1.0 < (k + 1.0) * d
  {
    MultiplyMonotone(k, q, d);
    MultiplyStrictMonotone(q, k + 1.0, d);
  }

  /** Reference definition of the schedule as fractions of the base: `d`
      for every full year, then the remainder `1 - k * d`. */
  function Fractions(d: real): (f: seq<real>)
    requires 0.0 < d <= 1.0
    ensures |f| == FullYears(d) + 1
  {
    var k := FullYears(d);
    Repeat(d, k) + [1.0 - k as real * d]
  }

  /** Each fraction as a (negative) charge against the depreciable base. */
  function Charges(fractions: seq<real>, base: real): (c: seq<real>)
    ensures |c| == |fractions|
    ensures forall i :: 0 <= i < |c| ==> c[i] == -1.0 * fractions[i] * base
  {
    seq(|fractions|, i requires 0 <= i < |fractions| => -1.0 * fractions[i] * base)
  }

  /** The schedule's shape: every entry but the last is `d`, and the last is
      the remaining fraction, at least zero and less than `d` (zero exactly
      when `d` divides one). */
  lemma FractionsShape(d: real)
    requires 0.0 < d <= 1.0
    ensures forall i :: 0 <= i < |Fractions(d)| - 1 ==> Fractions(d)[i] == d
    ensures 0.0 <= Fractions(d)[|Fractions(d)| - 1] < d
  {
  }

  /** `m` years at the fraction `d` write off exactly the whole base. */
  predicate WholeYears(d: real, m: nat)
  {
    m as real * d == 1.0
  }

  /** The last entry is zero exactly when `d` divides one: when some whole
      number of full years writes off the base exactly. */
  lemma FinalFractionZero(d: real)
    requires 0.0 < d <= 1.0
    ensures Fractions(d)[|Fractions(d)| - 1] == 0.0 <==> exists m: nat :: WholeYears(d, m)
  {
    var k := FullYears(d);
    if exists m: nat :: WholeYears(d, m) {
      var m: nat :| WholeYears(d, m);
      Distribute(m as real, d);
      FullYearsUnique(d, m);
    } else {
      assert !WholeYears(d, k);
    }
  }

  /** Before year `i` (within the full years) exactly `i * d` has been
      charged. */
  lemma FractionsPrefixSum(d: real, i: nat)
    requires 0.0 < d <= 1.0
    requires i <= FullYears(d)
    ensures Sum(Fractions(d)[..i]) == i as real * d
  {
    assert Fractions(d)[..i] == Repeat(d, i);
    SumConstant(i, d);
  }

  /** A further full year fits while `i` is below the number of full years. */
  lemma FullYearFits(d: real, i: nat)
    requires 0.0 < d <= 1.0
    requires i < FullYears(d)
    ensures i as real * d + d <= 1.0
  {
    MultiplyMonotone(i as real + 1.0, FullYears(d) as real, d);
    Distribute(i as real, d);
  }

  /** Each entry is at most what was left undepreciated before it. */
  lemma FractionsWithinRemaining(d: real, i: nat)
    requires 0.0 < d <= 1.0
    requires i < |Fractions(d)|
    ensures 0.0 <= Fractions(d)[i] <= 1.0 - Sum(Fractions(d)[..i])
  {
    FractionsPrefixSum(d, i);
    if i < FullYears(d) {
      FullYearFits(d, i);
    }
  }

  /** The fractions add up to exactly one: the whole base is written off. */
  lemma FractionsSumToOne(d: real)
    requires 0.0 < d <= 1.0
    ensures Sum(Fractions(d)) == 1.0
  {
    var k := FullYears(d);
    SumAppend(Repeat(d, k), [1.0 - k as real * d]);
    SumConstant(k, d);
    assert Sum([1.0 - k as real * d]) == 1.0 - k as real * d by {
      assert [1.0 - k as real * d][..0] == [];
    }
  }

  /** Charging every fraction against a base charges minus their sum. */
  lemma {:induction false} ChargesSum(fractions: seq<real>, base: real)
    ensures Sum(Charges(fractions, base)) == -1.0 * Sum(fractions) * base
  {
    if fractions != [] {
      var n := |fractions|;
      var c, c' := Charges(fractions, base), Charges(fractions[..n - 1], base);
      assert |c[..n - 1]| == |c'|;
      forall j | 0 <= j < n - 1
        ensures c[..n - 1][j] == c'[j]
      {
        assert c[j] == -1.0 * fractions[j] * base;
        assert c'[j] == -1.0 * fractions[..n - 1][j] * base;
      }
      assert c[..n - 1] == c';
      ChargesSum(fractions[..n - 1], base);
    }
  }

  /** The charges add up to minus the depreciable base. */
  lemma ChargesTotal(d: real, base: real)
    requires 0.0 < d <= 1.0
    ensures Sum(Charges(Fractions(d), base)) == -base
  {
    ChargesSum(Fractions(d), base);
    FractionsSumToOne(d);
  }

  /** Depreciation schedule for an annual fraction `annualPercent`: charge
      the full fraction while at least that much remains, then charge what
      remains and stop. The charges are negative amounts of
      `capex - residualValue`. An annual fraction of zero never stops, so it
      is excluded. */
  method Depreciation(annualPercent: real, capex: real, residualValue: real) returns (schedule: seq<real>)
    requires 0.0 < annualPercent <= 1.0
    ensures schedule == Charges(Fractions(annualPercent), capex - residualValue)
  {
    var fractions: seq<real> := [];
    var prev := 1.0;
    ghost var charged := 0.0;  // the number of full years so far, as a real
    while true
      invariant |fractions| <= FullYears(annualPercent)
      invariant charged == |fractions| as real
      invariant fractions == Repeat(annualPercent, |fractions|)
      invariant prev == 1.0 - charged * annualPercent
      invariant prev >= 0.0
      decreases FullYears(annualPercent) - |fractions|
    {
      if prev < annualPercent {
        LastFraction(annualPercent, |fractions|, charged, prev);
        fractions := fractions + [prev];
        break;
      }
      FullYearStep(annualPercent, |fractions|, charged, prev);
      fractions := fractions + [annualPercent];
      prev := prev - annualPercent;
      charged := charged + 1.0;
    }
    schedule := Charges(fractions, capex - residualValue);
  }

  /** Loop step of Depreciation: at least the annual fraction remains, so
      another full year is charged and the remainder stays non-negative. */
  lemma FullYearStep(d: real, n: nat, charged: real, prev: real)
    requires 0.0 < d <= 1.0
    requires charged == n as real
    requires prev == 1.0 - charged * d && prev >= d
    ensures n < FullYears(d)
    ensures prev - d == 1.0 - (charged + 1.0) * d
    ensures prev - d >= 0.0
  {
    Distribute(charged, d);
    AnotherFullYear(d, n);
  }

  /** Loop exit of Depreciation: less than the annual fraction remains, so
      the full years are over and the remainder completes the schedule. */
  lemma LastFraction(d: real, n: nat, charged: real, prev: real)
    requires 0.0 < d <= 1.0
    requires charged == n as real
    requires prev == 1.0 - charged * d && 0.0 <= prev < d
    ensures Repeat(d, n) + [prev] == Fractions(d)
  {
    Distribute(charged, d);
    assert n as real * d <= 1.0 < (n as real + 1.0) * d;
    FullYearsUnique(d, n);
    FractionsUnfold(d);
  }

  lemma FractionsUnfold(d: real)
    requires 0.0 < d <= 1.0
    ensures Fractions(d) == Repeat(d, FullYears(d)) + [1.0 - FullYears(d) as real * d]
  {
  }

  lemma AnotherFullYear(d: real, n: nat)
    requires 0.0 < d <= 1.0
    requires (n as real + 1.0) * d <= 1.0
    ensures n < FullYears(d)
  {
    var k := FullYears(d);
    if n >= k {
      MultiplyMonotone(k as real + 1.0, n as real + 1.0, d);
    }
  }

  /** An annual fraction of 7% charges 14 full years of 7% and a final 2%:
      on a base of 100000, fourteen charges of -7000 and one of -2000. */
  lemma SevenPercentSchedule()
    ensures FullYears(0.07) == 14
    ensures Fractions(0.07) == Repeat(0.07, 14) + [0.02]
    ensures Charges(Fractions(0.07), 100000.0) == Repeat(-7000.0, 14) + [-2000.0]
  {
    FullYearsUnique(0.07, 14);
  }

  /** When `d` divides one the final entry is a trailing zero. */
  lemma HalfSchedule()
    ensures Fractions(0.5) == [0.5, 0.5, 0.0]
  {
    FullYearsUnique(0.5, 2);
  }
}
