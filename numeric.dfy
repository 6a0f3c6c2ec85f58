/** Exact-real stand-ins for the numeric primitives the cost model uses:
    Python's `int()` on a float, sums of series, integer powers, and the
    non-integer powers that the model leaves uninterpreted. */
module Numeric {

  /** A power `x ** e` with a non-integer exponent (`Q ** 0.9`,
      `power ** 0.75`, ...). Its values are not modelled: every operation
      that needs one takes it as a parameter, so every property proved
      holds whatever the power function returns. */
  type PowerFn = (real, real) -> real

  /** Python's `int(x)` on a float: truncation toward zero (not floor). */
  function Trunc(x: real): (r: int)
    ensures 0.0 <= x ==> 0 <= r && r as real <= x < r as real + 1.0
    ensures x < 0.0 ==> r <= 0 && r as real - 1.0 < x <= r as real
  {
    if x >= 0.0 then x.Floor else -((-x).Floor)
  }

  /** Truncation is symmetric about zero, which floor is not. */
  lemma TruncOdd(x: real)
    ensures Trunc(-x) == -Trunc(x)
  {
    if x > 0.0 {
      assert -x < 0.0;
    } else if x < 0.0 {
      assert -x > 0.0;
    }
  }

  /** The contract of Trunc pins its result down: an integer lying between
      `x` and zero within distance one is `Trunc(x)`. */
  lemma TruncUnique(x: real, n: int)
    requires 0.0 <= x ==> 0 <= n && n as real <= x < n as real + 1.0
    requires x < 0.0 ==> n <= 0 && n as real - 1.0 < x <= n as real
    ensures Trunc(x) == n
  {
  }

  /** Truncating a value that is already an integer gives it back. */
  lemma TruncOfInt(n: int)
    ensures Trunc(n as real) == n
  {
    TruncUnique(n as real, n);
  }

  /** Truncation preserves order. */
  lemma TruncMonotone(x: real, y: real)
    requires x <= y
    ensures Trunc(x) <= Trunc(y)
  {
    if x < 0.0 && 0.0 <= y {
    } else if 0.0 <= x {
      assert x.Floor <= y.Floor;
    } else {
      assert (-y).Floor <= (-x).Floor;
    }
  }

  /** Scaling by a non-negative factor and truncating preserves order. */
  lemma TruncScaledMonotone(a: real, b: real, m: real)
    requires a <= b && m >= 0.0
    ensures Trunc(a * m) <= Trunc(b * m)
  {
    assert a * m <= b * m;
    TruncMonotone(a * m, b * m);
  }

  /** `b ** k` for a natural exponent, as `(1 + rate) ** k` is used in
      discounting. */
  function Power(b: real, k: nat): (r: real)
    ensures b != 0.0 ==> r != 0.0
    ensures b > 0.0 ==> r > 0.0
  {
    if k == 0 then 1.0 else b * Power(b, k - 1)
  }

  /** Sum of a series, accumulated left to right as numpy does. */
  function Sum(s: seq<real>): real
  {
    if s == [] then 0.0 else Sum(s[..|s| - 1]) + s[|s| - 1]
  }

  /** Summing a concatenation sums the parts. */
  lemma {:induction false} SumAppend(a: seq<real>, b: seq<real>)
    ensures Sum(a + b) == Sum(a) + Sum(b)
  {
    if b == [] {
      assert a + b == a;
    } else {
      var b' := b[..|b| - 1];
      assert (a + b)[..|a + b| - 1] == a + b';
      SumAppend(a, b');
    }
  }

  /** `n` copies of `c`. */
  function Repeat(c: real, n: nat): (s: seq<real>)
    ensures |s| == n
    ensures forall i :: 0 <= i < n ==> s[i] == c
  {
    seq(n, _ => c)
  }

  /** A series of `n` equal entries sums to `n` times the entry. */
  lemma {:induction false} SumConstant(n: nat, c: real)
    ensures Sum(Repeat(c, n)) == n as real * c
  {
    if n > 0 {
      assert Repeat(c, n)[..n - 1] == Repeat(c, n - 1);
      SumConstant(n - 1, c);
    }
  }
}
