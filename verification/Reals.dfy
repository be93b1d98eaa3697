// Arithmetic over the reals, one nonlinear step at a time.

module Reals {

  // A product by name, for proofs that should not see inside it.
  function Mul(a: real, b: real): real { a * b }

  // Half away from zero, to two decimals.
  function Round2(x: real): real {
    var y := x * 100.0;
    (if y >= 0.0 then (y + 0.5).Floor as real else -((0.5 - y).Floor as real)) / 100.0
  }

  // The nearest multiple of a hundredth; of two equally near, the one further from zero.
  ghost predicate IsRounded(x: real, r: real) {
    && (r * 100.0).Floor as real == r * 100.0 && -0.005 <= r - x <= 0.005
    && (r - x == 0.005 ==> x > 0.0) && (r - x == -0.005 ==> x < 0.0)
  }

  lemma Round2IsNearest(x: real)
    ensures IsRounded(x, Round2(x))
  {
    var y := x * 100.0;
    var n := if y >= 0.0 then (y + 0.5).Floor else -(0.5 - y).Floor;
    assert Round2(x) == n as real / 100.0;
    assert -0.5 <= n as real - y <= 0.5;
    Hundredths(n, Round2(x));
  }

  lemma Hundredths(n: int, r: real)
    requires r == n as real / 100.0
    ensures r * 100.0 == n as real && (r * 100.0).Floor == n
  {
  }

  lemma MulAssociates(a: real, b: real, c: real)
    ensures a * b * c == a * (b * c)
  {
  }

  lemma Quotient(x: real, y: real, q: real)
    requires y != 0.0 && x == q * y
    ensures x / y == q
  {
  }

  lemma CancelRatio(a: real, b: real, f: real)
    requires b != 0.0 && f != 0.0
    ensures b * f != 0.0 && (a * f) / (b * f) == a / b
  {
    var q := a / b;
    assert q * b == a;
    MulAssociates(q, b, f);
    NonZeroProduct(b, f);
    Quotient(a * f, b * f, q);
  }

  lemma NonZeroProduct(a: real, b: real)
    requires a != 0.0 && b != 0.0
    ensures a * b != 0.0
  {
  }

  lemma PositiveProduct(a: real, b: real)
    requires a > 0.0 && b > 0.0
    ensures a * b > 0.0
  {
  }

  lemma CancelRight(a: real, b: real, f: real)
    requires f != 0.0 && a * f == b * f
    ensures a == b
  {
    assert (a - b) * f == 0.0;
    if a != b {
      NonZeroProduct(a - b, f);
    }
  }
}
