// The numeric kernels of the calculation language (crates/compute/src/lib.rs): sliding
// windows, the relative strength index, variance and correlation.

module Windows {
  import opened Wrappers

  type Series = seq<Option<real>>

  function Value(x: Option<real>): real { if x.Some? then x.value else 0.0 }

  // Sum, sum of squares and number of missing entries of xs[a..b].
  function Sum(xs: Series, a: nat, b: nat): real
    requires b <= |xs|
    decreases b
  {
    if b <= a then 0.0 else Sum(xs, a, b - 1) + Value(xs[b - 1])
  }

  function Square(x: real): real { x * x }

  function SumSq(xs: Series, a: nat, b: nat): real
    requires b <= |xs|
    decreases b
  {
    if b <= a then 0.0 else SumSq(xs, a, b - 1) + Square(Value(xs[b - 1]))
  }

  function Missing(xs: Series, a: nat, b: nat): nat
    requires b <= |xs|
    decreases b
  {
    if b <= a then 0 else Missing(xs, a, b - 1) + if xs[b - 1].None? then 1 else 0
  }

  // Takes the current value, the window's sum and sum of squares, and the window length.
  type Operation = (real, real, real, nat) -> Option<real>

  // The window ending at i: emitted when it is complete and nothing in it is missing.
  function RollingAt(xs: Series, window: nat, op: Operation, i: nat): Option<real>
    requires i < |xs|
  {
    if i + 1 < window || xs[i].None? then None
    else
      var a := i + 1 - window;
      if Missing(xs, a, i + 1) > 0 then None
      else op(xs[i].value, Sum(xs, a, i + 1), SumSq(xs, a, i + 1), window)
  }

  function Rolling(xs: Series, window: nat, op: Operation): (out: Series)
    ensures |out| == |xs|
  {
    seq(|xs|, i requires 0 <= i < |xs| => RollingAt(xs, window, op, i))
  }

  lemma {:induction false} DropFirst(xs: Series, a: nat, b: nat)
    requires a < b <= |xs|
    ensures Sum(xs, a, b) == Value(xs[a]) + Sum(xs, a + 1, b)
    ensures SumSq(xs, a, b) == Square(Value(xs[a])) + SumSq(xs, a + 1, b)
    ensures Missing(xs, a, b) == (if xs[a].None? then 1 else 0) + Missing(xs, a + 1, b)
    decreases b
  {
    hide Square;
    if a + 1 < b {
      DropFirst(xs, a, b - 1);
    }
  }

  // Running sums over the window; `missing` never goes below zero.
  method RollingWithCurrent(xs: Series, window: nat, op: Operation) returns (out: Series)
    ensures out == Rolling(xs, window, op)
  {
    out := [];
    var sum, sumSq, missing: nat := 0.0, 0.0, 0;
    for i := 0 to |xs|
      invariant |out| == i
      invariant forall k :: 0 <= k < i ==> out[k] == RollingAt(xs, window, op, k)
      invariant var a := if i < window then 0 else i - window;
                sum == Sum(xs, a, i) && sumSq == SumSq(xs, a, i) && missing == Missing(xs, a, i)
    {
      ghost var a := if i < window then 0 else i - window;
      match xs[i] {
        case Some(x) =>
          sum := sum + x;
          sumSq := sumSq + Square(x);
        case None =>
          missing := missing + 1;
      }
      assert sum == Sum(xs, a, i + 1) && sumSq == SumSq(xs, a, i + 1) && missing == Missing(xs, a, i + 1);
      if i >= window {
        DropFirst(xs, a, i + 1);
        match xs[i - window] {
          case Some(x) =>
            sum := sum - x;
            sumSq := sumSq - Square(x);
          case None =>
            missing := missing - 1;
        }
      }
      if i + 1 >= window && missing == 0 {
        out := out + [if xs[i].Some? then op(xs[i].value, sum, sumSq, window) else None];
      } else {
        out := out + [None];
      }
    }
  }
}

module Moments {
  import opened Reals
  import opened Wrappers

  function Total(xs: seq<real>): real {
    if xs == [] then 0.0 else xs[0] + Total(xs[1..])
  }

  // Inner product of two series of equal length.
  function Dot(us: seq<real>, vs: seq<real>): real
    requires |us| == |vs|
  {
    if us == [] then 0.0 else us[0] * vs[0] + Dot(us[1..], vs[1..])
  }

  function Mean(xs: seq<real>): real
    requires xs != []
  {
    Total(xs) / |xs| as real
  }

  function Deviations(xs: seq<real>, mean: real): (ds: seq<real>)
    ensures |ds| == |xs|
  {
    if xs == [] then [] else [xs[0] - mean] + Deviations(xs[1..], mean)
  }

  function Covariance(xs: seq<real>, ys: seq<real>): real
    requires |xs| == |ys| > 0
  {
    Dot(Deviations(xs, Mean(xs)), Deviations(ys, Mean(ys))) / |xs| as real
  }

  // One pass: from the sum and the sum of squares.
  function Variance(sum: real, sumSq: real, count: nat): real
    requires count > 0
  {
    var n := count as real;
    var v := sumSq / n - (sum / n) * (sum / n);
    if v < 0.0 then 0.0 else v
  }

  function Denominator(xs: seq<real>, ys: seq<real>, sqrt: real -> real): real
    requires |xs| == |ys| > 0
  {
    sqrt(Covariance(xs, xs) * Covariance(ys, ys))
  }

  function Correlation(xs: seq<real>, ys: seq<real>, sqrt: real -> real): Option<real>
    requires |xs| == |ys|
  {
    if |xs| < 2 then None
    else
      var denominator := Denominator(xs, ys, sqrt);
      if denominator == 0.0 then None else Some(Covariance(xs, ys) / denominator)
  }

  // ---- Cauchy-Schwarz ------------------------------------------------------------------

  // Sum of (a*u - b*v) squared.
  function Residual(us: seq<real>, vs: seq<real>, a: real, b: real): (r: real)
    requires |us| == |vs|
    ensures r >= 0.0
  {
    if us == [] then 0.0
    else
      var d := a * us[0] - b * vs[0];
      SquareNonNegative(d);
      d * d + Residual(us[1..], vs[1..], a, b)
  }

  lemma SquareNonNegative(x: real)
    ensures x * x >= 0.0
  {
  }

  // The quadratic form a*a*p - 2*a*b*q + b*b*r.
  function Form(a: real, b: real, p: real, q: real, r: real): real {
    a * a * p - 2.0 * (a * b) * q + b * b * r
  }

  function Gap(a: real, b: real, u: real, v: real): real { a * u - b * v }

  lemma FormGrows(a: real, b: real, u: real, v: real, p: real, q: real, r: real)
    ensures Form(a, b, Mul(u, u) + p, Mul(u, v) + q, Mul(v, v) + r)
         == Mul(Gap(a, b, u, v), Gap(a, b, u, v)) + Form(a, b, p, q, r)
  {
  }

  lemma ResidualStep(us: seq<real>, vs: seq<real>, a: real, b: real)
    requires |us| == |vs| > 0
    ensures Residual(us, vs, a, b)
         == Mul(Gap(a, b, us[0], vs[0]), Gap(a, b, us[0], vs[0])) + Residual(us[1..], vs[1..], a, b)
  {
  }

  lemma DotStep(us: seq<real>, vs: seq<real>)
    requires |us| == |vs| > 0
    ensures Dot(us, vs) == Mul(us[0], vs[0]) + Dot(us[1..], vs[1..])
  {
  }

  lemma {:induction false} ResidualExpands(us: seq<real>, vs: seq<real>, a: real, b: real)
    requires |us| == |vs|
    ensures Residual(us, vs, a, b) == Form(a, b, Dot(us, us), Dot(us, vs), Dot(vs, vs))
  {
    if us != [] {
      hide Residual, Dot, Form, Mul, Gap;
      ResidualExpands(us[1..], vs[1..], a, b);
      ResidualStep(us, vs, a, b);
      DotStep(us, us);
      DotStep(us, vs);
      DotStep(vs, vs);
      FormGrows(a, b, us[0], vs[0], Dot(us[1..], us[1..]), Dot(us[1..], vs[1..]), Dot(vs[1..], vs[1..]));
    }
  }

  lemma {:induction false} DotSelf(vs: seq<real>)
    ensures Dot(vs, vs) >= 0.0
    ensures Dot(vs, vs) == 0.0 ==> forall us: seq<real> :: |us| == |vs| ==> Dot(us, vs) == 0.0
  {
    if vs != [] {
      DotSelf(vs[1..]);
      SquareNonNegative(vs[0]);
      if vs[0] != 0.0 {
        SquarePositive(vs[0]);
      }
    }
  }

  lemma SquarePositive(x: real)
    requires x != 0.0
    ensures x * x > 0.0
  {
    var y := if x < 0.0 then -x else x;
    PositiveProduct(y, y);
    assert y * y == x * x;
  }

  lemma CauchySchwarz(us: seq<real>, vs: seq<real>)
    requires |us| == |vs|
    ensures Dot(us, vs) * Dot(us, vs) <= Dot(us, us) * Dot(vs, vs)
  {
    hide Dot, Residual, Form;
    var p, q, r := Dot(us, us), Dot(us, vs), Dot(vs, vs);
    DotSelf(vs);
    if r > 0.0 {
      ResidualExpands(us, vs, r, q);
      Discriminant(p, q, r, Residual(us, vs, r, q));
    }
  }

  lemma Discriminant(p: real, q: real, r: real, residual: real)
    requires r > 0.0 && residual >= 0.0
    requires residual == Form(r, q, p, q, r)
    ensures q * q <= p * r
  {
    var pr, qq := p * r, q * q;
    MulAssociates(r, q, q);
    MulAssociates(r, p, r);
    assert r * r * p == r * pr;
    assert q * q * r == r * qq;
    assert r * (pr - qq) == r * pr - r * qq;
    PositiveFactor(r, pr - qq);
  }

  lemma PositiveFactor(r: real, x: real)
    requires r > 0.0 && r * x >= 0.0
    ensures x >= 0.0
  {
  }

  // Covariance squared never exceeds the product of the variances.
  lemma CovarianceBound(xs: seq<real>, ys: seq<real>)
    requires |xs| == |ys| > 0
    ensures Covariance(xs, ys) * Covariance(xs, ys) <= Covariance(xs, xs) * Covariance(ys, ys)
    ensures Covariance(xs, xs) >= 0.0
  {
    var us, vs, n := Deviations(xs, Mean(xs)), Deviations(ys, Mean(ys)), |xs| as real;
    CauchySchwarz(us, vs);
    DotSelf(us);
    ScaledProducts(Dot(us, us), Dot(us, vs), Dot(vs, vs), n);
  }

  lemma ScaledProducts(p: real, q: real, r: real, n: real)
    requires n > 0.0 && q * q <= p * r && p >= 0.0
    ensures (q / n) * (q / n) <= (p / n) * (r / n)
    ensures p / n >= 0.0
  {
    var i := 1.0 / n;
    Quotient(q, n, q * i);
    Quotient(p, n, p * i);
    Quotient(r, n, r * i);
    assert (q * i) * (q * i) == q * q * (i * i);
    assert (p * i) * (r * i) == p * r * (i * i);
    PositiveProduct(i, i);
    ScaleOrder(q * q, p * r, i * i);
  }

  lemma ScaleOrder(a: real, b: real, k: real)
    requires a <= b && k >= 0.0
    ensures a * k <= b * k
  {
  }

  ghost predicate IsSquareRoot(sqrt: real -> real) {
    forall x :: x >= 0.0 ==> sqrt(x) >= 0.0 && sqrt(x) * sqrt(x) == x
  }

  // A correlation lies in [-1, 1].
  lemma CorrelationRange(xs: seq<real>, ys: seq<real>, sqrt: real -> real)
    requires |xs| == |ys| && IsSquareRoot(sqrt)
    ensures var c := Correlation(xs, ys, sqrt);
            c.Some? ==> -1.0 <= c.value <= 1.0
  {
    hide Covariance, Denominator;
    if |xs| >= 2 && Denominator(xs, ys, sqrt) != 0.0 {
      DenominatorBounds(xs, ys, sqrt);
      RatioInRange(Covariance(xs, ys), Denominator(xs, ys, sqrt));
    }
  }

  lemma DenominatorBounds(xs: seq<real>, ys: seq<real>, sqrt: real -> real)
    requires |xs| == |ys| > 0 && IsSquareRoot(sqrt)
    ensures var c, d := Covariance(xs, ys), Denominator(xs, ys, sqrt); d >= 0.0 && c * c <= d * d
  {
    hide Covariance;
    CovarianceBound(xs, ys);
    CovarianceBound(ys, ys);
    ProductNonNegative(Covariance(xs, xs), Covariance(ys, ys));
  }

  lemma ProductNonNegative(a: real, b: real)
    requires a >= 0.0 && b >= 0.0
    ensures a * b >= 0.0
  {
  }

  lemma RatioInRange(c: real, d: real)
    requires d > 0.0 && c * c <= d * d
    ensures -1.0 <= c / d <= 1.0
  {
    var q := c / d;
    assert q * d == c;
    if q > 1.0 {
      ScaleStrict(1.0, q, d);
      SquareOrder(d, c);
    } else if q < -1.0 {
      ScaleStrict(q, -1.0, d);
      SquareOrder(d, -c);
    }
  }

  lemma ScaleStrict(a: real, b: real, k: real)
    requires a < b && k > 0.0
    ensures a * k < b * k
  {
  }

  lemma SquareOrder(a: real, b: real)
    requires 0.0 < a < b
    ensures a * a < b * b
  {
    ScaleStrict(a, b, a);
    ScaleStrict(a, b, b);
  }

  // ---- One pass and two passes -----------------------------------------------------------

  // Sum of squares about m, from the sum of squares p, the sum t and the count n.
  function About(m: real, p: real, t: real, n: real): real {
    p - 2.0 * m * t + n * (m * m)
  }

  lemma AboutGrows(m: real, x: real, p: real, t: real, n: real)
    ensures About(m, Mul(x, x) + p, x + t, n + 1.0) == Mul(x - m, x - m) + About(m, p, t, n)
  {
  }

  lemma DeviationsStep(xs: seq<real>, m: real)
    requires xs != []
    ensures var rest := Deviations(xs[1..], m);
            && Dot(Deviations(xs, m), Deviations(xs, m)) == Mul(xs[0] - m, xs[0] - m) + Dot(rest, rest)
            && Total(xs) == xs[0] + Total(xs[1..])
  {
    assert Deviations(xs, m)[1..] == Deviations(xs[1..], m);
    DotStep(Deviations(xs, m), Deviations(xs, m));
  }

  lemma {:induction false} DeviationsExpand(xs: seq<real>, m: real)
    ensures Dot(Deviations(xs, m), Deviations(xs, m)) == About(m, Dot(xs, xs), Total(xs), |xs| as real)
  {
    if xs != [] {
      hide Dot, Deviations, Total, About, Mul;
      DeviationsExpand(xs[1..], m);
      DeviationsStep(xs, m);
      DotStep(xs, xs);
      AboutGrows(m, xs[0], Dot(xs[1..], xs[1..]), Total(xs[1..]), |xs[1..]| as real);
      assert |xs| as real == |xs[1..]| as real + 1.0;
    }
  }

  // The one-pass variance of a series is its two-pass population variance, so clamping it
  // at zero changes nothing.
  lemma OnePassVariance(xs: seq<real>)
    requires xs != []
    ensures Variance(Total(xs), Dot(xs, xs), |xs|) == Covariance(xs, xs) >= 0.0
    ensures Variance(Total(xs), Dot(xs, xs), |xs|) == Dot(xs, xs) / |xs| as real - Mean(xs) * Mean(xs)
  {
    hide Deviations, Dot, Total;
    var n, m, t, p := |xs| as real, Mean(xs), Total(xs), Dot(xs, xs);
    DeviationsExpand(xs, m);
    CovarianceBound(xs, xs);
    MeanSquare(p, t, n, m, Dot(Deviations(xs, m), Deviations(xs, m)));
  }

  lemma MeanSquare(p: real, t: real, n: real, m: real, d: real)
    requires n > 0.0 && m == t / n && d == p - 2.0 * m * t + n * (m * m)
    ensures d / n == p / n - m * m
  {
    assert t == m * n;
    assert d == p - n * (m * m);
    Quotient(d, n, p / n - m * m);
  }
}

module RelativeStrength {
  import opened Reals
  import opened Windows
  import opened Wrappers

  function Gain(change: real): real { if change > 0.0 then change else 0.0 }

  function Loss(change: real): real { Gain(-change) }

  // Rise, or fall, from each value to the next; missing unless both are present.
  function Moves(xs: Series, part: real -> real): (moves: Series)
    requires xs != []
    ensures |moves| == |xs| - 1
  {
    seq(|xs| - 1, k requires 0 <= k < |xs| - 1 =>
      if xs[k].Some? && xs[k + 1].Some? then Some(part(xs[k + 1].value - xs[k].value)) else None)
  }

  // The rising share of all movement, in percent.
  function RsiOf(rise: real, fall: real): Option<real> {
    if rise + fall == 0.0 then Some(50.0) else Some(100.0 * rise / (rise + fall))
  }

  // Rises as a share of all movement over the last `window` steps, in percent; 50 when
  // nothing moved; undefined unless all of the values are there.
  function RsiAt(xs: Series, window: nat, i: nat): Option<real>
    requires window >= 1 && i < |xs|
  {
    if i < window || Missing(xs, i - window, i + 1) > 0 then None
    else
      RsiOf(Sum(Moves(xs, Gain), i - window, i), Sum(Moves(xs, Loss), i - window, i))
  }

  function AverageOf(current: real, sum: real, sumSq: real, window: nat): Option<real> {
    if window == 0 then None else Some(sum / window as real)
  }

  method Rsi(xs: Series, window: nat) returns (out: Series)
    requires window >= 1
    ensures |out| == |xs|
    ensures forall i :: 0 <= i < |xs| ==> out[i] == RsiAt(xs, window, i)
  {
    hide Strength, Missing, Sum, RollingAt, RsiOf;
    out := seq(|xs|, _ => None);
    if |xs| <= window {
      return;
    }
    var gains, losses := BothMoves(xs);
    var rollingGains := RollingWithCurrent(gains, window, AverageOf);
    var rollingLosses := RollingWithCurrent(losses, window, AverageOf);
    for i := window to |xs|
      invariant |out| == |xs|
      invariant forall k :: 0 <= k < i ==> out[k] == RsiAt(xs, window, k)
      invariant forall k :: i <= k < |xs| ==> out[k] == None
    {
      RollingIsRsi(xs, window, i);
      out := out[i := Strength(rollingGains[i - 1], rollingLosses[i - 1])];
    }
  }

  function Strength(gain: Option<real>, loss: Option<real>): Option<real> {
    match (gain, loss)
    case (Some(g), Some(l)) =>
      if l == 0.0 then Some(if g == 0.0 then 50.0 else 100.0)
      else if 1.0 + g / l == 0.0 then None
      else Some(100.0 - 100.0 / (1.0 + g / l))
    case _ => None
  }

  method BothMoves(xs: Series) returns (gains: Series, losses: Series)
    requires xs != []
    ensures gains == Moves(xs, Gain) && losses == Moves(xs, Loss)
  {
    gains, losses := [], [];
    for i := 1 to |xs|
      invariant |gains| == |losses| == i - 1
      invariant forall k :: 0 <= k < i - 1 ==> gains[k] == Moves(xs, Gain)[k] && losses[k] == Moves(xs, Loss)[k]
    {
      if xs[i - 1].Some? && xs[i].Some? {
        var change := xs[i].value - xs[i - 1].value;
        gains := gains + [Some(if change > 0.0 then change else 0.0)];
        losses := losses + [Some(if -change > 0.0 then -change else 0.0)];
      } else {
        gains := gains + [None];
        losses := losses + [None];
      }
    }
  }

  // All steps of a stretch are known exactly when all values on it are.
  lemma {:induction false} StepsKnown(xs: Series, part: real -> real, a: nat, b: nat)
    requires a < b < |xs|
    ensures Missing(Moves(xs, part), a, b) == 0 <==> Missing(xs, a, b + 1) == 0
    decreases b
  {
    assert Missing(xs, a, b) == Missing(xs, a, b - 1) + if xs[b - 1].None? then 1 else 0;
    if a + 1 < b {
      StepsKnown(xs, part, a, b - 1);
    } else {
      assert Missing(Moves(xs, part), a, a) == Missing(xs, a, a) == 0;
    }
  }

  lemma {:induction false} MovesNonNegative(xs: Series, part: real -> real, a: nat, b: nat)
    requires b < |xs| && forall x :: part(x) >= 0.0
    ensures Sum(Moves(xs, part), a, b) >= 0.0
    decreases b
  {
    if a < b {
      MovesNonNegative(xs, part, a, b - 1);
    }
  }

  lemma RollingIsRsi(xs: Series, window: nat, i: nat)
    requires 1 <= window <= i < |xs|
    ensures Strength(RollingAt(Moves(xs, Gain), window, AverageOf, i - 1),
                     RollingAt(Moves(xs, Loss), window, AverageOf, i - 1)) == RsiAt(xs, window, i)
  {
    var a := i - window;
    StepsKnown(xs, Gain, a, i);
    StepsKnown(xs, Loss, a, i);
    MovesNonNegative(xs, Gain, a, i);
    MovesNonNegative(xs, Loss, a, i);
    if Missing(xs, a, i + 1) == 0 {
      StrengthIsShare(Sum(Moves(xs, Gain), a, i), Sum(Moves(xs, Loss), a, i), window as real);
    }
  }

  lemma StrengthIsShare(rise: real, fall: real, n: real)
    requires rise >= 0.0 && fall >= 0.0 && n > 0.0
    ensures Strength(Some(rise / n), Some(fall / n))
         == if rise + fall == 0.0 then Some(50.0) else Some(100.0 * rise / (rise + fall))
  {
    var g, l := rise / n, fall / n;
    assert g * n == rise && l * n == fall;
    if fall == 0.0 {
      Quotient(fall, n, 0.0);
      if rise > 0.0 {
        Quotient(100.0 * rise, rise + fall, 100.0);
      } else {
        Quotient(rise, n, 0.0);
      }
    } else {
      CancelRatio(rise, fall, 1.0 / n);
      Quotient(rise, n, rise * (1.0 / n));
      Quotient(fall, n, fall * (1.0 / n));
      var ratio := rise / fall;
      assert g / l == ratio;
      assert ratio * fall == rise;
      assert (1.0 + ratio) * fall == rise + fall;
      ShareOf(rise, fall, ratio);
    }
  }

  lemma ShareOf(rise: real, fall: real, ratio: real)
    requires rise >= 0.0 && fall > 0.0 && ratio * fall == rise
    ensures 1.0 + ratio > 0.0
    ensures 100.0 - 100.0 / (1.0 + ratio) == 100.0 * rise / (rise + fall)
  {
    if ratio < 0.0 {
      PositiveProduct(-ratio, fall);
    }
    var whole := rise + fall;
    assert (1.0 + ratio) * fall == whole;
    var part := 100.0 * fall / whole;
    assert part * whole == 100.0 * fall;
    MulAssociates(part, 1.0 + ratio, fall);
    CancelRight(part * (1.0 + ratio), 100.0, fall);
    Quotient(100.0, 1.0 + ratio, part);
    assert (100.0 - part) * whole == 100.0 * whole - part * whole;
    Quotient(100.0 * rise, whole, 100.0 - part);
  }

  // ---- Consequences ----------------------------------------------------------------------

  function Negated(xs: Series): (ys: Series)
    ensures |ys| == |xs|
  {
    seq(|xs|, k requires 0 <= k < |xs| => if xs[k].Some? then Some(-xs[k].value) else None)
  }

  lemma {:induction false} NegatedMissing(xs: Series, a: nat, b: nat)
    requires b <= |xs|
    ensures Missing(Negated(xs), a, b) == Missing(xs, a, b)
    decreases b
  {
    if a < b {
      NegatedMissing(xs, a, b - 1);
    }
  }

  lemma MovesMirror(xs: Series)
    requires xs != []
    ensures Moves(Negated(xs), Gain) == Moves(xs, Loss) && Moves(Negated(xs), Loss) == Moves(xs, Gain)
  {
    forall k | 0 <= k < |xs| - 1
      ensures Moves(Negated(xs), Gain)[k] == Moves(xs, Loss)[k] && Moves(Negated(xs), Loss)[k] == Moves(xs, Gain)[k]
    {
      MoveMirrors(xs, k);
    }
  }

  lemma MoveMirrors(xs: Series, k: nat)
    requires k + 1 < |xs|
    ensures Moves(Negated(xs), Gain)[k] == Moves(xs, Loss)[k] && Moves(Negated(xs), Loss)[k] == Moves(xs, Gain)[k]
  {
    if xs[k].Some? && xs[k + 1].Some? {
      var change := xs[k + 1].value - xs[k].value;
      assert -xs[k + 1].value - -xs[k].value == -change;
      assert -(-change) == change;
    }
  }

  // The index lies between 0 and 100, and turning the series upside down turns it around 50.
  lemma RsiRangeAndMirror(xs: Series, window: nat, i: nat)
    requires window >= 1 && i < |xs|
    ensures var r, mirrored := RsiAt(xs, window, i), RsiAt(Negated(xs), window, i);
            && (r.Some? <==> i >= window && Missing(xs, i - window, i + 1) == 0)
            && (r.Some? ==> 0.0 <= r.value <= 100.0 && mirrored == Some(100.0 - r.value))
            && (r.None? ==> mirrored == None)
  {
    hide Missing, Sum, Moves, Negated;
    if i >= window && Missing(xs, i - window, i + 1) == 0 {
      NegatedMissing(xs, i - window, i + 1);
      MovesMirror(xs);
      GainsNonNegative(xs, i - window, i);
      var rise, fall := Sum(Moves(xs, Gain), i - window, i), Sum(Moves(xs, Loss), i - window, i);
      assert RsiAt(Negated(xs), window, i) == RsiOf(fall, rise);
      RsiOfRangeAndMirror(rise, fall);
    } else if i >= window {
      NegatedMissing(xs, i - window, i + 1);
    }
  }

  lemma GainsNonNegative(xs: Series, a: nat, b: nat)
    requires b < |xs|
    ensures Sum(Moves(xs, Gain), a, b) >= 0.0 && Sum(Moves(xs, Loss), a, b) >= 0.0
  {
    MovesNonNegative(xs, Gain, a, b);
    MovesNonNegative(xs, Loss, a, b);
  }

  lemma RsiOfRangeAndMirror(rise: real, fall: real)
    requires rise >= 0.0 && fall >= 0.0
    ensures 0.0 <= RsiOf(rise, fall).value <= 100.0
    ensures RsiOf(fall, rise) == Some(100.0 - RsiOf(rise, fall).value)
  {
    if rise + fall > 0.0 {
      Shares(rise, fall, rise + fall);
    }
  }

  lemma Shares(rise: real, fall: real, whole: real)
    requires rise >= 0.0 && fall >= 0.0 && whole == rise + fall && whole > 0.0
    ensures 0.0 <= 100.0 * rise / whole <= 100.0
    ensures 100.0 * fall / whole == 100.0 - 100.0 * rise / whole
  {
    var r := 100.0 * rise / whole;
    assert r * whole == 100.0 * rise;
    Quotient(100.0 * fall, whole, 100.0 - r);
    if r < 0.0 {
      PositiveProduct(-r, whole);
    }
    if r > 100.0 {
      PositiveProduct(r - 100.0, whole);
    }
  }
}
