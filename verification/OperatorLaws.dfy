// What each operator of the calculation language means (crates/compute/src/lib.rs), as laws of
// the values that expressions denote.

module OperatorLaws {
  import opened Expressions
  import opened Operators
  import opened Evaluation
  import opened Windows
  import opened Wrappers
  import opened Reals
  import opened Sequences
  import Moments
  import RelativeStrength

  // ---- Reading values ---------------------------------------------------------------------------

  // A scalar stands for itself at every position.
  function At(v: Value, i: nat): Option<real> {
    match v
    case ScalarValue(x) => x
    case SeriesValue(xs) => if i < |xs| then xs[i] else None
  }

  // The operator takes the series that an expression denotes to another one.
  ghost predicate Maps(k: Kernel, op: Operator1, e: Expr, env: Env, xs: Series, out: Series) {
    && ValidExpr(One(op, e)) && Denote(k, e, env) == Done(SeriesValue(xs))
    && Denote(k, One(op, e), env) == Done(SeriesValue(out))
  }

  // It takes the series to a number, or to none.
  ghost predicate Yields(k: Kernel, op: Operator1, e: Expr, env: Env, xs: Series, x: Option<real>) {
    && ValidExpr(One(op, e)) && Denote(k, e, env) == Done(SeriesValue(xs))
    && Denote(k, One(op, e), env) == Done(ScalarValue(x))
  }

  // It takes two values to a third.
  ghost predicate Combines(k: Kernel, op: Operator2, e: Expr, f: Expr, env: Env, v: Value, w: Value, r: Value) {
    && ValidExpr(e) && ValidExpr(f) && Denote(k, e, env) == Done(v) && Denote(k, f, env) == Done(w)
    && Denote(k, Two(op, e, f), env) == Done(r)
  }

  lemma MapsTo(k: Kernel, op: Operator1, e: Expr, env: Env, xs: Series, out: Series)
    requires Maps(k, op, e, env, xs, out)
    ensures ValidOperator(op) && !Reduces(op) && out == OnSeries(k, op, xs)
  {
    hide OnSeries;
  }

  lemma YieldsIs(k: Kernel, op: Operator1, e: Expr, env: Env, xs: Series, x: Option<real>)
    requires Yields(k, op, e, env, xs, x)
    ensures Reduces(op) && x == Reduced(k, op, Present(xs))
  {
    hide Reduced, Present;
  }

  lemma CombinesTo(k: Kernel, op: Operator2, e: Expr, f: Expr, env: Env, v: Value, w: Value, r: Value)
    requires Combines(k, op, e, f, env, v, w, r)
    ensures Accepts2(op, ShapeOf(v), ShapeOf(w)) && r == Apply2(k, op, v, w)
  {
    hide Apply2;
  }

  // ---- Types --------------------------------------------------------------------------------------

  // One operand: a failure passes through; a scalar is an error unless the operator works
  // point by point; reductions give a scalar, and all others as many entries as they got,
  // except that `tail` gives no more than its count.
  lemma OneIsTyped(k: Kernel, op: Operator1, e: Expr, env: Env)
    requires ValidExpr(One(op, e))
    ensures var v, r := Denote(k, e, env), Denote(k, One(op, e), env);
            match v
            case Fail(error) => r == Fail(error)
            case Done(ScalarValue(_)) =>
              if op.Neg? || op.Abs? || op.Clip? then r.Done? && r.value.ScalarValue? else r == Fail(TypeError)
            case Done(SeriesValue(xs)) =>
              && r.Done?
              && if op in {Mean, Std, Operator1.Sum, Min, Max, Last, Count, MaxDrawdown} then r.value.ScalarValue?
                 else
                   && r.value.SeriesValue?
                   && |r.value.values| == if op.Tail? && op.count < |xs| then op.count else |xs|
  {
  }

  // Two operands: the left failure first; correlation wants two series of one length, and
  // arithmetic between series the same length.
  lemma TwoIsTyped(k: Kernel, op: Operator2, e: Expr, f: Expr, env: Env)
    requires ValidExpr(Two(op, e, f))
    ensures var v, w, r := Denote(k, e, env), Denote(k, f, env), Denote(k, Two(op, e, f), env);
            if v.Fail? then r == v
            else if op.Correlation? && v.value.ScalarValue? then r == Fail(TypeError)
            else if w.Fail? then r == w
            else if op.Correlation? then
              if w.value.SeriesValue? && |v.value.values| == |w.value.values| then r.Done? && r.value.ScalarValue?
              else r == Fail(TypeError)
            else if v.value.SeriesValue? && w.value.SeriesValue? && |v.value.values| != |w.value.values| then
              r == Fail(TypeError)
            else
              r.Done? && ShapeOf(r.value) == ShapeOf(if v.value.SeriesValue? then v.value else w.value)
  {
  }

  // ---- Arithmetic -----------------------------------------------------------------------------------

  // Position by position, a missing side gives missing.
  lemma MissingLaw(k: Kernel, op: Operator2, e: Expr, f: Expr, env: Env, v: Value, w: Value, r: Value, i: nat)
    requires op != Correlation && Combines(k, op, e, f, env, v, w, r)
    ensures At(v, i).None? || At(w, i).None? ==> At(r, i) == None
  {
    CombinesTo(k, op, e, f, env, v, w, r);
  }

  // Of two numbers the sum and the product are theirs, and the difference and the quotient are
  // what undoes them; only division by zero has no result.
  lemma ArithmeticLaw(k: Kernel, op: Operator2, e: Expr, f: Expr, env: Env, v: Value, w: Value, r: Value, i: nat)
    requires op != Correlation && Combines(k, op, e, f, env, v, w, r)
    requires At(v, i).Some? && At(w, i).Some?
    ensures var a, b, c := At(v, i).value, At(w, i).value, At(r, i);
            match op
            case Add => c == Some(a + b)
            case Sub => c.Some? && c.value + b == a
            case Mul => c == Some(Reals.Mul(a, b))
            case Div => if b == 0.0 then c == None else c.Some? && Reals.Mul(c.value, b) == a
            case Correlation => true
  {
    CombinesTo(k, op, e, f, env, v, w, r);
    PointByPoint(k, op, v, w, i);
    TwoNumbers(op, At(v, i).value, At(w, i).value);
    hide Combines, Apply2, At, Arithmetic, Reals.Mul;
  }

  lemma TwoNumbers(op: Operator2, a: real, b: real)
    ensures var c := Arithmetic(op, a, b);
            match op
            case Add => c == Some(a + b)
            case Sub => c.Some? && c.value + b == a
            case Mul => c == Some(Reals.Mul(a, b))
            case Div => if b == 0.0 then c == None else c.Some? && Reals.Mul(c.value, b) == a
            case Correlation => true
  {
    if op == Div && b != 0.0 {
      Divided(a, b);
    }
  }

  lemma PointByPoint(k: Kernel, op: Operator2, v: Value, w: Value, i: nat)
    requires op != Correlation && Accepts2(op, ShapeOf(v), ShapeOf(w)) && At(v, i).Some? && At(w, i).Some?
    ensures At(Apply2(k, op, v, w), i) == Arithmetic(op, At(v, i).value, At(w, i).value)
  {
    hide Arithmetic;
  }

  lemma Divided(x: real, n: real)
    requires n != 0.0
    ensures x / n * n == x && Reals.Mul(x / n, n) == x
  {
  }

  // Adding what was taken away, or multiplying by what was divided by, gives back the operand.
  lemma UndoLaw(k: Kernel, e: Expr, f: Expr, env: Env, v: Value, w: Value, once: Value, twice: Value, i: nat,
                divide: bool)
    requires Combines(k, if divide then Div else Sub, e, f, env, v, w, once)
    requires Combines(k, if divide then Mul else Add, Two(if divide then Div else Sub, e, f), f, env, once, w, twice)
    requires At(v, i).Some? && At(w, i).Some?
    ensures At(twice, i) == if divide && At(w, i) == Some(0.0) then None else At(v, i)
  {
    hide Combines;
    ArithmeticLaw(k, if divide then Div else Sub, e, f, env, v, w, once, i);
    if At(once, i).Some? {
      ArithmeticLaw(k, if divide then Mul else Add, Two(if divide then Div else Sub, e, f), f, env, once, w, twice, i);
    } else {
      MissingLaw(k, Mul, Two(Div, e, f), f, env, once, w, twice, i);
    }
  }

  // Point by point: the negative cancels, the absolute value is the size without the sign, and
  // clipping moves what lies outside the bounds to the nearer bound and nothing else.
  lemma PointLaw(k: Kernel, op: Operator1, e: Expr, env: Env, v: Value, r: Value, i: nat)
    requires ValidExpr(One(op, e)) && Denote(k, e, env) == Done(v) && Denote(k, One(op, e), env) == Done(r)
    requires op.Neg? || op.Abs? || op.Clip?
    ensures At(r, i).Some? <==> At(v, i).Some?
    ensures At(v, i).Some? ==>
              var x, y := At(v, i).value, At(r, i).value;
              match op
              case Neg => y + x == 0.0
              case Abs => y >= 0.0 && (y == x || y + x == 0.0)
              case Clip(lo, hi) =>
                lo <= y <= hi && (lo <= x <= hi ==> y == x) && (x < lo ==> y == lo) && (x > hi ==> y == hi)
              case _ => true
  {
    assert r == Apply1(k, op, v);
    hide Denote;
  }

  // ---- Moving and comparing entries ---------------------------------------------------------------

  // A lag shows the entry that many places earlier, none before there is one.
  lemma LagLaw(k: Kernel, e: Expr, env: Env, xs: Series, out: Series, periods: nat, i: nat)
    requires Maps(k, Lag(periods), e, env, xs, out) && i < |xs|
    ensures |out| == |xs|
    ensures i < periods ==> out[i] == None
    ensures i + periods < |xs| ==> out[i + periods] == xs[i]
  {
    MapsTo(k, Lag(periods), e, env, xs, out);
  }

  // The tail is the end of the series, of the length asked for or all of it.
  lemma TailLaw(k: Kernel, e: Expr, env: Env, xs: Series, out: Series, count: nat)
    requires Maps(k, Tail(count), e, env, xs, out)
    ensures |out| <= |xs| && xs == xs[..|xs| - |out|] + out
    ensures |out| == count || (|out| < count && out == xs)
  {
    MapsTo(k, Tail(count), e, env, xs, out);
  }

  // Entries a..b are all there.
  ghost predicate AllPresent(xs: Series, a: nat, b: nat)
    requires b <= |xs|
  {
    forall i :: a <= i < b ==> xs[i].Some?
  }

  // Total of entries a..b, missing ones skipped.
  function Added(xs: Series, a: nat, b: nat): real
    requires a <= b <= |xs|
    decreases b - a
  {
    if a == b then 0.0 else (if xs[a].Some? then xs[a].value else 0.0) + Added(xs, a + 1, b)
  }

  // A change exists where an entry and the one before it do; a return only from a price other
  // than zero, and a logarithmic one only between positive prices.
  lemma ChangesExist(k: Kernel, op: Operator1, e: Expr, env: Env, xs: Series, out: Series, i: nat)
    requires (op.Diff? || op.Returns? || op.LogReturns?) && Maps(k, op, e, env, xs, out) && i < |xs|
    ensures |out| == |xs|
    ensures out[i].Some? <==>
              && i > 0 && xs[i - 1].Some? && xs[i].Some?
              && (op.Returns? ==> xs[i - 1].value != 0.0)
              && (op.LogReturns? ==> xs[i - 1].value > 0.0 && xs[i].value > 0.0)
    ensures out[i].Some? ==> out[i] == StepChange(k, op, xs[i - 1].value, xs[i].value)
  {
    MapsTo(k, op, e, env, xs, out);
    hide Maps;
    assert out[i] == ChangeAt(k, op, xs, i);
    hide OnSeries;
  }

  // Over any stretch that is all there the differences add up to the last value less the first.
  lemma {:induction false} DifferencesTelescope(
      k: Kernel, e: Expr, env: Env, xs: Series, out: Series, a: nat, b: nat)
    requires Maps(k, Diff, e, env, xs, out) && a <= b < |xs| && AllPresent(xs, a, b + 1)
    ensures |out| == |xs| && Added(out, a + 1, b + 1) == xs[b].value - xs[a].value
    decreases b - a
  {
    hide Maps;
    ChangesExist(k, Diff, e, env, xs, out, if a < b then a + 1 else a);
    if a < b {
      DifferencesTelescope(k, e, env, xs, out, a + 1, b);
    }
  }

  // A return takes the value before it to its own.
  lemma ReturnLaw(k: Kernel, e: Expr, env: Env, xs: Series, out: Series, i: nat)
    requires Maps(k, Returns, e, env, xs, out) && i < |out| && out[i].Some?
    ensures i > 0 && i < |xs| && xs[i - 1].Some? && xs[i].Some?
    ensures Reals.Mul(xs[i - 1].value, 1.0 + out[i].value) == xs[i].value
  {
    hide Maps, Reals.Mul;
    ReturnsMap(k, e, env, xs, out);
    ChangesExist(k, Returns, e, env, xs, out, i);
    GrewBy(xs[i - 1].value, xs[i].value, out[i].value);
  }

  lemma ReturnsMap(k: Kernel, e: Expr, env: Env, xs: Series, out: Series)
    requires Maps(k, Returns, e, env, xs, out)
    ensures |out| == |xs|
  {
    MapsTo(k, Returns, e, env, xs, out);
  }

  lemma GrewBy(before: real, now: real, rate: real)
    requires before != 0.0 && rate == now / before - 1.0
    ensures Reals.Mul(before, 1.0 + rate) == now
  {
    Divided(now, before);
  }

  ghost predicate IsLogarithm(ln: real -> real) {
    ln(1.0) == 0.0 && forall x, y :: x > 0.0 && y > 0.0 ==> ln(x) + ln(y) == ln(x * y)
  }

  // Over any stretch of positive prices the logarithmic returns add up to the logarithm of
  // the growth from the first to the last.
  lemma {:induction false} LogReturnsTelescope(
      k: Kernel, e: Expr, env: Env, xs: Series, out: Series, a: nat, b: nat)
    requires Maps(k, LogReturns, e, env, xs, out) && a <= b < |xs| && AllPresent(xs, a, b + 1)
    requires IsLogarithm(k.ln) && forall i :: a <= i <= b ==> xs[i].value > 0.0
    ensures |out| == |xs| && Added(out, a + 1, b + 1) == k.ln(xs[b].value / xs[a].value)
    decreases b - a
  {
    hide Maps, IsLogarithm;
    ChangesExist(k, LogReturns, e, env, xs, out, if a < b then a + 1 else a);
    if a < b {
      LogReturnsTelescope(k, e, env, xs, out, a + 1, b);
      GrowthChains(k.ln, xs[a].value, xs[a + 1].value, xs[b].value);
    } else {
      NoGrowth(k.ln, xs[a].value);
    }
  }

  lemma NoGrowth(ln: real -> real, x: real)
    requires IsLogarithm(ln) && x > 0.0
    ensures ln(x / x) == 0.0
  {
    assert x / x == 1.0;
  }

  lemma GrowthChains(ln: real -> real, x: real, y: real, z: real)
    requires IsLogarithm(ln) && x > 0.0 && y > 0.0 && z > 0.0
    ensures ln(y / x) + ln(z / y) == ln(z / x)
  {
    hide IsLogarithm;
    GrowthIs(x, y, z, y / x, z / y);
    Logarithms(ln, y / x, z / y, z / x);
  }

  lemma GrowthIs(x: real, y: real, z: real, p: real, q: real)
    requires x > 0.0 && y > 0.0 && z > 0.0 && p == y / x && q == z / y
    ensures p > 0.0 && q > 0.0 && z / x == p * q
  {
    assert p * x == y && q * y == z;
    MulAssociates(q, p, x);
    Quotient(z, x, p * q);
  }

  lemma Logarithms(ln: real -> real, p: real, q: real, pq: real)
    requires IsLogarithm(ln) && p > 0.0 && q > 0.0 && pq == p * q
    ensures ln(p) + ln(q) == ln(pq)
  {
  }

  // ---- Windows --------------------------------------------------------------------------------------

  // The present values of a series, in order.
  lemma {:induction false} PresentAppends(xs: Series, x: Option<real>)
    ensures Present([]) == []
    ensures Present(xs + [x]) == Present(xs) + (if x.Some? then [x.value] else [])
  {
    if xs == [] {
      assert [] + [x] == [x] && [x][1..] == [];
    } else {
      PresentAppends(xs[1..], x);
      assert (xs + [x])[1..] == xs[1..] + [x];
    }
  }

  lemma {:induction false} TotalAppends(xs: seq<real>, x: real)
    ensures Moments.Total([]) == 0.0
    ensures Moments.Total(xs + [x]) == Moments.Total(xs) + x
    ensures Moments.Dot(xs + [x], xs + [x]) == Moments.Dot(xs, xs) + Square(x)
  {
    if xs == [] {
      assert [] + [x] == [x] && [x][1..] == [];
    } else {
      TotalAppends(xs[1..], x);
      assert (xs + [x])[1..] == xs[1..] + [x];
    }
  }

  // A window without gaps: its sums are those of the values in it.
  lemma {:induction false} WindowSums(xs: Series, a: nat, b: nat)
    requires a <= b <= |xs|
    ensures Missing(xs, a, b) == 0 <==> AllPresent(xs, a, b)
    ensures var values := Present(xs[a..b]);
            && |values| <= b - a
            && (AllPresent(xs, a, b) ==>
                  && |values| == b - a && Windows.Sum(xs, a, b) == Moments.Total(values)
                  && SumSq(xs, a, b) == Moments.Dot(values, values))
    decreases b
  {
    hide Present, Square, Moments.Total, Moments.Dot;
    if a == b {
      assert xs[a..b] == [];
      PresentAppends([], None);
      TotalAppends([], 0.0);
      EmptySums(xs, a);
    } else {
      WindowSums(xs, a, b - 1);
      assert xs[a..b] == xs[a..b - 1] + [xs[b - 1]];
      PresentAppends(xs[a..b - 1], xs[b - 1]);
      if xs[b - 1].Some? {
        TotalAppends(Present(xs[a..b - 1]), xs[b - 1].value);
      }
    }
  }

  lemma EmptySums(xs: Series, a: nat)
    requires a <= |xs|
    ensures Windows.Sum(xs, a, a) == 0.0 && SumSq(xs, a, a) == 0.0 && Missing(xs, a, a) == 0
    ensures Moments.Total([]) == 0.0 && Moments.Dot([], []) == 0.0
  {
  }

  // There are so many entries up to i, and all of them are present.
  ghost predicate Complete(xs: Series, window: nat, i: nat)
    requires i < |xs|
  {
    i + 1 >= window && AllPresent(xs, i + 1 - window, i + 1)
  }

  // The values among the last entries up to i.
  function Recent(xs: Series, window: nat, i: nat): seq<real>
    requires i < |xs|
  {
    if i + 1 < window then [] else Present(xs[i + 1 - window..i + 1])
  }

  lemma RollingIs(xs: Series, window: nat, op: Operation, i: nat)
    requires window >= 1 && i < |xs|
    ensures !Complete(xs, window, i) ==> RollingAt(xs, window, op, i) == None
    ensures Complete(xs, window, i) ==>
              var values := Recent(xs, window, i);
              && |values| == window && xs[i].Some?
              && RollingAt(xs, window, op, i)
                 == op(xs[i].value, Moments.Total(values), Moments.Dot(values, values), window)
  {
    if i + 1 >= window {
      WindowSums(xs, i + 1 - window, i + 1);
    }
  }

  lemma RollingMaps(k: Kernel, op: Operator1, e: Expr, env: Env, xs: Series, out: Series, i: nat)
    requires (op.Sma? || op.RollingStd? || op.Zscore?) && Maps(k, op, e, env, xs, out) && i < |xs|
    ensures |out| == |xs| && ValidWindow(op.window)
    ensures out[i] == RollingAt(xs, op.window, WindowOperation(k, op), i)
  {
    MapsTo(k, op, e, env, xs, out);
    hide Maps, RollingAt, WindowOperation;
  }

  // A moving average exists where a window is complete; times its length it is their total.
  lemma SmaLaw(k: Kernel, e: Expr, env: Env, xs: Series, out: Series, window: nat, i: nat)
    requires Maps(k, Sma(window), e, env, xs, out) && i < |xs|
    ensures |out| == |xs| && (out[i].Some? <==> Complete(xs, window, i))
    ensures Complete(xs, window, i) ==> out[i].value * window as real == Moments.Total(Recent(xs, window, i))
  {
    hide Maps, RollingAt, Recent, Complete;
    RollingMaps(k, Sma(window), e, env, xs, out, i);
    RollingIs(xs, window, WindowOperation(k, Sma(window)), i);
    if Complete(xs, window, i) {
      Divided(Moments.Total(Recent(xs, window, i)), window as real);
    }
  }

  // The spread of values about their mean: the sum of the squared distances, over the count.
  function Spread(values: seq<real>): real {
    if values == [] then 0.0 else Moments.Covariance(values, values)
  }

  // A moving deviation exists where a window is complete, is not negative, and its square is
  // the variance of the window, times the annualization if one is asked for.
  lemma RollingStdLaw(
      k: Kernel, e: Expr, env: Env, xs: Series, out: Series, window: nat, annualization: Option<real>, i: nat)
    requires Moments.IsSquareRoot(k.sqrt) && Maps(k, RollingStd(window, annualization), e, env, xs, out) && i < |xs|
    ensures |out| == |xs| && (out[i].Some? <==> Complete(xs, window, i))
    ensures Complete(xs, window, i) ==>
              var scale := if annualization.Some? then annualization.value else 1.0;
              && |Recent(xs, window, i)| == window
              && out[i].value >= 0.0 && out[i].value * out[i].value == Spread(Recent(xs, window, i)) * scale
  {
    hide Maps, RollingAt, Recent, Complete;
    var op := RollingStd(window, annualization);
    RollingMaps(k, op, e, env, xs, out, i);
    RollingIs(xs, window, WindowOperation(k, op), i);
    if Complete(xs, window, i) {
      var values := Recent(xs, window, i);
      Moments.OnePassVariance(values);
      hide Moments.Variance, Moments.Covariance, Moments.IsSquareRoot, Moments.Total, Moments.Dot;
      AnnualizationIsPositive(k, op, e, env, xs, out);
      RootsMultiply(k.sqrt, Spread(values), if annualization.Some? then annualization.value else 1.0);
    }
  }

  lemma AnnualizationIsPositive(k: Kernel, op: Operator1, e: Expr, env: Env, xs: Series, out: Series)
    requires op.RollingStd? && Maps(k, op, e, env, xs, out)
    ensures op.annualization.Some? ==> op.annualization.value > 0.0
  {
  }

  lemma RootsMultiply(sqrt: real -> real, a: real, b: real)
    requires Moments.IsSquareRoot(sqrt) && a >= 0.0 && b >= 0.0
    ensures var r := sqrt(a) * sqrt(b); r >= 0.0 && r * r == a * b
  {
    var x, y := sqrt(a), sqrt(b);
    assert x * x == a && y * y == b;
    Moments.ProductNonNegative(x, y);
    FourFactors(x, y, x * x, y * y);
  }

  lemma FourFactors(x: real, y: real, a: real, b: real)
    requires a == x * x && b == y * y
    ensures (x * y) * (x * y) == a * b
  {
    MulAssociates(x * y, x, y);
    assert x * y * x == a * y;
    MulAssociates(a, y, y);
  }

  // A standard score exists where a window is complete and not constant; it is how many
  // deviations the entry lies above the window's mean.
  lemma ZscoreLaw(k: Kernel, e: Expr, env: Env, xs: Series, out: Series, window: nat, i: nat, deviation: real)
    requires Moments.IsSquareRoot(k.sqrt) && Maps(k, Zscore(window), e, env, xs, out) && i < |xs|
    ensures |out| == |xs|
    ensures out[i].Some? <==> Complete(xs, window, i) && Spread(Recent(xs, window, i)) != 0.0
    ensures out[i].Some? ==> Recent(xs, window, i) != [] && xs[i].Some?
    ensures out[i].Some? && deviation >= 0.0 && deviation * deviation == Spread(Recent(xs, window, i)) ==>
              out[i].value * deviation + Moments.Mean(Recent(xs, window, i)) == xs[i].value
  {
    hide Maps, RollingAt, Recent, Complete;
    RollingMaps(k, Zscore(window), e, env, xs, out, i);
    RollingIs(xs, window, WindowOperation(k, Zscore(window)), i);
    if Complete(xs, window, i) {
      var values := Recent(xs, window, i);
      Moments.OnePassVariance(values);
      RootIsZero(k.sqrt, Spread(values));
      var root := k.sqrt(Spread(values));
      hide Moments.Variance, Moments.Covariance, Moments.IsSquareRoot, Moments.Total, Moments.Dot;
      if root != 0.0 {
        Divided(xs[i].value - Moments.Mean(values), root);
        if deviation >= 0.0 && deviation * deviation == Spread(values) {
          SameRoot(root, deviation);
        }
      }
    }
  }

  lemma RootIsZero(sqrt: real -> real, x: real)
    requires Moments.IsSquareRoot(sqrt) && x >= 0.0
    ensures sqrt(x) >= 0.0 && Reals.Mul(sqrt(x), sqrt(x)) == x
    ensures sqrt(x) == 0.0 <==> x == 0.0
  {
    SquareIsZero(sqrt(x), x);
  }

  lemma SquareIsZero(r: real, square: real)
    requires square == r * r
    ensures r == 0.0 <==> square == 0.0
  {
    if r != 0.0 {
      Quotient(square, r, r);
      if square == 0.0 {
        Quotient(square, r, 0.0);
      }
    } else {
      assert square == 0.0 * 0.0;
    }
  }

  lemma SameRoot(a: real, b: real)
    requires a >= 0.0 && b >= 0.0 && Reals.Mul(a, a) == Reals.Mul(b, b)
    ensures a == b
  {
    SquareIsZero(a, a * a);
    SquareIsZero(b, b * b);
    if 0.0 < a < b {
      Moments.SquareOrder(a, b);
    } else if 0.0 < b < a {
      Moments.SquareOrder(b, a);
    }
  }

  // ---- Relative strength ------------------------------------------------------------------------------

  // How far the values travel from a to b, up and down alike.
  function Travel(xs: Series, a: nat, b: nat): real
    requires a <= b < |xs| && AllPresent(xs, a, b + 1)
    decreases b
  {
    if a == b then 0.0
    else
      var step := xs[b].value - xs[b - 1].value;
      Travel(xs, a, b - 1) + if step < 0.0 then -step else step
  }

  lemma {:induction false} RisesAndFalls(xs: Series, a: nat, b: nat)
    requires a <= b < |xs| && AllPresent(xs, a, b + 1)
    ensures var rise, fall := Windows.Sum(RelativeStrength.Moves(xs, RelativeStrength.Gain), a, b),
                              Windows.Sum(RelativeStrength.Moves(xs, RelativeStrength.Loss), a, b);
            && rise >= 0.0 && fall >= 0.0
            && rise + fall == Travel(xs, a, b) && rise - fall == xs[b].value - xs[a].value
    decreases b
  {
    if a < b {
      var gains := RelativeStrength.Moves(xs, RelativeStrength.Gain);
      var losses := RelativeStrength.Moves(xs, RelativeStrength.Loss);
      var step := xs[b].value - xs[b - 1].value;
      assert gains[b - 1] == Some(RelativeStrength.Gain(step)) && losses[b - 1] == Some(RelativeStrength.Loss(step));
      assert Windows.Sum(gains, a, b) == Windows.Sum(gains, a, b - 1) + RelativeStrength.Gain(step);
      assert Windows.Sum(losses, a, b) == Windows.Sum(losses, a, b - 1) + RelativeStrength.Loss(step);
      assert Travel(xs, a, b) == Travel(xs, a, b - 1) + if step < 0.0 then -step else step;
      hide Windows.Sum, Travel, RelativeStrength.Moves;
      RisesAndFalls(xs, a, b - 1);
    }
  }

  // Of a hundred parts of the way travelled, those that went up: half of them and half the net
  // change; 50 when there was no way.
  ghost predicate IsRisingShare(r: real, travel: real, change: real) {
    if travel == 0.0 then r == 50.0 else r * travel == 50.0 * (travel + change)
  }

  // The index exists where the window and the value before it are complete, and tells how much
  // of the way travelled on it went up.
  lemma RsiLaw(k: Kernel, e: Expr, env: Env, xs: Series, out: Series, window: nat, i: nat)
    requires Maps(k, Rsi(window), e, env, xs, out) && i < |xs|
    ensures |out| == |xs| && (out[i].Some? <==> Complete(xs, window + 1, i))
    ensures Complete(xs, window + 1, i) ==>
              && i >= window && AllPresent(xs, i - window, i + 1)
              && IsRisingShare(out[i].value, Travel(xs, i - window, i), xs[i].value - xs[i - window].value)
  {
    RsiMaps(k, e, env, xs, out, window, i);
    hide Maps, Complete, RelativeStrength.RsiAt, IsRisingShare;
    RsiNeeds(xs, window, i);
    if i >= window {
      WindowSums(xs, i - window, i + 1);
      if Complete(xs, window + 1, i) {
        RsiShares(xs, window, i);
      }
    }
  }

  lemma RsiMaps(k: Kernel, e: Expr, env: Env, xs: Series, out: Series, window: nat, i: nat)
    requires Maps(k, Rsi(window), e, env, xs, out) && i < |xs|
    ensures window >= 1 && |out| == |xs| && out[i] == RelativeStrength.RsiAt(xs, window, i)
  {
    MapsTo(k, Rsi(window), e, env, xs, out);
    hide Maps, RelativeStrength.RsiAt;
  }

  lemma RsiNeeds(xs: Series, window: nat, i: nat)
    requires 1 <= window && i < |xs|
    ensures Complete(xs, window + 1, i) ==> i >= window && AllPresent(xs, i - window, i + 1)
    ensures i >= window ==> (Complete(xs, window + 1, i) <==> AllPresent(xs, i - window, i + 1))
    ensures i >= window ==> (RelativeStrength.RsiAt(xs, window, i).Some? <==> Missing(xs, i - window, i + 1) == 0)
    ensures i < window ==> RelativeStrength.RsiAt(xs, window, i) == None
  {
    hide Missing, Windows.Sum, RelativeStrength.Moves;
  }

  lemma RsiShares(xs: Series, window: nat, i: nat)
    requires 1 <= window <= i < |xs| && AllPresent(xs, i - window, i + 1) && Missing(xs, i - window, i + 1) == 0
    ensures IsRisingShare(RelativeStrength.RsiAt(xs, window, i).value, Travel(xs, i - window, i),
                          xs[i].value - xs[i - window].value)
  {
    hide Missing, Windows.Sum, Travel, RelativeStrength.Moves, IsRisingShare, RelativeStrength.RsiOf;
    RisesAndFalls(xs, i - window, i);
    ShareOfTravel(Windows.Sum(RelativeStrength.Moves(xs, RelativeStrength.Gain), i - window, i),
                  Windows.Sum(RelativeStrength.Moves(xs, RelativeStrength.Loss), i - window, i));
  }

  lemma ShareOfTravel(rise: real, fall: real)
    requires rise >= 0.0 && fall >= 0.0
    ensures var r := RelativeStrength.RsiOf(rise, fall);
            r.Some? && IsRisingShare(r.value, rise + fall, rise - fall)
  {
    if rise + fall != 0.0 {
      Divided(100.0 * rise, rise + fall);
    }
  }

  // ---- Running values ---------------------------------------------------------------------------------

  // The last value present before position i.
  function Latest(xs: Series, i: nat): Option<real>
    requires i <= |xs|
  {
    if i == 0 then None else if xs[i - 1].Some? then xs[i - 1] else Latest(xs, i - 1)
  }

  lemma {:induction false} LatestOfRest(x: Option<real>, xs: Series, i: nat)
    requires i <= |xs|
    ensures Latest([x] + xs, i + 1) == if Latest(xs, i).Some? then Latest(xs, i) else x
  {
    if i > 0 {
      LatestOfRest(x, xs, i - 1);
    }
  }

  // A cumulative return exists where a return above -100% does, and compounds the last one
  // before it, or nothing at the start, with that return.
  lemma CumulativeLaw(k: Kernel, e: Expr, env: Env, xs: Series, out: Series, i: nat)
    requires Maps(k, CumulativeReturn, e, env, xs, out) && i < |xs|
    ensures |out| == |xs| && (out[i].Some? <==> xs[i].Some? && xs[i].value > -1.0)
    ensures out[i].Some? ==>
              1.0 + out[i].value == Reals.Mul(WealthAt(out, i, 1.0), 1.0 + xs[i].value)
  {
    CumulativeMaps(k, e, env, xs, out);
    hide *;
    CumulativeSteps(xs, 1.0, i);
    if out[i].Some? {
      CompoundedIs(WealthAt(out, i, 1.0), xs[i].value);
    }
  }

  // What one unit has grown to before position i.
  function WealthAt(out: Series, i: nat, start: real): real
    requires i <= |out|
  {
    if Latest(out, i).Some? then 1.0 + Latest(out, i).value else start
  }

  lemma CumulativeMaps(k: Kernel, e: Expr, env: Env, xs: Series, out: Series)
    requires Maps(k, CumulativeReturn, e, env, xs, out)
    ensures out == CumulativeFrom(xs, 1.0)
  {
    MapsTo(k, CumulativeReturn, e, env, xs, out);
    hide Maps, CumulativeFrom;
  }

  lemma CompoundedIs(wealth: real, rate: real)
    ensures Compounded(wealth, rate) == Reals.Mul(wealth, 1.0 + rate)
  {
  }

  lemma {:induction false} CumulativeSteps(xs: Series, wealth: real, i: nat)
    requires i < |xs|
    ensures var out := CumulativeFrom(xs, wealth);
            && (out[i].Some? <==> xs[i].Some? && xs[i].value > -1.0)
            && (out[i].Some? ==> 1.0 + out[i].value == Compounded(WealthAt(out, i, wealth), xs[i].value))
    decreases |xs|
  {
    hide Compounded;
    var out := CumulativeFrom(xs, wealth);
    if i > 0 {
      var usable := xs[0].Some? && xs[0].value > -1.0;
      var next := if usable then Compounded(wealth, xs[0].value) else wealth;
      var rest := CumulativeFrom(xs[1..], next);
      assert out == [if usable then Some(next - 1.0) else None] + rest;
      CumulativeSteps(xs[1..], next, i - 1);
      LatestOfRest(out[0], rest, i - 1);
    }
  }

  // An exponential average starts at the first value, and then weighs each new value 2 and
  // the last average n - 1, out of n + 1.
  lemma EmaLaw(k: Kernel, e: Expr, env: Env, xs: Series, out: Series, window: nat, i: nat)
    requires Maps(k, Ema(window), e, env, xs, out) && i < |xs|
    ensures |out| == |xs| && (out[i].Some? <==> xs[i].Some?)
    ensures out[i].Some? && Latest(out, i).None? ==> out[i] == xs[i]
    ensures out[i].Some? && Latest(out, i).Some? ==>
              var n := window as real;
              Reals.Mul(out[i].value, n + 1.0) == 2.0 * xs[i].value + Reals.Mul(n - 1.0, Latest(out, i).value)
  {
    var alpha := EmaMaps(k, e, env, xs, out, window);
    hide *;
    EmaSteps(xs, alpha, None, i);
    if out[i].Some? && Latest(out, i).Some? {
      Weighed(window as real, alpha, xs[i].value, Latest(out, i).value, out[i].value);
    }
  }

  lemma EmaMaps(k: Kernel, e: Expr, env: Env, xs: Series, out: Series, window: nat) returns (alpha: real)
    requires Maps(k, Ema(window), e, env, xs, out)
    ensures out == EmaFrom(xs, alpha, None) && Reals.Mul(alpha, window as real + 1.0) == 2.0
  {
    MapsTo(k, Ema(window), e, env, xs, out);
    hide Maps, EmaFrom;
    alpha := 2.0 / (window as real + 1.0);
    Divided(2.0, window as real + 1.0);
  }

  lemma Weighed(n: real, alpha: real, x: real, before: real, next: real)
    requires Reals.Mul(alpha, n + 1.0) == 2.0 && next == Smoothed(alpha, x, before)
    ensures Reals.Mul(next, n + 1.0) == 2.0 * x + Reals.Mul(n - 1.0, before)
  {
    var m := n + 1.0;
    assert alpha * m == 2.0;
    var gap := x - before;
    assert Smoothed(alpha, x, before) == alpha * gap + before;
    assert alpha * gap * m == 2.0 * gap;
  }

  lemma {:induction false} EmaSteps(xs: Series, alpha: real, current: Option<real>, i: nat)
    requires i < |xs|
    ensures var out := EmaFrom(xs, alpha, current);
            && (out[i].Some? <==> xs[i].Some?)
            && (out[i].Some? ==>
                  var before := if Latest(out, i).Some? then Latest(out, i) else current;
                  out[i].value == if before.None? then xs[i].value else Smoothed(alpha, xs[i].value, before.value))
    decreases |xs|
  {
    hide Smoothed;
    var out := EmaFrom(xs, alpha, current);
    if i > 0 {
      var next := if xs[0].None? then current
                  else Some(if current.None? then xs[0].value else Smoothed(alpha, xs[0].value, current.value));
      var rest := EmaFrom(xs[1..], alpha, next);
      assert out == [if xs[0].None? then None else next] + rest;
      EmaSteps(xs[1..], alpha, next, i - 1);
      LatestOfRest(out[0], rest, i - 1);
    }
  }

  // ---- Reductions ---------------------------------------------------------------------------------------

  // Counted are the values present, and the last of them is the last one there.
  lemma CountLaw(k: Kernel, e: Expr, env: Env, xs: Series, x: Option<real>)
    requires Yields(k, Count, e, env, xs, x)
    ensures x == Some(|Present(xs)| as real)
  {
    YieldsIs(k, Count, e, env, xs, x);
  }

  lemma LastLaw(k: Kernel, e: Expr, env: Env, xs: Series, x: Option<real>)
    requires Yields(k, Last, e, env, xs, x)
    ensures x == Latest(xs, |xs|)
  {
    YieldsIs(k, Last, e, env, xs, x);
    LatestPresent(xs, |xs|);
    assert xs[..|xs|] == xs;
  }

  // The other reductions are of the values present, and none when there are none: their sum,
  // the mean that as often as there are values makes that sum, the deviation whose square is
  // their variance, the smallest and the largest.
  lemma ReductionLaw(k: Kernel, op: Operator1, e: Expr, env: Env, xs: Series, x: Option<real>)
    requires op.Sum? || op.Mean? || op.Std? || op.Min? || op.Max?
    requires Moments.IsSquareRoot(k.sqrt) && Yields(k, op, e, env, xs, x)
    ensures x.Some? <==> Present(xs) != []
    ensures x.Some? ==> IsReduction(op, Present(xs), x.value)
  {
    YieldsIs(k, op, e, env, xs, x);
    hide Yields, Present, IsReduction, Moments.IsSquareRoot;
    if Present(xs) != [] {
      ReducedIs(k, op, Present(xs));
    }
  }

  ghost predicate IsReduction(op: Operator1, values: seq<real>, x: real) {
    match op
    case Sum => x == Moments.Total(values)
    case Mean => Reals.Mul(x, |values| as real) == Moments.Total(values)
    case Std => x >= 0.0 && Reals.Mul(x, x) == Spread(values)
    case Min => x in values && forall y :: y in values ==> x <= y
    case Max => x in values && forall y :: y in values ==> x >= y
    case _ => true
  }

  lemma ReducedIs(k: Kernel, op: Operator1, values: seq<real>)
    requires op.Sum? || op.Mean? || op.Std? || op.Min? || op.Max?
    requires Moments.IsSquareRoot(k.sqrt) && values != []
    ensures Reduced(k, op, values).Some? && IsReduction(op, values, Reduced(k, op, values).value)
  {
    hide Moments.Total, Moments.Dot, Least, Greatest;
    match op
    case Mean =>
      Divided(Moments.Total(values), |values| as real);
    case Std =>
      Moments.OnePassVariance(values);
      RootIsZero(k.sqrt, Spread(values));
    case Min =>
      LeastIsBound(values);
    case Max =>
      GreatestIsBound(values);
    case _ =>
  }

  lemma {:induction false} LatestPresent(xs: Series, i: nat)
    requires i <= |xs|
    ensures var values := Present(xs[..i]);
            Latest(xs, i) == if values == [] then None else Some(values[|values| - 1])
  {
    if i > 0 {
      LatestPresent(xs, i - 1);
      assert xs[..i] == xs[..i - 1] + [xs[i - 1]];
      PresentAppends(xs[..i - 1], xs[i - 1]);
    }
  }

  lemma {:induction false} LeastIsBound(values: seq<real>)
    requires values != []
    ensures Least(values) in values && forall x :: x in values ==> Least(values) <= x
  {
    assert values == [values[0]] + values[1..];
    if |values| > 1 {
      LeastIsBound(values[1..]);
    }
  }

  lemma {:induction false} GreatestIsBound(values: seq<real>)
    requires values != []
    ensures Greatest(values) in values && forall x :: x in values ==> Greatest(values) >= x
  {
    assert values == [values[0]] + values[1..];
    if |values| > 1 {
      GreatestIsBound(values[1..]);
    }
  }

  // ---- Drawdown -----------------------------------------------------------------------------------------

  // The highest value up to position i.
  function TopAt(values: seq<real>, i: nat): real
    requires i < |values|
  {
    Greatest(values[..i + 1])
  }

  // Position i lies that far below the highest value so far, as a part of it.
  ghost predicate FallsAt(values: seq<real>, i: nat, fall: real) {
    i < |values| && TopAt(values, i) != 0.0 && fall == Fall(TopAt(values, i), values[i])
  }

  lemma FallLaw(top: real, x: real)
    requires top != 0.0
    ensures Reals.Mul(1.0 + Fall(top, x), top) == x
  {
    Divided(x, top);
  }

  // `worst` is 0 or the least fall among these, whichever is lower.
  ghost predicate IsWorst(values: seq<real>, worst: real) {
    && worst <= 0.0 && (forall i: nat, fall :: FallsAt(values, i, fall) ==> worst <= fall)
    && (worst == 0.0 || exists i: nat :: FallsAt(values, i, worst))
  }

  // Of any values, positive or not: the deepest drawdown is the least fall below the highest
  // value so far, positions where that is 0 aside; without any other position there is none.
  lemma DrawdownLaw(k: Kernel, e: Expr, env: Env, xs: Series, d: Option<real>)
    requires Yields(k, MaxDrawdown, e, env, xs, d)
    ensures var values := Present(xs);
            && (d.Some? <==> exists i: nat, fall :: FallsAt(values, i, fall))
            && (d.Some? ==> IsWorst(values, d.value))
  {
    YieldsIs(k, MaxDrawdown, e, env, xs, d);
    hide Yields, Present;
    assert [] + Present(xs) == Present(xs);
    DrawdownWalks([], Present(xs), None, 0.0, false);
  }

  // Where the walk stands when these values are done.
  ghost predicate Stands(done: seq<real>, peak: Option<real>, worst: real, observed: bool) {
    && peak == (if done == [] then None else Some(Greatest(done)))
    && (observed <==> exists i: nat, fall :: FallsAt(done, i, fall))
    && IsWorst(done, worst)
  }

  lemma {:induction false} DrawdownWalks(
      done: seq<real>, values: seq<real>, peak: Option<real>, worst: real, observed: bool)
    requires Stands(done, peak, worst, observed)
    ensures var d, all := DrawdownFrom(values, peak, worst, observed), done + values;
            && (d.Some? <==> exists i: nat, fall :: FallsAt(all, i, fall))
            && (d.Some? ==> IsWorst(all, d.value))
    decreases |values|
  {
    hide FallsAt, IsWorst, Fall, Greatest;
    if values == [] {
      assert done + values == done;
    } else {
      var x := values[0];
      var top := if peak.Some? && peak.value > x then peak.value else x;
      assert done + [x] + values[1..] == done + values;
      StandsOn(done, x, peak, worst, observed, top);
      var fall := if top == 0.0 then 0.0 else Fall(top, x);
      DrawdownWalks(done + [x], values[1..], Some(top), if top != 0.0 && fall < worst then fall else worst,
                    observed || top != 0.0);
    }
  }

  lemma {:induction false} GreatestAppends(values: seq<real>, x: real)
    requires values != []
    ensures Greatest(values + [x]) == if Greatest(values) > x then Greatest(values) else x
  {
    if |values| == 1 {
      assert (values + [x])[1..] == [x];
    } else {
      GreatestAppends(values[1..], x);
      assert (values + [x])[1..] == values[1..] + [x];
    }
  }

  lemma StandsOn(done: seq<real>, x: real, peak: Option<real>, worst: real, observed: bool, top: real)
    requires Stands(done, peak, worst, observed)
    requires top == if peak.Some? && peak.value > x then peak.value else x
    ensures var fall := if top == 0.0 then 0.0 else Fall(top, x);
            Stands(done + [x], Some(top), if top != 0.0 && fall < worst then fall else worst, observed || top != 0.0)
  {
    hide Fall;
    var all, n := done + [x], |done|;
    assert Greatest(all) == top by {
      if done != [] {
        GreatestAppends(done, x);
      }
    }
    assert all[..n + 1] == all;
    forall i: nat, fall ensures FallsAt(all, i, fall) <==>
      FallsAt(done, i, fall) || (i == n && top != 0.0 && fall == Fall(top, x))
    {
      if i < n {
        assert all[..i + 1] == done[..i + 1];
      }
    }
    hide FallsAt, Greatest;
    if top != 0.0 {
      assert FallsAt(all, n, Fall(top, x));
    }
    if worst != 0.0 {
      var i: nat :| FallsAt(done, i, worst);
      assert FallsAt(all, i, worst);
    }
  }

  // The mean is where the distances to it cancel.
  lemma DistancesCancel(values: seq<real>)
    requires values != []
    ensures Moments.Total(Moments.Deviations(values, Moments.Mean(values))) == 0.0
  {
    DistancesFrom(values, Moments.Mean(values));
    Divided(Moments.Total(values), |values| as real);
  }

  lemma {:induction false} DistancesFrom(values: seq<real>, m: real)
    ensures Moments.Total(Moments.Deviations(values, m)) == Moments.Total(values) - |values| as real * m
  {
    if values != [] {
      DistancesFrom(values[1..], m);
      assert Moments.Deviations(values, m)[1..] == Moments.Deviations(values[1..], m);
      assert |values| as real * m == |values[1..]| as real * m + m;
    }
  }

  // ---- Correlation --------------------------------------------------------------------------------------

  // The pairs are those of the positions where both series have a value, in order.
  lemma {:induction false} PairsAppend(xs: Series, ys: Series, x: Option<real>, y: Option<real>)
    requires |xs| == |ys|
    ensures Pairs([], []) == ([], [])
    ensures var (us, vs) := Pairs(xs, ys);
            Pairs(xs + [x], ys + [y]) == if x.Some? && y.Some? then (us + [x.value], vs + [y.value]) else (us, vs)
  {
    if xs == [] {
      assert [x][1..] == [] && [y][1..] == [] && [] + [x] == [x] && [] + [y] == [y];
      if x.Some? && y.Some? {
        assert [x.value] + [] == [] + [x.value] && [y.value] + [] == [] + [y.value];
      }
    } else {
      PairsAppend(xs[1..], ys[1..], x, y);
      assert (xs + [x])[1..] == xs[1..] + [x] && (ys + [y])[1..] == ys[1..] + [y];
      if xs[0].Some? && ys[0].Some? && x.Some? && y.Some? {
        var (us, vs) := Pairs(xs[1..], ys[1..]);
        Associate([xs[0].value], us, [x.value]);
        Associate([ys[0].value], vs, [y.value]);
      }
    }
  }

  // There is a correlation when there are two pairs and neither side is constant; times the
  // geometric mean of the variances it is the covariance.
  lemma CorrelationLaw(k: Kernel, e: Expr, f: Expr, env: Env, xs: Series, ys: Series, c: Option<real>, mean: real)
    requires Moments.IsSquareRoot(k.sqrt)
    requires Combines(k, Correlation, e, f, env, SeriesValue(xs), SeriesValue(ys), ScalarValue(c))
    ensures |xs| == |ys|
    ensures var (us, vs) := Pairs(xs, ys);
            && (c.Some? <==> |us| >= 2 && Spread(us) != 0.0 && Spread(vs) != 0.0)
            && (c.Some? && mean >= 0.0 && Reals.Mul(mean, mean) == Reals.Mul(Spread(us), Spread(vs)) ==>
                  Reals.Mul(c.value, mean) == Moments.Covariance(us, vs))
  {
    CombinesTo(k, Correlation, e, f, env, SeriesValue(xs), SeriesValue(ys), ScalarValue(c));
    hide Combines, Pairs, Spread, Reals.Mul, Moments.Covariance, Moments.Correlation;
    var (us, vs) := Pairs(xs, ys);
    CorrelationIs(us, vs, k.sqrt, mean);
  }

  lemma CorrelationIs(us: seq<real>, vs: seq<real>, sqrt: real -> real, mean: real)
    requires Moments.IsSquareRoot(sqrt) && |us| == |vs|
    ensures var c := Moments.Correlation(us, vs, sqrt);
            && (c.Some? <==> |us| >= 2 && Spread(us) != 0.0 && Spread(vs) != 0.0)
            && (c.Some? && mean >= 0.0 && Reals.Mul(mean, mean) == Reals.Mul(Spread(us), Spread(vs)) ==>
                  Reals.Mul(c.value, mean) == Moments.Covariance(us, vs))
  {
    if |us| >= 2 {
      Moments.CovarianceBound(us, vs);
      Moments.CovarianceBound(vs, us);
      var p, q, root := Spread(us), Spread(vs), Moments.Denominator(us, vs, sqrt);
      RootOfProduct(sqrt, p, q, Moments.Covariance(us, us) * Moments.Covariance(vs, vs), root);
      hide Moments.Covariance, Spread, Moments.Denominator, Reals.Mul;
      if root != 0.0 {
        Divided(Moments.Covariance(us, vs), root);
        if mean >= 0.0 && Reals.Mul(mean, mean) == Reals.Mul(p, q) {
          SameRoot(root, mean);
        }
      }
    }
  }

  lemma RootOfProduct(sqrt: real -> real, p: real, q: real, pq: real, root: real)
    requires Moments.IsSquareRoot(sqrt) && p >= 0.0 && q >= 0.0 && pq == p * q && root == sqrt(pq)
    ensures root >= 0.0 && Reals.Mul(root, root) == Reals.Mul(p, q)
    ensures root == 0.0 <==> p == 0.0 || q == 0.0
  {
    Moments.ProductNonNegative(p, q);
    RootIsZero(sqrt, pq);
    ProductIsZero(p, q);
  }

  lemma ProductIsZero(a: real, b: real)
    ensures a * b == 0.0 <==> a == 0.0 || b == 0.0
  {
    if a != 0.0 && b != 0.0 {
      NonZeroProduct(a, b);
    }
  }
}
