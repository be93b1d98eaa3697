// The bounded calculation language (crates/compute/src/lib.rs): a typed AST, validated,
// then evaluated under a fuel limit. Numbers are reals, so no result overflows to infinity;
// square root and logarithm are parameters.

module Expressions {
  import opened Wrappers
  import opened Windows

  const MAX_INPUTS := 32
  const MAX_SERIES_LEN := 5000
  const MAX_TOTAL_INPUT_POINTS := 100000
  const MAX_BINDINGS := 64
  const MAX_OUTPUTS := 32
  const MAX_AST_NODES := 1024
  const MAX_AST_DEPTH := 32
  const MAX_FUEL := 5000000
  const MAX_MAGNITUDE: real :=
    10000000000000000000000000000000000000000000000000000000000000000000000000000000000000000000000000000.0

  datatype Operator1 =
    | Neg | Abs | Clip(min: real, max: real)
    | Lag(periods: nat) | Diff | Returns | LogReturns | CumulativeReturn
    | Sma(window: nat) | Ema(window: nat) | RollingStd(window: nat, annualization: Option<real>)
    | Zscore(window: nat) | Rsi(window: nat)
    | Tail(count: nat)
    | Mean | Std | Sum | Min | Max | Last | Count | MaxDrawdown

  datatype Operator2 = Add | Sub | Mul | Div | Correlation

  datatype Expr =
    | Scalar(value: real)
    | Var(name: string)
    | One(op1: Operator1, input: Expr)
    | Two(op2: Operator2, left: Expr, right: Expr)

  datatype Value = ScalarValue(value: Option<real>) | SeriesValue(values: Series)

  // A value without its numbers.
  datatype Shape = ScalarShape | SeriesShape(length: nat)

  datatype Error = Rejected | UnknownVariable(name: string) | TypeError | OutOfFuel

  datatype Evaluated<T> = Done(value: T) | Fail(error: Error)

  function ShapeOf(v: Value): Shape {
    match v case ScalarValue(_) => ScalarShape case SeriesValue(xs) => SeriesShape(|xs|)
  }

  function Cost(s: Shape): nat {
    match s case ScalarShape => 1 case SeriesShape(n) => if n == 0 then 1 else n
  }

  // Operators defined on scalars and, pointwise, on series.
  predicate Pointwise(op: Operator1) {
    op.Neg? || op.Abs? || op.Clip?
  }

  predicate Reduces(op: Operator1) {
    op.Mean? || op.Std? || op.Sum? || op.Min? || op.Max? || op.Last? || op.Count? || op.MaxDrawdown?
  }

  // ---- Validation -----------------------------------------------------------------------

  predicate Bounded(x: real) {
    -MAX_MAGNITUDE <= x <= MAX_MAGNITUDE
  }

  predicate ValidWindow(window: nat) {
    1 <= window <= MAX_SERIES_LEN
  }

  predicate ValidOperator(op: Operator1) {
    match op
    case Clip(min, max) => min <= max
    case Lag(periods) => periods <= MAX_SERIES_LEN
    case Sma(w) => ValidWindow(w)
    case Ema(w) => ValidWindow(w)
    case RollingStd(w, a) => ValidWindow(w) && (a.Some? ==> 0.0 < a.value <= 100000.0)
    case Zscore(w) => ValidWindow(w)
    case Rsi(w) => ValidWindow(w)
    case Tail(count) => 1 <= count <= MAX_SERIES_LEN
    case _ => true
  }

  predicate IsLetter(c: char) { 'a' <= c <= 'z' || 'A' <= c <= 'Z' || c == '_' }

  predicate ValidName(name: string) {
    && 0 < |name| <= 64 && IsLetter(name[0])
    && forall i :: 0 <= i < |name| ==> IsLetter(name[i]) || '0' <= name[i] <= '9'
  }

  // Every node of the expression is acceptable on its own.
  predicate ValidExpr(e: Expr) {
    match e
    case Scalar(x) => Bounded(x)
    case Var(name) => ValidName(name)
    case One(op, input) => ValidOperator(op) && ValidExpr(input)
    case Two(_, left, right) => ValidExpr(left) && ValidExpr(right)
  }

  function Nodes(e: Expr): (n: nat)
    ensures n >= 1
  {
    match e
    case One(_, input) => 1 + Nodes(input)
    case Two(_, left, right) => 1 + Nodes(left) + Nodes(right)
    case _ => 1
  }

  function Height(e: Expr): (h: nat)
    ensures h >= 1
  {
    match e
    case One(_, input) => 1 + Height(input)
    case Two(_, left, right) => 1 + if Height(left) < Height(right) then Height(right) else Height(left)
    case _ => 1
  }

  // The limits of a node, in figures.
  lemma NodeLimits(op: Operator1, x: real, name: string)
    ensures ValidOperator(op) <==>
              match op
              case Clip(min, max) => min <= max
              case Lag(n) => n <= 5000
              case Sma(n) => 1 <= n <= 5000
              case Ema(n) => 1 <= n <= 5000
              case Zscore(n) => 1 <= n <= 5000
              case Rsi(n) => 1 <= n <= 5000
              case RollingStd(n, a) => 1 <= n <= 5000 && (a.None? || 0.0 < a.value <= 100000.0)
              case Tail(n) => 1 <= n <= 5000
              case _ => true
    ensures Bounded(x) <==> -MAX_MAGNITUDE <= x && x <= MAX_MAGNITUDE
    ensures ValidName(name) <==>
              && 1 <= |name| <= 64 && !(48 <= name[0] as int <= 57)
              && forall c :: c in name ==>
                   var n := c as int; 48 <= n <= 57 || 65 <= n <= 90 || n == 95 || 97 <= n <= 122
  {
    if 1 <= |name| && forall c :: c in name ==>
         var n := c as int; 48 <= n <= 57 || 65 <= n <= 90 || n == 95 || 97 <= n <= 122 {
      forall i | 0 <= i < |name| ensures IsLetter(name[i]) || '0' <= name[i] <= '9' {
        assert name[i] in name;
      }
    }
  }

  // One walk with a node counter decides the limits: it accepts exactly the expressions of
  // acceptable nodes that stay within both limits, and then has counted every node.
  method ValidateExpr(e: Expr, depth: nat, nodes: nat) returns (ok: bool, counted: nat)
    ensures ok <==> ValidExpr(e) && nodes + Nodes(e) <= MAX_AST_NODES && depth + Height(e) - 1 <= MAX_AST_DEPTH
    ensures ok ==> counted == nodes + Nodes(e)
    decreases e
  {
    counted := nodes + 1;
    if counted > MAX_AST_NODES || depth > MAX_AST_DEPTH {
      return false, counted;
    }
    match e {
      case Scalar(x) =>
        ok := Bounded(x);
      case Var(name) =>
        ok := ValidName(name);
      case One(op, input) =>
        ok := ValidOperator(op);
        if ok {
          ok, counted := ValidateExpr(input, depth + 1, counted);
        }
      case Two(_, left, right) =>
        ok, counted := ValidateExpr(left, depth + 1, counted);
        if ok {
          ok, counted := ValidateExpr(right, depth + 1, counted);
        }
    }
  }
}

// What the operators compute.
module Operators {
  import opened Expressions
  import opened Windows
  import opened Wrappers
  import Moments
  import RelativeStrength

  datatype Kernel = Kernel(sqrt: real -> real, ln: real -> real)

  function Arithmetic(op: Operator2, a: real, b: real): Option<real> {
    match op
    case Add => Some(a + b)
    case Sub => Some(a - b)
    case Mul => Some(a * b)
    case Div => if b == 0.0 then None else Some(a / b)
    case Correlation => None
  }

  function Zip(op: Operator2, a: Option<real>, b: Option<real>): Option<real> {
    if a.Some? && b.Some? then Arithmetic(op, a.value, b.value) else None
  }

  function PointValue(op: Operator1, x: real): Option<real> {
    match op
    case Neg => Some(-x)
    case Abs => Some(if x < 0.0 then -x else x)
    case Clip(min, max) => Some(if x < min then min else if x > max then max else x)
    case _ => None
  }

  function MapPoint(op: Operator1, x: Option<real>): Option<real> {
    if x.Some? then PointValue(op, x.value) else None
  }

  // From each value to the next; the first has no predecessor.
  function StepChange(k: Kernel, op: Operator1, previous: real, current: real): Option<real> {
    match op
    case Diff => Some(current - previous)
    case Returns => if previous == 0.0 then None else Some(current / previous - 1.0)
    case LogReturns => if current <= 0.0 || previous <= 0.0 then None else Some(k.ln(current / previous))
    case _ => None
  }

  function ChangeAt(k: Kernel, op: Operator1, xs: Series, i: nat): Option<real>
    requires i < |xs|
  {
    if i == 0 || xs[i - 1].None? || xs[i].None? then None else StepChange(k, op, xs[i - 1].value, xs[i].value)
  }

  function Compounded(wealth: real, growth: real): real { wealth * (1.0 + growth) }

  function CumulativeFrom(xs: Series, wealth: real): (out: Series)
    ensures |out| == |xs|
  {
    if xs == [] then []
    else if xs[0].Some? && xs[0].value > -1.0 then
      var next := Compounded(wealth, xs[0].value);
      [Some(next - 1.0)] + CumulativeFrom(xs[1..], next)
    else [None] + CumulativeFrom(xs[1..], wealth)
  }

  function Smoothed(alpha: real, x: real, average: real): real { alpha * x + (1.0 - alpha) * average }

  // A gap yields nothing and leaves the average where it was.
  function EmaFrom(xs: Series, alpha: real, current: Option<real>): (out: Series)
    ensures |out| == |xs|
  {
    if xs == [] then []
    else if xs[0].None? then [None] + EmaFrom(xs[1..], alpha, current)
    else
      var next := if current.None? then xs[0].value else Smoothed(alpha, xs[0].value, current.value);
      [Some(next)] + EmaFrom(xs[1..], alpha, Some(next))
  }

  function Deviation(k: Kernel, sum: real, sumSq: real, window: nat): real
    requires window > 0
  {
    k.sqrt(Moments.Variance(sum, sumSq, window))
  }

  // What a rolling operator makes of a window; windows are positive in a valid program.
  function WindowOperation(k: Kernel, op: Operator1): Operation {
    (current: real, sum: real, sumSq: real, window: nat) =>
      if window == 0 then None
      else match op
        case Sma(_) => Some(sum / window as real)
        case RollingStd(_, annualization) =>
          Some(Deviation(k, sum, sumSq, window) * k.sqrt(if annualization.Some? then annualization.value else 1.0))
        case Zscore(_) =>
          var std := Deviation(k, sum, sumSq, window);
          if std == 0.0 then None else Some((current - sum / window as real) / std)
        case _ => None
  }

  function OnSeries(k: Kernel, op: Operator1, xs: Series): (out: Series)
    requires ValidOperator(op) && !Reduces(op)
    ensures |out| == if op.Tail? && op.count < |xs| then op.count else |xs|
  {
    if op.Lag? then seq(|xs|, i requires 0 <= i < |xs| => if i < op.periods then None else xs[i - op.periods])
    else if op.CumulativeReturn? then CumulativeFrom(xs, 1.0)
    else if op.Ema? then EmaFrom(xs, 2.0 / (op.window as real + 1.0), None)
    else if op.Sma? || op.RollingStd? || op.Zscore? then Rolling(xs, op.window, WindowOperation(k, op))
    else if op.Rsi? then seq(|xs|, i requires 0 <= i < |xs| => RelativeStrength.RsiAt(xs, op.window, i))
    else if op.Tail? then if op.count < |xs| then xs[|xs| - op.count..] else xs
    else if Pointwise(op) then seq(|xs|, i requires 0 <= i < |xs| => MapPoint(op, xs[i]))
    else seq(|xs|, i requires 0 <= i < |xs| => ChangeAt(k, op, xs, i))
  }

  function Present(xs: Series): seq<real> {
    if xs == [] then []
    else (if xs[0].Some? then [xs[0].value] else []) + Present(xs[1..])
  }

  function Least(xs: seq<real>): real
    requires xs != []
  {
    if |xs| == 1 then xs[0] else var m := Least(xs[1..]); if xs[0] < m then xs[0] else m
  }

  function Greatest(xs: seq<real>): real
    requires xs != []
  {
    if |xs| == 1 then xs[0] else var m := Greatest(xs[1..]); if xs[0] > m then xs[0] else m
  }

  function Fall(top: real, x: real): real
    requires top != 0.0
  {
    x / top - 1.0
  }

  // Deepest fall below the running peak; zero peaks are skipped.
  function DrawdownFrom(xs: seq<real>, peak: Option<real>, worst: real, observed: bool): Option<real> {
    if xs == [] then if observed then Some(worst) else None
    else
      var top := if peak.Some? && peak.value > xs[0] then peak.value else xs[0];
      if top == 0.0 then DrawdownFrom(xs[1..], Some(top), worst, observed)
      else
        var fall := Fall(top, xs[0]);
        DrawdownFrom(xs[1..], Some(top), if fall < worst then fall else worst, true)
  }

  function Reduced(k: Kernel, op: Operator1, xs: seq<real>): Option<real> {
    if op.Count? then Some(|xs| as real)
    else if op.MaxDrawdown? then DrawdownFrom(xs, None, 0.0, false)
    else if xs == [] then None
    else match op
      case Mean => Some(Moments.Mean(xs))
      case Std => Some(k.sqrt(Moments.Variance(Moments.Total(xs), Moments.Dot(xs, xs), |xs|)))
      case Sum => Some(Moments.Total(xs))
      case Min => Some(Least(xs))
      case Max => Some(Greatest(xs))
      case Last => Some(xs[|xs| - 1])
      case _ => None
  }

  // Positions where both series have a value.
  function Pairs(xs: Series, ys: Series): (ps: (seq<real>, seq<real>))
    requires |xs| == |ys|
    ensures |ps.0| == |ps.1|
  {
    if xs == [] then ([], [])
    else
      var rest := Pairs(xs[1..], ys[1..]);
      if xs[0].Some? && ys[0].Some? then ([xs[0].value] + rest.0, [ys[0].value] + rest.1) else rest
  }

  // Shape of what an operator makes of an operand it accepts.
  function Shape1(op: Operator1, s: Shape): Shape
  {
    if Reduces(op) then ScalarShape
    else match s
      case ScalarShape => ScalarShape
      case SeriesShape(n) => SeriesShape(if op.Tail? && op.count < n then op.count else n)
  }

  predicate Accepts1(op: Operator1, s: Shape) {
    Pointwise(op) || s.SeriesShape?
  }

  function Apply1(k: Kernel, op: Operator1, v: Value): (r: Value)
    requires ValidOperator(op) && Accepts1(op, ShapeOf(v))
    ensures ShapeOf(r) == Shape1(op, ShapeOf(v))
  {
    match v
    case ScalarValue(x) => ScalarValue(MapPoint(op, x))
    case SeriesValue(xs) =>
      if Reduces(op) then ScalarValue(Reduced(k, op, Present(xs))) else SeriesValue(OnSeries(k, op, xs))
  }

  function Shape2(op: Operator2, s: Shape, t: Shape): Shape {
    if op.Correlation? then ScalarShape else if s.SeriesShape? then s else t
  }

  predicate SameLength(s: Shape, t: Shape) {
    s.SeriesShape? && t.SeriesShape? ==> s.length == t.length
  }

  predicate Accepts2(op: Operator2, s: Shape, t: Shape) {
    (op.Correlation? ==> s.SeriesShape? && t.SeriesShape?) && SameLength(s, t)
  }

  function Apply2(k: Kernel, op: Operator2, v: Value, w: Value): (r: Value)
    requires Accepts2(op, ShapeOf(v), ShapeOf(w))
    ensures ShapeOf(r) == Shape2(op, ShapeOf(v), ShapeOf(w))
  {
    match (v, w)
    case (ScalarValue(a), ScalarValue(b)) => ScalarValue(Zip(op, a, b))
    case (SeriesValue(xs), ScalarValue(b)) =>
      SeriesValue(seq(|xs|, i requires 0 <= i < |xs| => Zip(op, xs[i], b)))
    case (ScalarValue(a), SeriesValue(ys)) =>
      SeriesValue(seq(|ys|, i requires 0 <= i < |ys| => Zip(op, a, ys[i])))
    case (SeriesValue(xs), SeriesValue(ys)) =>
      if op.Correlation? then
        var pairs := Pairs(xs, ys);
        ScalarValue(Moments.Correlation(pairs.0, pairs.1, k.sqrt))
      else SeriesValue(seq(|xs|, i requires 0 <= i < |xs| => Zip(op, xs[i], ys[i])))
  }
}

// Evaluation under fuel.
module Evaluation {
  import opened Expressions
  import opened Operators
  import opened Windows
  import opened Wrappers
  import RelativeStrength

  type Env = map<string, Value>

  // Charge at least one unit, then deliver unless the limit is passed.
  function Charge<T>(used: nat, cost: nat, outcome: Evaluated<T>): (Evaluated<T>, nat) {
    var now := used + if cost == 0 then 1 else cost;
    (if now > MAX_FUEL then Fail(OutOfFuel) else outcome, now)
  }

  // An operator applied to an operand that came out well.
  function Eval1(k: Kernel, op: Operator1, v: Value, used: nat): (Evaluated<Value>, nat)
    requires ValidOperator(op)
  {
    if Pointwise(op) then Charge(used, Cost(ShapeOf(v)), Done(Apply1(k, op, v)))
    else if v.ScalarValue? then (Fail(TypeError), used)
    else
      var n := |v.values|;
      Charge(used, if op.Tail? && op.count < n then op.count else n, Done(Apply1(k, op, v)))
  }

  // Correlation compares lengths before it pays, arithmetic after.
  function Eval2(k: Kernel, op: Operator2, v: Value, w: Value, used: nat): (Evaluated<Value>, nat)
    requires op.Correlation? ==> v.SeriesValue?
  {
    if op.Correlation? then
      if w.ScalarValue? || |v.values| != |w.values| then (Fail(TypeError), used)
      else Charge(used, |v.values|, Done(Apply2(k, op, v, w)))
    else
      var a, b := Cost(ShapeOf(v)), Cost(ShapeOf(w));
      Charge(used, if a < b then b else a,
             if SameLength(ShapeOf(v), ShapeOf(w)) then Done(Apply2(k, op, v, w)) else Fail(TypeError))
  }

  function Eval(k: Kernel, e: Expr, env: Env, used: nat): (Evaluated<Value>, nat)
    requires ValidExpr(e)
  {
    match e
    case Scalar(x) => Charge(used, 1, Done(ScalarValue(Some(x))))
    case Var(name) =>
      if name !in env then (Fail(UnknownVariable(name)), used)
      else Charge(used, Cost(ShapeOf(env[name])), Done(env[name]))
    case One(op, input) =>
      var (v, u) := Eval(k, input, env, used);
      if v.Fail? then (v, u) else Eval1(k, op, v.value, u)
    case Two(op, left, right) =>
      var (v, u) := Eval(k, left, env, used);
      if v.Fail? then (v, u)
      else if op.Correlation? && v.value.ScalarValue? then (Fail(TypeError), u)
      else
        var (w, t) := Eval(k, right, env, u);
        if w.Fail? then (w, t) else Eval2(k, op, v.value, w.value, t)
  }

  // The evaluator as the program has it: an environment, and a counter that every node
  // advances.
  class Evaluator {
    var env: Env
    var used: nat

    constructor ()
      ensures env == map[] && used == 0
    {
      env, used := map[], 0;
    }

    method Consume(amount: nat) returns (ok: bool)
      modifies this`used
      ensures used == old(used) + (if amount == 0 then 1 else amount) && ok == (used <= MAX_FUEL)
    {
      used := used + if amount == 0 then 1 else amount;
      ok := used <= MAX_FUEL;
    }

    method EvalExpr(k: Kernel, e: Expr) returns (outcome: Evaluated<Value>)
      requires ValidExpr(e)
      modifies this`used
      ensures (outcome, used) == Eval(k, e, env, old(used))
      decreases e
    {
      hide Eval1, Eval2;
      var ok;
      match e {
        case Scalar(x) =>
          ok := Consume(1);
          return if ok then Done(ScalarValue(Some(x))) else Fail(OutOfFuel);
        case Var(name) =>
          if name !in env {
            return Fail(UnknownVariable(name));
          }
          ok := Consume(Cost(ShapeOf(env[name])));
          return if ok then Done(env[name]) else Fail(OutOfFuel);
        case One(op, input) =>
          outcome := EvalExpr(k, input);
          if outcome.Done? {
            outcome := Finish1(k, op, outcome.value);
          }
        case Two(op, left, right) =>
          outcome := EvalExpr(k, left);
          if outcome.Fail? {
            return;
          }
          var v := outcome.value;
          if op.Correlation? && v.ScalarValue? {
            return Fail(TypeError);
          }
          outcome := EvalExpr(k, right);
          if outcome.Done? {
            outcome := Finish2(k, op, v, outcome.value);
          }
      }
    }

    method Finish1(k: Kernel, op: Operator1, v: Value) returns (outcome: Evaluated<Value>)
      requires ValidOperator(op)
      modifies this`used
      ensures (outcome, used) == Eval1(k, op, v, old(used))
    {
      hide Apply1;
      var ok;
      if Pointwise(op) {
        ok := Consume(Cost(ShapeOf(v)));
      } else if v.ScalarValue? {
        return Fail(TypeError);
      } else {
        var n := |v.values|;
        ok := Consume(if op.Tail? && op.count < n then op.count else n);
      }
      if !ok {
        return Fail(OutOfFuel);
      }
      var r := Operate(k, op, v);
      outcome := Done(r);
    }

    method Finish2(k: Kernel, op: Operator2, v: Value, w: Value) returns (outcome: Evaluated<Value>)
      requires op.Correlation? ==> v.SeriesValue?
      modifies this`used
      ensures (outcome, used) == Eval2(k, op, v, w, old(used))
    {
      hide Apply2;
      var ok;
      if op.Correlation? {
        if w.ScalarValue? || |v.values| != |w.values| {
          return Fail(TypeError);
        }
        ok := Consume(|v.values|);
      } else {
        var a, b := Cost(ShapeOf(v)), Cost(ShapeOf(w));
        ok := Consume(if a < b then b else a);
      }
      if !ok {
        return Fail(OutOfFuel);
      }
      if !SameLength(ShapeOf(v), ShapeOf(w)) {
        return Fail(TypeError);
      }
      outcome := Done(Apply2(k, op, v, w));
    }
  }

  // One operator, by its loop where it has one.
  method Operate(k: Kernel, op: Operator1, v: Value) returns (r: Value)
    requires ValidOperator(op) && Accepts1(op, ShapeOf(v))
    ensures r == Apply1(k, op, v)
  {
    if v.SeriesValue? && (op.Sma? || op.RollingStd? || op.Zscore?) {
      var out := RollingWithCurrent(v.values, op.window, WindowOperation(k, op));
      return SeriesValue(out);
    }
    if v.SeriesValue? && op.Rsi? {
      var out := RelativeStrength.Rsi(v.values, op.window);
      assert out == OnSeries(k, op, v.values);
      return SeriesValue(out);
    }
    r := Apply1(k, op, v);
  }

  // ---- What the numbers cannot change ---------------------------------------------------

  type ShapeEnv = map<string, Shape>

  function Shapes(env: Env): ShapeEnv {
    map name | name in env :: ShapeOf(env[name])
  }

  function Check1(op: Operator1, s: Shape, used: nat): (Evaluated<Shape>, nat) {
    if !Accepts1(op, s) then (Fail(TypeError), used)
    else Charge(used, if Reduces(op) then Cost(s) else Cost(Shape1(op, s)), Done(Shape1(op, s)))
  }

  function Check2(op: Operator2, s: Shape, t: Shape, used: nat): (Evaluated<Shape>, nat) {
    if op.Correlation? && !Accepts2(op, s, t) then (Fail(TypeError), used)
    else
      var a, b := Cost(s), Cost(t);
      Charge(used, if a < b then b else a, if Accepts2(op, s, t) then Done(Shape2(op, s, t)) else Fail(TypeError))
  }

  // Evaluation of shapes alone: sees operators, windows, counts and lengths, no number.
  function Check(e: Expr, env: ShapeEnv, used: nat): (Evaluated<Shape>, nat) {
    match e
    case Scalar(_) => Charge(used, 1, Done(ScalarShape))
    case Var(name) =>
      if name !in env then (Fail(UnknownVariable(name)), used) else Charge(used, Cost(env[name]), Done(env[name]))
    case One(op, input) =>
      var (s, u) := Check(input, env, used);
      if s.Fail? then (s, u) else Check1(op, s.value, u)
    case Two(op, left, right) =>
      var (s, u) := Check(left, env, used);
      if s.Fail? then (s, u)
      else if op.Correlation? && s.value.ScalarShape? then (Fail(TypeError), u)
      else
        var (t, w) := Check(right, env, u);
        if t.Fail? then (t, w) else Check2(op, s.value, t.value, w)
  }

  function Abstract(result: (Evaluated<Value>, nat)): (Evaluated<Shape>, nat) {
    (match result.0 case Done(v) => Done(ShapeOf(v)) case Fail(error) => Fail(error), result.1)
  }

  lemma Check1Foretells(k: Kernel, op: Operator1, v: Value, used: nat)
    requires ValidOperator(op)
    ensures Abstract(Eval1(k, op, v, used)) == Check1(op, ShapeOf(v), used)
  {
    hide Apply1;
  }

  lemma Check2Foretells(k: Kernel, op: Operator2, v: Value, w: Value, used: nat)
    requires op.Correlation? ==> v.SeriesValue?
    ensures Abstract(Eval2(k, op, v, w, used)) == Check2(op, ShapeOf(v), ShapeOf(w), used)
  {
    hide Apply2;
  }

  // The shape evaluation foretells outcome, error, shape and fuel of the real one.
  lemma {:induction false} CheckForetells(k: Kernel, e: Expr, env: Env, used: nat)
    requires ValidExpr(e)
    ensures Abstract(Eval(k, e, env, used)) == Check(e, Shapes(env), used)
    decreases e
  {
    hide Eval1, Eval2, Check1, Check2;
    match e
    case Scalar(_) =>
    case Var(_) =>
    case One(op, input) =>
      CheckForetells(k, input, env, used);
      var (v, u) := Eval(k, input, env, used);
      if v.Done? {
        Check1Foretells(k, op, v.value, u);
      }
    case Two(op, left, right) =>
      CheckForetells(k, left, env, used);
      var (v, u) := Eval(k, left, env, used);
      CheckForetells(k, right, env, u);
      var (w, t) := Eval(k, right, env, u);
      if v.Done? && w.Done? && (op.Correlation? ==> v.value.SeriesValue?) {
        Check2Foretells(k, op, v.value, w.value, t);
      }
  }

  // An expression with its numbers wiped out; windows and counts stay.
  function EraseOperator(op: Operator1): Operator1 {
    match op
    case Clip(_, _) => Clip(0.0, 0.0)
    case RollingStd(w, a) => RollingStd(w, None)
    case _ => op
  }

  function Erase(e: Expr): Expr {
    match e
    case Scalar(_) => Scalar(0.0)
    case Var(_) => e
    case One(op, input) => One(EraseOperator(op), Erase(input))
    case Two(op, left, right) => Two(op, Erase(left), Erase(right))
  }

  lemma {:induction false} CheckIgnoresNumbers(e: Expr, env: ShapeEnv, used: nat)
    ensures Check(Erase(e), env, used) == Check(e, env, used)
    decreases e
  {
    match e
    case Scalar(_) =>
    case Var(_) =>
    case One(op, input) =>
      CheckIgnoresNumbers(input, env, used);
    case Two(op, left, right) =>
      CheckIgnoresNumbers(left, env, used);
      CheckIgnoresNumbers(right, env, Check(left, env, used).1);
  }

  // ---- Bounds -----------------------------------------------------------------------------

  predicate GoodShape(s: Shape) {
    s.SeriesShape? ==> 1 <= s.length <= MAX_SERIES_LEN
  }

  ghost predicate GoodShapes(env: ShapeEnv) {
    forall name :: name in env ==> GoodShape(env[name])
  }

  // Every value has a length within bounds; each node costs between 1 and 5,000 units; and
  // fuel runs out only when the nodes could have cost that much.
  lemma {:induction false} CheckBounds(e: Expr, env: ShapeEnv, used: nat)
    requires ValidExpr(e) && GoodShapes(env)
    ensures WithinBounds(Check(e, env, used), used, Nodes(e))
    decreases e
  {
    hide Check1, Check2;
    match e
    case Scalar(_) =>
    case Var(_) =>
    case One(op, input) =>
      CheckBounds(input, env, used);
      var (s, u) := Check(input, env, used);
      if s.Done? {
        Check1Bounds(op, s.value, u);
      }
    case Two(op, left, right) =>
      CheckBounds(left, env, used);
      var (s, u) := Check(left, env, used);
      CheckBounds(right, env, u);
      var (t, w) := Check(right, env, u);
      if s.Done? && t.Done? {
        Check2Bounds(op, s.value, t.value, w);
      }
  }

  ghost predicate WithinBounds(result: (Evaluated<Shape>, nat), used: nat, nodes: nat) {
    var (s, now) := result;
    && used <= now <= used + MAX_SERIES_LEN * nodes
    && (s.Done? ==> GoodShape(s.value) && used + nodes <= now <= MAX_FUEL)
    && (s == Fail(OutOfFuel) ==> now > MAX_FUEL)
  }

  lemma Check1Bounds(op: Operator1, s: Shape, used: nat)
    requires ValidOperator(op) && GoodShape(s)
    ensures WithinBounds(Check1(op, s, used), used, 1)
  {
  }

  lemma Check2Bounds(op: Operator2, s: Shape, t: Shape, used: nat)
    requires GoodShape(s) && GoodShape(t)
    ensures WithinBounds(Check2(op, s, t, used), used, 1)
  {
  }

  // ---- Meaning without fuel ----------------------------------------------------------------

  // What an expression denotes, no limit applied.
  function Denote(k: Kernel, e: Expr, env: Env): Evaluated<Value>
    requires ValidExpr(e)
  {
    match e
    case Scalar(x) => Done(ScalarValue(Some(x)))
    case Var(name) => if name in env then Done(env[name]) else Fail(UnknownVariable(name))
    case One(op, input) =>
      var v := Denote(k, input, env);
      if v.Fail? then v
      else if !Accepts1(op, ShapeOf(v.value)) then Fail(TypeError)
      else Done(Apply1(k, op, v.value))
    case Two(op, left, right) =>
      var v := Denote(k, left, env);
      if v.Fail? then v
      else if op.Correlation? && v.value.ScalarValue? then Fail(TypeError)
      else
        var w := Denote(k, right, env);
        if w.Fail? then w
        else if !Accepts2(op, ShapeOf(v.value), ShapeOf(w.value)) then Fail(TypeError)
        else Done(Apply2(k, op, v.value, w.value))
  }

  // Fuel decides whether a value is delivered, never which.
  lemma {:induction false} FuelOnlyStops(k: Kernel, e: Expr, env: Env, used: nat)
    requires ValidExpr(e)
    ensures var o := Eval(k, e, env, used).0;
            o == Denote(k, e, env) || o == Fail(OutOfFuel)
    decreases e
  {
    hide Apply1, Apply2;
    match e
    case Scalar(_) =>
    case Var(_) =>
    case One(op, input) =>
      FuelOnlyStops(k, input, env, used);
    case Two(op, left, right) =>
      FuelOnlyStops(k, left, env, used);
      FuelOnlyStops(k, right, env, Eval(k, left, env, used).1);
  }

  // A value is charged for its entries, at least one.
  function Entries(v: Value): nat {
    match v
    case ScalarValue(_) => 1
    case SeriesValue(xs) => if xs == [] then 1 else |xs|
  }

  // All that computing an expression is charged: for each node the entries of its value, but
  // those of the operand where a series is reduced to a number, and the more of two operands.
  ghost function Work(k: Kernel, e: Expr, env: Env): nat
    requires ValidExpr(e) && Denote(k, e, env).Done?
  {
    match e
    case Scalar(_) => 1
    case Var(name) => Entries(env[name])
    case One(op, input) =>
      var v, r := Denote(k, input, env).value, Denote(k, e, env).value;
      Work(k, input, env) + Entries(if r.ScalarValue? then v else r)
    case Two(_, left, right) =>
      var v, w := Denote(k, left, env).value, Denote(k, right, env).value;
      Work(k, left, env) + Work(k, right, env) + if Entries(v) < Entries(w) then Entries(w) else Entries(v)
  }

  // Evaluated to its value for that charge, when the limit allows it, and otherwise out of fuel.
  ghost predicate Exact(k: Kernel, e: Expr, env: Env, used: nat)
    requires ValidExpr(e) && Denote(k, e, env).Done?
  {
    Takes(Eval(k, e, env, used), Denote(k, e, env).value, used + Work(k, e, env))
  }

  // The fuel an expression takes is exactly its work, and it is delivered exactly when the
  // limit allows that much.
  lemma {:induction false} FuelIsExact(k: Kernel, e: Expr, env: Env, used: nat)
    requires ValidExpr(e) && Denote(k, e, env).Done?
    ensures Exact(k, e, env, used)
    decreases e
  {
    PartsDenote(k, e, env);
    hide Denote, Exact;
    match e
    case Scalar(_) =>
      FuelOfLeaf(k, e, env, used);
    case Var(_) =>
      FuelOfLeaf(k, e, env, used);
    case One(op, input) =>
      FuelIsExact(k, input, env, used);
      FuelOfOne(k, op, input, env, used);
    case Two(op, left, right) =>
      FuelIsExact(k, left, env, used);
      FuelIsExact(k, right, env, used + Work(k, left, env));
      FuelOfTwo(k, op, left, right, env, used);
  }

  lemma PartsDenote(k: Kernel, e: Expr, env: Env)
    requires ValidExpr(e) && Denote(k, e, env).Done?
    ensures e.One? ==> Denote(k, e.input, env).Done?
    ensures e.Two? ==> Denote(k, e.left, env).Done? && Denote(k, e.right, env).Done?
  {
    hide Apply1, Apply2;
  }

  lemma FuelOfLeaf(k: Kernel, e: Expr, env: Env, used: nat)
    requires ValidExpr(e) && Denote(k, e, env).Done? && (e.Scalar? || e.Var?)
    ensures Exact(k, e, env, used)
  {
    if e.Var? {
      CostIsEntries(env[e.name]);
    }
  }

  lemma FuelOfOne(k: Kernel, op: Operator1, input: Expr, env: Env, used: nat)
    requires ValidExpr(One(op, input)) && Denote(k, One(op, input), env).Done?
    requires Denote(k, input, env).Done? && Exact(k, input, env, used)
    ensures Exact(k, One(op, input), env, used)
  {
    hide Apply1, Eval1, ShapeOf, Accepts1, Entries;
    Charge1(k, op, Denote(k, input, env).value, used + Work(k, input, env));
  }

  // A result that costs so much, or no fuel for it.
  ghost predicate Takes(result: (Evaluated<Value>, nat), v: Value, total: nat) {
    if total <= 5_000_000 then result == (Done(v), total) else result.0 == Fail(OutOfFuel)
  }

  lemma FuelOfTwo(k: Kernel, op: Operator2, left: Expr, right: Expr, env: Env, used: nat)
    requires ValidExpr(Two(op, left, right)) && Denote(k, Two(op, left, right), env).Done?
    requires Denote(k, left, env).Done? && Exact(k, left, env, used)
    requires Denote(k, right, env).Done? && Exact(k, right, env, used + Work(k, left, env))
    ensures Exact(k, Two(op, left, right), env, used)
  {
    hide Denote, Work, Eval, Apply2, Accepts2, Entries, ShapeOf, Takes;
    TwoDenotes(k, op, left, right, env);
    var first := used + Work(k, left, env);
    TwoTake(k, op, left, right, env, used, Denote(k, left, env).value, Denote(k, right, env).value,
            first, first + Work(k, right, env));
  }

  lemma TwoTake(k: Kernel, op: Operator2, left: Expr, right: Expr, env: Env, used: nat, v: Value, w: Value,
                first: nat, both: nat)
    requires ValidExpr(Two(op, left, right)) && Accepts2(op, ShapeOf(v), ShapeOf(w)) && first <= both
    requires Takes(Eval(k, left, env, used), v, first) && Takes(Eval(k, right, env, first), w, both)
    ensures Takes(Eval(k, Two(op, left, right), env, used), Apply2(k, op, v, w),
                  both + if Entries(v) < Entries(w) then Entries(w) else Entries(v))
  {
    hide Eval, Apply2, Eval2, Entries, Takes;
    TwoEvaluates(k, op, left, right, env, used);
    Charge2(k, op, v, w, both);
    Together(op, Eval(k, left, env, used), Eval(k, right, env, first), Eval2(k, op, v, w, both),
             Eval(k, Two(op, left, right), env, used), v, w, Apply2(k, op, v, w), first, both,
             both + if Entries(v) < Entries(w) then Entries(w) else Entries(v));
  }

  // The left result, then the right one, then the operator's, each only if the one before came.
  lemma Together(op: Operator2, l: (Evaluated<Value>, nat), r: (Evaluated<Value>, nat), last: (Evaluated<Value>, nat),
                 all: (Evaluated<Value>, nat), v: Value, w: Value, x: Value, first: nat, both: nat, total: nat)
    requires first <= both <= total && (op.Correlation? ==> v.SeriesValue?)
    requires Takes(l, v, first) && Takes(r, w, both) && Takes(last, x, total)
    requires l.0.Fail? ==> all == l
    requires l == (Done(v), first) && r.0.Fail? ==> all == r
    requires l == (Done(v), first) && r == (Done(w), both) ==> all == last
    ensures Takes(all, x, total)
  {
  }

  lemma TwoEvaluates(k: Kernel, op: Operator2, left: Expr, right: Expr, env: Env, used: nat)
    requires ValidExpr(Two(op, left, right))
    ensures ValidExpr(left) && ValidExpr(right)
    ensures var l, both := Eval(k, left, env, used), Eval(k, Two(op, left, right), env, used);
            && (l.0.Fail? ==> both == l)
            && (l.0.Done? && (op.Correlation? ==> l.0.value.SeriesValue?) ==>
                  var r := Eval(k, right, env, l.1);
                  both == if r.0.Fail? then r else Eval2(k, op, l.0.value, r.0.value, r.1))
  {
    hide Eval2;
  }

  lemma TwoDenotes(k: Kernel, op: Operator2, left: Expr, right: Expr, env: Env)
    requires ValidExpr(Two(op, left, right)) && Denote(k, Two(op, left, right), env).Done?
    ensures var v, w := Denote(k, left, env), Denote(k, right, env);
            && v.Done? && w.Done? && Accepts2(op, ShapeOf(v.value), ShapeOf(w.value))
            && Denote(k, Two(op, left, right), env) == Done(Apply2(k, op, v.value, w.value))
            && Work(k, Two(op, left, right), env) == Work(k, left, env) + Work(k, right, env)
               + if Entries(v.value) < Entries(w.value) then Entries(w.value) else Entries(v.value)
  {
    hide Apply2, Entries;
  }

  lemma CostIsEntries(v: Value)
    ensures Cost(ShapeOf(v)) == Entries(v)
  {
  }

  lemma Charge1(k: Kernel, op: Operator1, v: Value, used: nat)
    requires ValidOperator(op) && Accepts1(op, ShapeOf(v))
    ensures var r := Apply1(k, op, v);
            var total := used + Entries(if r.ScalarValue? then v else r);
            Eval1(k, op, v, used) == (if total > 5_000_000 then Fail(OutOfFuel) else Done(r), total)
  {
    hide Apply1;
  }

  lemma Charge2(k: Kernel, op: Operator2, v: Value, w: Value, used: nat)
    requires Accepts2(op, ShapeOf(v), ShapeOf(w))
    ensures op.Correlation? ==> v.SeriesValue?
    ensures Takes(Eval2(k, op, v, w, used), Apply2(k, op, v, w),
                  used + if Entries(v) < Entries(w) then Entries(w) else Entries(v))
  {
    hide Apply2;
  }

  function Substitute(e: Expr, definitions: map<string, Expr>): Expr {
    match e
    case Scalar(_) => e
    case Var(name) => if name in definitions then definitions[name] else e
    case One(op, input) => One(op, Substitute(input, definitions))
    case Two(op, left, right) => Two(op, Substitute(left, definitions), Substitute(right, definitions))
  }

  ghost predicate ValidDefinitions(definitions: map<string, Expr>) {
    forall name :: name in definitions ==> ValidExpr(definitions[name])
  }

  // `env` is `inputs` with each defined name bound to what its definition denotes.
  ghost predicate Defines(k: Kernel, definitions: map<string, Expr>, inputs: Env, env: Env)
    requires ValidDefinitions(definitions)
  {
    && env.Keys == inputs.Keys + definitions.Keys
    && (forall name :: name in definitions ==> Denote(k, definitions[name], inputs) == Done(env[name]))
    && (forall name :: name in inputs && name !in definitions ==> env[name] == inputs[name])
  }

  lemma {:induction false} SubstituteValid(e: Expr, definitions: map<string, Expr>)
    requires ValidExpr(e) && ValidDefinitions(definitions)
    ensures ValidExpr(Substitute(e, definitions))
    decreases e
  {
    match e
    case Scalar(_) =>
    case Var(_) =>
    case One(_, input) =>
      SubstituteValid(input, definitions);
    case Two(_, left, right) =>
      SubstituteValid(left, definitions);
      SubstituteValid(right, definitions);
  }

  // Putting definitions in place of names does not change what an expression denotes.
  lemma {:induction false} SubstituteDenotes(k: Kernel, e: Expr, definitions: map<string, Expr>, inputs: Env, env: Env)
    requires ValidExpr(e) && ValidDefinitions(definitions) && Defines(k, definitions, inputs, env)
    ensures ValidExpr(Substitute(e, definitions))
    ensures Denote(k, Substitute(e, definitions), inputs) == Denote(k, e, env)
    decreases e
  {
    hide Apply1, Apply2;
    SubstituteValid(e, definitions);
    match e
    case Scalar(_) =>
    case Var(_) =>
    case One(_, input) =>
      SubstituteDenotes(k, input, definitions, inputs, env);
    case Two(_, left, right) =>
      SubstituteDenotes(k, left, definitions, inputs, env);
      SubstituteDenotes(k, right, definitions, inputs, env);
  }
}
