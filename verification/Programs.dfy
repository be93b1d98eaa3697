// Whole calculation programs: validation, execution, and what holds of every valid program.

module Programs {
  import opened Expressions
  import opened Operators
  import opened Evaluation
  import opened Windows
  import opened Wrappers

  const LANGUAGE_VERSION := 1

  datatype Input = Input(name: string, values: Series)

  datatype Binding = Binding(name: string, expr: Expr)

  // Inputs and outputs are listed in key order.
  datatype Program = Program(version: int, inputs: seq<Input>, bindings: seq<Binding>, outputs: seq<Binding>)

  // ---- Validation -----------------------------------------------------------------------

  predicate ValidInput(input: Input) {
    && ValidName(input.name) && 1 <= |input.values| <= MAX_SERIES_LEN
    && forall i :: 0 <= i < |input.values| ==> input.values[i].Some? ==> Bounded(input.values[i].value)
  }

  function TotalPoints(inputs: seq<Input>): nat {
    if inputs == [] then 0 else TotalPoints(inputs[..|inputs| - 1]) + |inputs[|inputs| - 1].values|
  }

  function TotalNodes(parts: seq<Binding>): nat {
    if parts == [] then 0 else Nodes(parts[0].expr) + TotalNodes(parts[1..])
  }

  // Bindings name something new each; they neither repeat nor shadow.
  ghost predicate FreshNames(inputs: seq<Input>, bindings: seq<Binding>) {
    && (forall i, j :: 0 <= i < |inputs| && 0 <= j < |bindings| ==> inputs[i].name != bindings[j].name)
    && (forall i, j :: 0 <= i < j < |bindings| ==> bindings[i].name != bindings[j].name)
  }

  ghost predicate ValidParts(parts: seq<Binding>) {
    forall i :: 0 <= i < |parts| ==>
      ValidName(parts[i].name) && ValidExpr(parts[i].expr) && Height(parts[i].expr) <= MAX_AST_DEPTH
  }

  ghost predicate ValidProgram(p: Program) {
    && p.version == LANGUAGE_VERSION
    && |p.inputs| <= MAX_INPUTS && |p.bindings| <= MAX_BINDINGS && 1 <= |p.outputs| <= MAX_OUTPUTS
    && (forall i :: 0 <= i < |p.inputs| ==> ValidInput(p.inputs[i]))
    && TotalPoints(p.inputs) <= MAX_TOTAL_INPUT_POINTS
    && FreshNames(p.inputs, p.bindings)
    && ValidParts(p.bindings) && ValidParts(p.outputs)
    && TotalNodes(p.bindings) + TotalNodes(p.outputs) <= MAX_AST_NODES
  }

  // The limits of a program, in figures.
  lemma ProgramLimits(p: Program)
    ensures ValidProgram(p) <==>
              && p.version == 1 && |p.inputs| <= 32 && |p.bindings| <= 64 && 1 <= |p.outputs| <= 32
              && (forall i :: 0 <= i < |p.inputs| ==>
                    && ValidName(p.inputs[i].name) && 1 <= |p.inputs[i].values| <= 5000
                    && forall x :: Some(x) in p.inputs[i].values ==> Bounded(x))
              && TotalPoints(p.inputs) <= 100_000
              && FreshNames(p.inputs, p.bindings)
              && (forall b :: b in p.bindings || b in p.outputs ==>
                    ValidName(b.name) && ValidExpr(b.expr) && Height(b.expr) <= 32)
              && TotalNodes(p.bindings) + TotalNodes(p.outputs) <= 1024
  {
    hide ValidName, ValidExpr, Height, Bounded, FreshNames, TotalPoints, TotalNodes;
    forall i | 0 <= i < |p.inputs| ensures ValidInput(p.inputs[i]) <==>
      && ValidName(p.inputs[i].name) && 1 <= |p.inputs[i].values| <= 5000
      && forall x :: Some(x) in p.inputs[i].values ==> Bounded(x)
    {
      InputLimits(p.inputs[i]);
    }
    hide ValidInput;
    PartLimits(p.bindings);
    PartLimits(p.outputs);
  }

  lemma InputLimits(input: Input)
    ensures ValidInput(input) <==>
              && ValidName(input.name) && 1 <= |input.values| <= 5000
              && forall x :: Some(x) in input.values ==> Bounded(x)
  {
    if forall x :: Some(x) in input.values ==> Bounded(x) {
      forall i | 0 <= i < |input.values| && input.values[i].Some? ensures Bounded(input.values[i].value) {
        assert Some(input.values[i].value) == input.values[i] && input.values[i] in input.values;
      }
    }
  }

  lemma PartLimits(parts: seq<Binding>)
    ensures ValidParts(parts) <==>
              forall b :: b in parts ==> ValidName(b.name) && ValidExpr(b.expr) && Height(b.expr) <= 32
  {
    if forall b :: b in parts ==> ValidName(b.name) && ValidExpr(b.expr) && Height(b.expr) <= 32 {
      forall i | 0 <= i < |parts|
        ensures ValidName(parts[i].name) && ValidExpr(parts[i].expr) && Height(parts[i].expr) <= MAX_AST_DEPTH
      {
        assert parts[i] in parts;
      }
    }
  }

  lemma {:induction false} PointsGrow(inputs: seq<Input>, i: nat)
    requires i <= |inputs|
    ensures TotalPoints(inputs[..i]) <= TotalPoints(inputs)
    decreases |inputs| - i
  {
    if i == |inputs| {
      assert inputs[..i] == inputs;
    } else {
      PointsGrow(inputs, i + 1);
      assert inputs[..i + 1][..i] == inputs[..i];
    }
  }

  method ValidateInputs(inputs: seq<Input>) returns (ok: bool)
    ensures ok <==> && (forall i :: 0 <= i < |inputs| ==> ValidInput(inputs[i]))
                    && TotalPoints(inputs) <= MAX_TOTAL_INPUT_POINTS
  {
    var total := 0;
    for i := 0 to |inputs|
      invariant total == TotalPoints(inputs[..i]) <= MAX_TOTAL_INPUT_POINTS
      invariant forall j :: 0 <= j < i ==> ValidInput(inputs[j])
    {
      if !ValidInput(inputs[i]) {
        return false;
      }
      assert inputs[..i + 1][..i] == inputs[..i];
      total := total + |inputs[i].values|;
      if total > MAX_TOTAL_INPUT_POINTS {
        PointsGrow(inputs, i + 1);
        return false;
      }
    }
    assert inputs[..|inputs|] == inputs;
    ok := true;
  }

  method ValidateNames(inputs: seq<Input>, bindings: seq<Binding>) returns (ok: bool)
    ensures ok <==> FreshNames(inputs, bindings) && forall i :: 0 <= i < |bindings| ==> ValidName(bindings[i].name)
  {
    var names := set i | 0 <= i < |inputs| :: inputs[i].name;
    for n := 0 to |bindings|
      invariant forall name :: name in names <==>
        (exists i :: 0 <= i < |inputs| && inputs[i].name == name)
            || (exists j :: 0 <= j < n && bindings[j].name == name)
      invariant FreshNames(inputs, bindings[..n])
      invariant forall j :: 0 <= j < n ==> ValidName(bindings[j].name)
    {
      if !ValidName(bindings[n].name) || bindings[n].name in names {
        return false;
      }
      names := names + {bindings[n].name};
    }
    assert bindings[..|bindings|] == bindings;
    ok := true;
  }

  method ValidateParts(parts: seq<Binding>, nodes: nat) returns (ok: bool, counted: nat)
    ensures ok <==> (forall i :: 0 <= i < |parts| ==>
                       ValidExpr(parts[i].expr) && Height(parts[i].expr) <= MAX_AST_DEPTH)
                    && (parts == [] || nodes + TotalNodes(parts) <= MAX_AST_NODES)
    ensures ok ==> counted == nodes + TotalNodes(parts)
  {
    counted := nodes;
    for i := 0 to |parts|
      invariant i > 0 ==> counted <= MAX_AST_NODES
      invariant counted + TotalNodes(parts[i..]) == nodes + TotalNodes(parts)
      invariant forall j :: 0 <= j < i ==> ValidExpr(parts[j].expr) && Height(parts[j].expr) <= MAX_AST_DEPTH
    {
      assert parts[i..][1..] == parts[i + 1..];
      ghost var before := counted;
      ok, counted := ValidateExpr(parts[i].expr, 1, counted);
      if !ok {
        return;
      }
      assert counted == before + Nodes(parts[i].expr);
    }
    ok := true;
  }

  method Validate(p: Program) returns (ok: bool)
    ensures ok <==> ValidProgram(p)
  {
    if p.version != LANGUAGE_VERSION || |p.inputs| > MAX_INPUTS || |p.bindings| > MAX_BINDINGS
       || |p.outputs| == 0 || |p.outputs| > MAX_OUTPUTS {
      return false;
    }
    ok := ValidateInputs(p.inputs);
    if !ok {
      return;
    }
    ok := ValidateNames(p.inputs, p.bindings);
    if !ok {
      return;
    }
    for i := 0 to |p.outputs|
      invariant forall j :: 0 <= j < i ==> ValidName(p.outputs[j].name)
    {
      if !ValidName(p.outputs[i].name) {
        return false;
      }
    }
    var nodes;
    ok, nodes := ValidateParts(p.bindings, 0);
    if ok {
      ok, nodes := ValidateParts(p.outputs, nodes);
    }
  }

  // ---- Execution --------------------------------------------------------------------------

  datatype Execution<V> = Execution(fuelUsed: nat, outputs: seq<(string, V)>)

  function InputEnv(inputs: seq<Input>): Env {
    if inputs == [] then map[]
    else
      var last := inputs[|inputs| - 1];
      InputEnv(inputs[..|inputs| - 1])[last.name := SeriesValue(last.values)]
  }

  // Bindings in declaration order, each visible to the next.
  function Bind(k: Kernel, bindings: seq<Binding>, env: Env, used: nat): (Evaluated<Env>, nat)
    requires ValidParts(bindings)
  {
    if bindings == [] then (Done(env), used)
    else
      var (v, u) := Eval(k, bindings[0].expr, env, used);
      if v.Fail? then (Fail(v.error), u) else Bind(k, bindings[1..], env[bindings[0].name := v.value], u)
  }

  function Emit(k: Kernel, outputs: seq<Binding>, env: Env, used: nat): (Evaluated<seq<(string, Value)>>, nat)
    requires ValidParts(outputs)
  {
    if outputs == [] then (Done([]), used)
    else
      var (v, u) := Eval(k, outputs[0].expr, env, used);
      if v.Fail? then (Fail(v.error), u)
      else
        var (rest, t) := Emit(k, outputs[1..], env, u);
        (if rest.Fail? then rest else Done([(outputs[0].name, v.value)] + rest.value), t)
  }

  ghost function Execute(k: Kernel, p: Program): Evaluated<Execution<Value>> {
    if !ValidProgram(p) then Fail(Rejected)
    else
      var (bound, u) := Bind(k, p.bindings, InputEnv(p.inputs), 0);
      if bound.Fail? then Fail(bound.error)
      else
        var (emitted, t) := Emit(k, p.outputs, bound.value, u);
        if emitted.Fail? then Fail(emitted.error) else Done(Execution(t, emitted.value))
  }

  method ExecuteProgram(k: Kernel, p: Program) returns (r: Evaluated<Execution<Value>>)
    ensures r == Execute(k, p)
  {
    hide Eval;
    var ok := Validate(p);
    if !ok {
      return Fail(Rejected);
    }
    var evaluator := new Evaluator();
    for i := 0 to |p.inputs|
      invariant evaluator.env == InputEnv(p.inputs[..i]) && evaluator.used == 0
    {
      assert p.inputs[..i + 1][..i] == p.inputs[..i];
      evaluator.env := evaluator.env[p.inputs[i].name := SeriesValue(p.inputs[i].values)];
    }
    assert p.inputs[..|p.inputs|] == p.inputs;
    var failed, error := BindAll(k, p.bindings, evaluator);
    if failed {
      return Fail(error);
    }
    var emitted := EmitAll(k, p.outputs, evaluator);
    r := if emitted.Fail? then Fail(emitted.error) else Done(Execution(evaluator.used, emitted.value));
  }

  method BindAll(k: Kernel, bindings: seq<Binding>, evaluator: Evaluator) returns (failed: bool, error: Error)
    requires ValidParts(bindings)
    modifies evaluator
    ensures var (bound, u) := Bind(k, bindings, old(evaluator.env), old(evaluator.used));
            && (failed <==> bound.Fail?)
            && (failed ==> error == bound.error)
            && (!failed ==> evaluator.env == bound.value && evaluator.used == u)
  {
    hide Eval;
    failed, error := false, Rejected;
    for i := 0 to |bindings|
      invariant Bind(k, bindings[i..], evaluator.env, evaluator.used)
             == Bind(k, bindings, old(evaluator.env), old(evaluator.used))
    {
      assert bindings[i..][1..] == bindings[i + 1..];
      var v := evaluator.EvalExpr(k, bindings[i].expr);
      if v.Fail? {
        return true, v.error;
      }
      evaluator.env := evaluator.env[bindings[i].name := v.value];
    }
  }

  method EmitAll(
      k: Kernel, outputs: seq<Binding>, evaluator: Evaluator) returns (emitted: Evaluated<seq<(string, Value)>>)
    requires ValidParts(outputs)
    modifies evaluator`used
    ensures (emitted, evaluator.used) == Emit(k, outputs, evaluator.env, old(evaluator.used))
  {
    hide Eval;
    var done: seq<(string, Value)> := [];
    EmitFirst(Emit(k, outputs, evaluator.env, evaluator.used));
    for i := 0 to |outputs|
      invariant EmitState(done, Emit(k, outputs[i..], evaluator.env, evaluator.used))
             == Emit(k, outputs, evaluator.env, old(evaluator.used))
    {
      assert outputs[i..][1..] == outputs[i + 1..];
      ghost var rest := Emit(k, outputs[i..], evaluator.env, evaluator.used);
      var v := evaluator.EvalExpr(k, outputs[i].expr);
      if v.Fail? {
        return Fail(v.error);
      }
      EmitMore(done, (outputs[i].name, v.value), Emit(k, outputs[i + 1..], evaluator.env, evaluator.used), rest);
      done := done + [(outputs[i].name, v.value)];
    }
    assert done + [] == done;
    emitted := Done(done);
  }

  // The result, given what was emitted before and the result of the rest.
  function EmitState(done: seq<(string, Value)>, rest: (Evaluated<seq<(string, Value)>>, nat))
    : (Evaluated<seq<(string, Value)>>, nat)
  {
    if rest.0.Fail? then rest else (Done(done + rest.0.value), rest.1)
  }

  lemma EmitFirst(rest: (Evaluated<seq<(string, Value)>>, nat))
    ensures EmitState([], rest) == rest
  {
    if rest.0.Done? {
      assert [] + rest.0.value == rest.0.value;
    }
  }

  lemma EmitMore(
      done: seq<(string, Value)>, next: (string, Value), rest: (Evaluated<seq<(string, Value)>>, nat),
      all: (Evaluated<seq<(string, Value)>>, nat))
    requires all == EmitState([next], rest)
    ensures EmitState(done, all) == EmitState(done + [next], rest)
  {
    if rest.0.Done? {
      assert done + ([next] + rest.0.value) == (done + [next]) + rest.0.value;
    }
  }

  // ---- Data independence ------------------------------------------------------------------

  function InputShapes(inputs: seq<Input>): ShapeEnv {
    if inputs == [] then map[]
    else
      var last := inputs[|inputs| - 1];
      InputShapes(inputs[..|inputs| - 1])[last.name := SeriesShape(|last.values|)]
  }

  function CheckBind(bindings: seq<Binding>, env: ShapeEnv, used: nat): (Evaluated<ShapeEnv>, nat) {
    if bindings == [] then (Done(env), used)
    else
      var (s, u) := Check(bindings[0].expr, env, used);
      if s.Fail? then (Fail(s.error), u) else CheckBind(bindings[1..], env[bindings[0].name := s.value], u)
  }

  function CheckEmit(outputs: seq<Binding>, env: ShapeEnv, used: nat): (Evaluated<seq<(string, Shape)>>, nat) {
    if outputs == [] then (Done([]), used)
    else
      var (s, u) := Check(outputs[0].expr, env, used);
      if s.Fail? then (Fail(s.error), u)
      else
        var (rest, t) := CheckEmit(outputs[1..], env, u);
        (if rest.Fail? then rest else Done([(outputs[0].name, s.value)] + rest.value), t)
  }

  // The run of a program on shapes alone.
  function CheckProgram(p: Program): Evaluated<Execution<Shape>> {
    var (bound, u) := CheckBind(p.bindings, InputShapes(p.inputs), 0);
    if bound.Fail? then Fail(bound.error)
    else
      var (emitted, t) := CheckEmit(p.outputs, bound.value, u);
      if emitted.Fail? then Fail(emitted.error) else Done(Execution(t, emitted.value))
  }

  function OutputShapes(outputs: seq<(string, Value)>): seq<(string, Shape)> {
    if outputs == [] then [] else [(outputs[0].0, ShapeOf(outputs[0].1))] + OutputShapes(outputs[1..])
  }

  function AbstractExecution(r: Evaluated<Execution<Value>>): Evaluated<Execution<Shape>> {
    match r case Fail(error) => Fail(error) case Done(x) => Done(Execution(x.fuelUsed, OutputShapes(x.outputs)))
  }

  lemma {:induction false} InputShapesMatch(inputs: seq<Input>)
    ensures Shapes(InputEnv(inputs)) == InputShapes(inputs)
  {
    if inputs != [] {
      InputShapesMatch(inputs[..|inputs| - 1]);
    }
  }

  lemma {:induction false} BindForetold(k: Kernel, bindings: seq<Binding>, env: Env, used: nat)
    requires ValidParts(bindings)
    ensures var (bound, u) := Bind(k, bindings, env, used);
            CheckBind(bindings, Shapes(env), used)
            == (if bound.Fail? then Fail(bound.error) else Done(Shapes(bound.value)), u)
    decreases |bindings|
  {
    hide Eval, Check;
    if bindings != [] {
      CheckForetells(k, bindings[0].expr, env, used);
      var (v, u) := Eval(k, bindings[0].expr, env, used);
      if v.Done? {
        var next := env[bindings[0].name := v.value];
        assert Shapes(next) == Shapes(env)[bindings[0].name := ShapeOf(v.value)];
        BindForetold(k, bindings[1..], next, u);
      }
    }
  }

  lemma {:induction false} EmitForetold(k: Kernel, outputs: seq<Binding>, env: Env, used: nat)
    requires ValidParts(outputs)
    ensures var (emitted, u) := Emit(k, outputs, env, used);
            CheckEmit(outputs, Shapes(env), used)
            == (if emitted.Fail? then Fail(emitted.error) else Done(OutputShapes(emitted.value)), u)
    decreases |outputs|
  {
    hide Eval, Check;
    if outputs != [] {
      CheckForetells(k, outputs[0].expr, env, used);
      var (v, u) := Eval(k, outputs[0].expr, env, used);
      if v.Done? {
        EmitForetold(k, outputs[1..], env, u);
        var rest := Emit(k, outputs[1..], env, u).0;
        if rest.Done? {
          assert ([(outputs[0].name, v.value)] + rest.value)[1..] == rest.value;
        }
      }
    }
  }

  // A valid program's result, errors and fuel included, is that of its run on shapes.
  lemma ProgramForetold(k: Kernel, p: Program)
    requires ValidProgram(p)
    ensures AbstractExecution(Execute(k, p)) == CheckProgram(p)
  {
    hide Bind, Emit, CheckBind, CheckEmit, OutputShapes;
    InputShapesMatch(p.inputs);
    BindForetold(k, p.bindings, InputEnv(p.inputs), 0);
    var (bound, u) := Bind(k, p.bindings, InputEnv(p.inputs), 0);
    if bound.Done? {
      EmitForetold(k, p.outputs, bound.value, u);
    }
  }

  // The same program but for its numbers: observations, scalars, clip bounds and
  // annualization may differ.
  ghost predicate SameParts(a: seq<Binding>, b: seq<Binding>) {
    |a| == |b| && forall i :: 0 <= i < |a| ==> a[i].name == b[i].name && Erase(a[i].expr) == Erase(b[i].expr)
  }

  ghost predicate SameForm(p: Program, q: Program) {
    && |p.inputs| == |q.inputs|
    && (forall i :: 0 <= i < |p.inputs| ==>
          p.inputs[i].name == q.inputs[i].name && |p.inputs[i].values| == |q.inputs[i].values|)
    && SameParts(p.bindings, q.bindings) && SameParts(p.outputs, q.outputs)
  }

  lemma {:induction false} SameInputShapes(a: seq<Input>, b: seq<Input>)
    requires |a| == |b|
    requires forall i :: 0 <= i < |a| ==> a[i].name == b[i].name && |a[i].values| == |b[i].values|
    ensures InputShapes(a) == InputShapes(b)
  {
    if a != [] {
      SameInputShapes(a[..|a| - 1], b[..|b| - 1]);
    }
  }

  lemma SameCheck(a: Expr, b: Expr, env: ShapeEnv, used: nat)
    requires Erase(a) == Erase(b)
    ensures Check(a, env, used) == Check(b, env, used)
  {
    CheckIgnoresNumbers(a, env, used);
    CheckIgnoresNumbers(b, env, used);
  }

  lemma {:induction false} SameBind(a: seq<Binding>, b: seq<Binding>, env: ShapeEnv, used: nat)
    requires SameParts(a, b)
    ensures CheckBind(a, env, used) == CheckBind(b, env, used)
    decreases |a|
  {
    hide Check, Erase;
    if a != [] {
      SameCheck(a[0].expr, b[0].expr, env, used);
      var (s, u) := Check(a[0].expr, env, used);
      if s.Done? {
        SameBind(a[1..], b[1..], env[a[0].name := s.value], u);
      }
    }
  }

  lemma {:induction false} SameEmit(a: seq<Binding>, b: seq<Binding>, env: ShapeEnv, used: nat)
    requires SameParts(a, b)
    ensures CheckEmit(a, env, used) == CheckEmit(b, env, used)
    decreases |a|
  {
    hide Check, Erase;
    if a != [] {
      SameCheck(a[0].expr, b[0].expr, env, used);
      SameEmit(a[1..], b[1..], env, Check(a[0].expr, env, used).1);
    }
  }

  // Two valid programs that differ only in numbers, run with any square root and logarithm,
  // both succeed or fail with the same error, and then use the same fuel and give outputs
  // of the same shape.
  lemma DataIndependence(k: Kernel, p: Program, m: Kernel, q: Program)
    requires ValidProgram(p) && ValidProgram(q) && SameForm(p, q)
    ensures AbstractExecution(Execute(k, p)) == AbstractExecution(Execute(m, q))
  {
    hide CheckBind, CheckEmit, InputShapes;
    ProgramForetold(k, p);
    ProgramForetold(m, q);
    SameInputShapes(p.inputs, q.inputs);
    SameBind(p.bindings, q.bindings, InputShapes(p.inputs), 0);
    var (bound, u) := CheckBind(p.bindings, InputShapes(p.inputs), 0);
    if bound.Done? {
      SameEmit(p.outputs, q.outputs, bound.value, u);
    }
  }

  // ---- Resource bounds ----------------------------------------------------------------------

  lemma {:induction false} GoodInputs(inputs: seq<Input>)
    requires forall i :: 0 <= i < |inputs| ==> ValidInput(inputs[i])
    ensures GoodShapes(InputShapes(inputs))
  {
    if inputs != [] {
      GoodInputs(inputs[..|inputs| - 1]);
    }
  }

  // Between one and 5,000 units a node on success, and no exhaustion that could not have
  // cost more than the limit.
  ghost predicate Metered<T>(outcome: Evaluated<T>, used: nat, now: nat, nodes: nat) {
    && used <= now <= used + MAX_SERIES_LEN * nodes
    && (outcome.Done? ==> used + nodes <= now)
    && (outcome == Fail(OutOfFuel) ==> now > MAX_FUEL)
  }

  lemma {:induction false} BindMetered(bindings: seq<Binding>, env: ShapeEnv, used: nat)
    requires ValidParts(bindings) && GoodShapes(env)
    ensures var (bound, now) := CheckBind(bindings, env, used);
            Metered(bound, used, now, TotalNodes(bindings)) && (bound.Done? ==> GoodShapes(bound.value))
    decreases |bindings|
  {
    hide Check;
    if bindings != [] {
      CheckBounds(bindings[0].expr, env, used);
      var (s, u) := Check(bindings[0].expr, env, used);
      if s.Done? {
        BindMetered(bindings[1..], env[bindings[0].name := s.value], u);
      }
    }
  }

  lemma {:induction false} EmitMetered(outputs: seq<Binding>, env: ShapeEnv, used: nat)
    requires ValidParts(outputs) && GoodShapes(env)
    ensures var (emitted, now) := CheckEmit(outputs, env, used);
            && Metered(emitted, used, now, TotalNodes(outputs))
            && (emitted.Done? ==> forall o :: o in emitted.value ==> GoodShape(o.1))
            && (emitted.Done? && outputs != [] ==> now <= MAX_FUEL)
    decreases |outputs|
  {
    hide Check;
    if outputs != [] {
      CheckBounds(outputs[0].expr, env, used);
      var (s, u) := Check(outputs[0].expr, env, used);
      if s.Done? {
        EmitMetered(outputs[1..], env, u);
      }
    }
  }

  function ProgramNodes(p: Program): nat {
    TotalNodes(p.bindings) + TotalNodes(p.outputs)
  }

  // Resource soundness of every valid program: success costs between one and 5,000 units a
  // node and never more than the limit, every output series has 1 to 5,000 entries, and a
  // program of at most 1,000 nodes cannot run out of fuel.
  lemma ResourceSoundness(k: Kernel, p: Program)
    requires ValidProgram(p)
    ensures var r := Execute(k, p);
            && (r.Done? ==>
                  && ProgramNodes(p) <= r.value.fuelUsed <= MAX_SERIES_LEN * ProgramNodes(p)
                  && r.value.fuelUsed <= MAX_FUEL
                  && forall o :: o in OutputShapes(r.value.outputs) ==> GoodShape(o.1))
            && (ProgramNodes(p) <= 1000 ==> r != Fail(OutOfFuel))
            && r != Fail(Rejected)
  {
    hide CheckBind, CheckEmit, InputShapes, Execute;
    ProgramForetold(k, p);
    GoodInputs(p.inputs);
    BindMetered(p.bindings, InputShapes(p.inputs), 0);
    NotRejected(p.bindings, InputShapes(p.inputs), 0);
    var (bound, u) := CheckBind(p.bindings, InputShapes(p.inputs), 0);
    if bound.Done? {
      EmitMetered(p.outputs, bound.value, u);
      EmitNotRejected(p.outputs, bound.value, u);
    }
  }

  // `n` nodes on the one input, each as long as it: a negated variable.
  function Chain(n: nat): Expr
    requires n >= 1
  {
    if n == 1 then Var("x") else One(Neg, Chain(n - 1))
  }

  // `count` outputs of the greatest depth and one of `n` nodes, named a, aa, aaa...
  function Chains(count: nat, n: nat, name: string): (outputs: seq<Binding>)
    requires n >= 1
    ensures |outputs| == count + 1
  {
    if count == 0 then [Binding(name, Chain(n))]
    else [Binding(name, Chain(MAX_AST_DEPTH))] + Chains(count - 1, n, name + "a")
  }

  lemma {:induction false} ChainIsValid(n: nat)
    requires n >= 1
    ensures ValidExpr(Chain(n)) && Nodes(Chain(n)) == n && Height(Chain(n)) == n
  {
    if n > 1 {
      ChainIsValid(n - 1);
    }
  }

  lemma {:induction false} ChainCosts(n: nat, env: ShapeEnv, used: nat)
    requires n >= 1 && "x" in env && env["x"] == SeriesShape(MAX_SERIES_LEN)
    ensures var now := used + MAX_SERIES_LEN * n;
            var (s, u) := Check(Chain(n), env, used);
            if now <= MAX_FUEL then s == Done(SeriesShape(MAX_SERIES_LEN)) && u == now else s == Fail(OutOfFuel)
  {
    if n > 1 {
      ChainCosts(n - 1, env, used);
    }
  }

  lemma {:induction false} ChainsAreValid(count: nat, n: nat, name: string)
    requires 1 <= n <= MAX_AST_DEPTH && 1 <= |name| && |name| + count <= 64
    requires forall i :: 0 <= i < |name| ==> name[i] == 'a'
    ensures var outputs := Chains(count, n, name);
            && ValidParts(outputs) && TotalNodes(outputs) == MAX_AST_DEPTH * count + n
            && forall i :: 0 <= i < |outputs| ==> |outputs[i].name| == |name| + i
  {
    hide ValidExpr, Chain, ValidName;
    AllLetters(name);
    ChainIsValid(if count == 0 then n else MAX_AST_DEPTH);
    if count > 0 {
      ChainsAreValid(count - 1, n, name + "a");
      var outputs, rest := Chains(count, n, name), Chains(count - 1, n, name + "a");
      assert outputs[1..] == rest;
      assert forall i :: 0 < i < |outputs| ==> outputs[i] == rest[i - 1];
    }
  }

  lemma AllLetters(name: string)
    requires 1 <= |name| <= 64 && forall i :: 0 <= i < |name| ==> name[i] == 'a'
    ensures ValidName(name)
  {
  }

  lemma {:induction false} ChainsCost(count: nat, n: nat, name: string, env: ShapeEnv, used: nat)
    requires n >= 1 && "x" in env && env["x"] == SeriesShape(MAX_SERIES_LEN)
    requires used + MAX_SERIES_LEN * (MAX_AST_DEPTH * count + n) > MAX_FUEL
    ensures CheckEmit(Chains(count, n, name), env, used).0 == Fail(OutOfFuel)
  {
    hide Chain;
    var outputs := Chains(count, n, name);
    ChainCosts(if count == 0 then n else MAX_AST_DEPTH, env, used);
    if count > 0 && used + MAX_SERIES_LEN * MAX_AST_DEPTH <= MAX_FUEL {
      ChainsCost(count - 1, n, name + "a", env, used + MAX_SERIES_LEN * MAX_AST_DEPTH);
      assert outputs[1..] == Chains(count - 1, n, name + "a");
    }
  }

  // Of every larger size that validation lets through, some program does run out.
  lemma FuelCanRunOut(k: Kernel, nodes: nat) returns (p: Program)
    requires 1000 < nodes <= MAX_AST_NODES
    ensures ValidProgram(p) && ProgramNodes(p) == nodes && Execute(k, p) == Fail(OutOfFuel)
    ensures forall i, j :: 0 <= i < j < |p.outputs| ==> p.outputs[i].name != p.outputs[j].name
  {
    hide Execute, Check, Chain, Chains, CheckEmit;
    var count := MAX_OUTPUTS - 1;
    var n: nat := nodes - MAX_AST_DEPTH * count;
    var input := Input("x", seq(MAX_SERIES_LEN, _ => Some(1.0)));
    p := Program(LANGUAGE_VERSION, [input], [], Chains(count, n, "a"));
    ChainsAreValid(count, n, "a");
    assert TotalPoints([input]) == MAX_SERIES_LEN by {
      assert [input][..0] == [];
    }
    assert ValidName("x") && ValidInput(input);
    ChainsCost(count, n, "a", InputShapes([input]), 0);
    ProgramForetold(k, p);
  }

  lemma {:induction false} CheckNotRejected(e: Expr, env: ShapeEnv, used: nat)
    ensures Check(e, env, used).0 != Fail(Rejected)
    decreases e
  {
    match e
    case Scalar(_) =>
    case Var(_) =>
    case One(op, input) =>
      CheckNotRejected(input, env, used);
    case Two(op, left, right) =>
      CheckNotRejected(left, env, used);
      CheckNotRejected(right, env, Check(left, env, used).1);
  }

  lemma {:induction false} NotRejected(bindings: seq<Binding>, env: ShapeEnv, used: nat)
    ensures CheckBind(bindings, env, used).0 != Fail(Rejected)
    decreases |bindings|
  {
    if bindings != [] {
      CheckNotRejected(bindings[0].expr, env, used);
      var (s, u) := Check(bindings[0].expr, env, used);
      if s.Done? {
        NotRejected(bindings[1..], env[bindings[0].name := s.value], u);
      }
    }
  }

  lemma {:induction false} EmitNotRejected(outputs: seq<Binding>, env: ShapeEnv, used: nat)
    ensures CheckEmit(outputs, env, used).0 != Fail(Rejected)
    decreases |outputs|
  {
    if outputs != [] {
      CheckNotRejected(outputs[0].expr, env, used);
      EmitNotRejected(outputs[1..], env, Check(outputs[0].expr, env, used).1);
    }
  }

  // ---- Inlining -------------------------------------------------------------------------------

  // Each binding's expression with the earlier definitions put in place of their names.
  function DefinitionsFrom(bindings: seq<Binding>, definitions: map<string, Expr>): map<string, Expr> {
    if bindings == [] then definitions
    else DefinitionsFrom(bindings[1..], definitions[bindings[0].name := Substitute(bindings[0].expr, definitions)])
  }

  lemma {:induction false} BindDefines(
      k: Kernel, bindings: seq<Binding>, definitions: map<string, Expr>, inputs: Env, env: Env, used: nat)
    requires ValidParts(bindings) && ValidDefinitions(definitions) && Defines(k, definitions, inputs, env)
    ensures ValidDefinitions(DefinitionsFrom(bindings, definitions))
    ensures var bound := Bind(k, bindings, env, used).0;
            bound.Done? ==> Defines(k, DefinitionsFrom(bindings, definitions), inputs, bound.value)
    decreases |bindings|
  {
    hide Eval, Denote, Substitute;
    if bindings != [] {
      var name, e := bindings[0].name, bindings[0].expr;
      SubstituteDenotes(k, e, definitions, inputs, env);
      FuelOnlyStops(k, e, env, used);
      var (v, u) := Eval(k, e, env, used);
      var more := definitions[name := Substitute(e, definitions)];
      if v.Done? {
        BindDefines(k, bindings[1..], more, inputs, env[name := v.value], u);
      } else {
        DefinitionsValid(bindings[1..], more);
      }
    }
  }

  lemma {:induction false} DefinitionsValid(bindings: seq<Binding>, definitions: map<string, Expr>)
    requires ValidParts(bindings) && ValidDefinitions(definitions)
    ensures ValidDefinitions(DefinitionsFrom(bindings, definitions))
    decreases |bindings|
  {
    if bindings != [] {
      SubstituteValid(bindings[0].expr, definitions);
      DefinitionsValid(bindings[1..], definitions[bindings[0].name := Substitute(bindings[0].expr, definitions)]);
    }
  }

  lemma {:induction false} EmitDenotes(k: Kernel, outputs: seq<Binding>, env: Env, used: nat, j: nat)
    requires ValidParts(outputs) && Emit(k, outputs, env, used).0.Done? && j < |outputs|
    ensures var values := Emit(k, outputs, env, used).0.value;
            && |values| == |outputs| && values[j].0 == outputs[j].name
            && Denote(k, outputs[j].expr, env) == Done(values[j].1)
    decreases |outputs|
  {
    hide Eval, Denote;
    FuelOnlyStops(k, outputs[0].expr, env, used);
    var (v, u) := Eval(k, outputs[0].expr, env, used);
    EmitLength(k, outputs[1..], env, u);
    if j > 0 {
      EmitDenotes(k, outputs[1..], env, u, j - 1);
    }
  }

  lemma {:induction false} EmitLength(k: Kernel, outputs: seq<Binding>, env: Env, used: nat)
    requires ValidParts(outputs) && Emit(k, outputs, env, used).0.Done?
    ensures |Emit(k, outputs, env, used).0.value| == |outputs|
    decreases |outputs|
  {
    hide Eval;
    if outputs != [] {
      EmitLength(k, outputs[1..], env, Eval(k, outputs[0].expr, env, used).1);
    }
  }

  // Bindings are only names: whenever a program runs, each output is what its expression
  // denotes, on the inputs alone and with no limit on size or fuel, once every binding has
  // been replaced by its definition.
  lemma InliningPreservesMeaning(k: Kernel, p: Program, j: nat)
    requires ValidProgram(p) && Execute(k, p).Done? && j < |p.outputs|
    ensures var definitions := DefinitionsFrom(p.bindings, map[]);
            var inlined := Substitute(p.outputs[j].expr, definitions);
            var outputs := Execute(k, p).value.outputs;
            && ValidExpr(inlined)
            && |outputs| == |p.outputs| && outputs[j].0 == p.outputs[j].name
            && Denote(k, inlined, InputEnv(p.inputs)) == Done(outputs[j].1)
  {
    hide Bind, Emit, Substitute, Denote;
    var inputs := InputEnv(p.inputs);
    BindDefines(k, p.bindings, map[], inputs, inputs, 0);
    var (bound, u) := Bind(k, p.bindings, inputs, 0);
    EmitDenotes(k, p.outputs, bound.value, u, j);
    SubstituteDenotes(k, p.outputs[j].expr, DefinitionsFrom(p.bindings, map[]), inputs, bound.value);
  }
}
