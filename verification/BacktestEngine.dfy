// The engine as the program runs it: one pass over the bars that folds the day's ratios
// into an in-place rescaled price buffer, instead of adjusting the history anew at every
// bar, and trades through a mutable portfolio.

module BacktestEngine {
  import opened BacktestTypes
  import opened Execution
  import opened Broker
  import opened Simulation
  import opened Results
  import opened Wrappers
  import opened Reals
  import Adjust

  datatype RunError = EmptySeries

  // ---- The rescaled buffer -----------------------------------------------------------------

  function Combine(a: Adjust.Factor, b: Adjust.Factor): Adjust.Factor {
    a.(ratio := a.ratio * b.ratio)
  }

  // Ratios of one ex-date folded into one multiplier.
  function Fold(factors: seq<Adjust.Factor>): (folded: seq<Adjust.Factor>) {
    if factors == [] then []
    else
      var rest, f := Fold(factors[..|factors| - 1]), factors[|factors| - 1];
      if rest != [] && rest[|rest| - 1].exDate == f.exDate
      then rest[|rest| - 1 := Combine(rest[|rest| - 1], f)]
      else rest + [f]
  }

  method FoldFactors(factors: seq<Adjust.Factor>) returns (folded: seq<Adjust.Factor>)
    ensures folded == Fold(factors)
  {
    folded := [];
    for i := 0 to |factors|
      invariant folded == Fold(factors[..i])
    {
      hide Combine;
      var f, last := factors[i], |folded| - 1;
      assert factors[..i + 1][..i] == factors[..i] && factors[..i + 1][i] == f;
      assert |factors[..i + 1]| - 1 == i;
      if |folded| > 0 && folded[last].exDate == f.exDate {
        folded := folded[last := Combine(folded[last], f)];
      } else {
        folded := folded + [f];
      }
    }
    assert factors[..|factors|] == factors;
  }

  // The ratios that take effect after `since` and by `until`.
  function Between(factors: seq<Adjust.Factor>, since: int, until: int): real {
    Adjust.After(Adjust.KeepFactors(factors, until), since)
  }

  lemma {:induction false} AppendFactor(factors: seq<Adjust.Factor>, f: Adjust.Factor, since: int, until: int)
    ensures Between(factors + [f], since, until)
         == Between(factors, since, until) * if since < f.exDate <= until then f.ratio else 1.0
  {
    if factors == [] {
      assert factors + [f] == [f] && [f][1..] == [];
    } else {
      var head, rest := factors[0], factors[1..];
      AppendFactor(rest, f, since, until);
      assert (factors + [f])[1..] == rest + [f];
      var kept := Adjust.KeepFactors(rest, until);
      var keptAll := Adjust.KeepFactors(rest + [f], until);
      assert ([head] + kept)[1..] == kept && ([head] + keptAll)[1..] == keptAll;
      MulAssociates(if head.exDate > since then head.ratio else 1.0, Between(rest, since, until),
                    if since < f.exDate <= until then f.ratio else 1.0);
    }
  }

  ghost predicate StrictFactors(factors: seq<Adjust.Factor>) {
    forall i, j :: 0 <= i < j < |factors| ==> factors[i].exDate < factors[j].exDate
  }

  // Folding leaves ex-dates sorted without repeats.
  lemma {:induction false} FoldSorts(factors: seq<Adjust.Factor>)
    requires Adjust.SortedFactors(factors)
    ensures var folded := Fold(factors);
            && StrictFactors(folded)
            && (folded == [] <==> factors == [])
            && (folded != [] ==> folded[|folded| - 1].exDate == factors[|factors| - 1].exDate)
  {
    if factors != [] {
      FoldSorts(factors[..|factors| - 1]);
    }
  }

  // Folding keeps every product of ratios.
  lemma {:induction false} FoldKeepsProducts(factors: seq<Adjust.Factor>, since: int, until: int)
    ensures Between(Fold(factors), since, until) == Between(factors, since, until)
  {
    if factors != [] {
      var init, f := factors[..|factors| - 1], factors[|factors| - 1];
      var rest := Fold(init);
      FoldKeepsProducts(init, since, until);
      assert factors == init + [f];
      AppendFactor(init, f, since, until);
      if rest != [] && rest[|rest| - 1].exDate == f.exDate {
        CombineLast(rest, f, since, until);
      } else {
        AppendFactor(rest, f, since, until);
      }
    }
  }

  lemma CombineLast(rest: seq<Adjust.Factor>, f: Adjust.Factor, since: int, until: int)
    requires rest != [] && rest[|rest| - 1].exDate == f.exDate
    ensures Between(rest[|rest| - 1 := Combine(rest[|rest| - 1], f)], since, until)
         == Between(rest, since, until) * if since < f.exDate <= until then f.ratio else 1.0
  {
    hide Between;
    var start, last := rest[..|rest| - 1], rest[|rest| - 1];
    var both := Combine(last, f);
    assert rest == start + [last];
    assert rest[|rest| - 1 := both] == start + [both];
    AppendFactor(start, last, since, until);
    AppendFactor(start, both, since, until);
    if since < f.exDate <= until {
      FoldTwo(Between(start, since, until), last.ratio, f.ratio, both.ratio,
              Between(rest, since, until), Between(rest, since, until) * f.ratio,
                  Between(start + [both], since, until));
    }
  }

  lemma FoldTwo(p: real, a: real, b: real, ab: real, pa: real, pab: real, p_ab: real)
    requires ab == a * b && pa == p * a && pab == pa * b && p_ab == p * ab
    ensures pab == p_ab
  {
    MulAssociates(p, a, b);
  }

  lemma {:induction false} KeepKeep(factors: seq<Adjust.Factor>, early: int, late: int)
    requires early <= late
    ensures Adjust.KeepFactors(Adjust.KeepFactors(factors, late), early) == Adjust.KeepFactors(factors, early)
  {
    if factors != [] {
      KeepKeep(factors[1..], early, late);
      var rest := Adjust.KeepFactors(factors[1..], late);
      assert ([factors[0]] + rest)[1..] == rest;
    }
  }

  lemma BetweenSplits(factors: seq<Adjust.Factor>, since: int, mid: int, until: int)
    requires since <= mid <= until
    ensures Between(factors, since, until) == Between(factors, since, mid) * Between(factors, mid, until)
  {
    Adjust.AfterSplits(Adjust.KeepFactors(factors, until), since, mid);
    KeepKeep(factors, mid, until);
  }

  // Factors outside the interval add nothing.
  lemma {:induction false} BetweenSkips(factors: seq<Adjust.Factor>, a: nat, b: nat, since: int, until: int)
    requires a <= b <= |factors|
    requires forall j :: a <= j < b ==> !(since < factors[j].exDate <= until)
    ensures Between(factors[..b], since, until) == Between(factors[..a], since, until)
    decreases b
  {
    hide Between;
    if a < b {
      BetweenSkips(factors, a, b - 1, since, until);
      assert factors[..b] == factors[..b - 1] + [factors[b - 1]];
      AppendFactor(factors[..b - 1], factors[b - 1], since, until);
    }
  }

  function Scaled(bar: Bar, multiplier: real): Bar {
    Reprice(bar, Adjust.Times(Adjust.PricesOf(ToCore(bar)), multiplier))
  }

  lemma ScaledTwice(bar: Bar, a: real, b: real, ab: real)
    requires ab == a * b
    ensures Scaled(Scaled(bar, a), b) == Scaled(bar, ab)
    ensures Scaled(bar, 1.0) == bar
  {
    Adjust.TimesTimes(Adjust.PricesOf(ToCore(bar)), a, b, ab);
  }

  // Multipliers before `next` are in force by `date`, the others are not.
  ghost predicate InForce(multipliers: seq<Adjust.Factor>, next: nat, date: int) {
    && next <= |multipliers|
    && (forall j :: 0 <= j < next ==> multipliers[j].exDate <= date)
    && (forall j :: next <= j < |multipliers| ==> multipliers[j].exDate > date)
  }

  // Multiply up the ratios now due and apply them to the past bars.
  method Advance(visible: seq<Bar>, multipliers: seq<Adjust.Factor>, nextMult: nat, date: int, ghost since: int)
    returns (rescaled: seq<Bar>, next: nat)
    requires StrictFactors(multipliers)
    requires InForce(multipliers, nextMult, since) && since <= date
    ensures InForce(multipliers, next, date)
    ensures |rescaled| == |visible|
    ensures forall i :: 0 <= i < |visible| ==> rescaled[i] == Scaled(visible[i], Between(multipliers, since, date))
  {
    hide Between, Scaled;
    var pendingMult := 1.0;
    next := nextMult;
    BetweenSkips(multipliers, 0, next, since, date);
    BetweenNone(since, date);
    while next < |multipliers| && multipliers[next].exDate <= date
      invariant nextMult <= next <= |multipliers|
      invariant forall j :: 0 <= j < next ==> multipliers[j].exDate <= date
      invariant pendingMult == Between(multipliers[..next], since, date)
    {
      AppendFactor(multipliers[..next], multipliers[next], since, date);
      assert multipliers[..next + 1] == multipliers[..next] + [multipliers[next]];
      pendingMult := pendingMult * multipliers[next].ratio;
      next := next + 1;
    }
    BetweenSkips(multipliers, next, |multipliers|, since, date);
    assert multipliers[..|multipliers|] == multipliers;
    rescaled := visible;
    if pendingMult != 1.0 {
      rescaled := Rescale(visible, pendingMult);
    } else {
      forall i | 0 <= i < |visible| ensures Scaled(visible[i], 1.0) == visible[i] {
        ScaledTwice(visible[i], 1.0, 1.0, 1.0);
      }
    }
  }

  lemma BetweenNone(since: int, until: int)
    ensures Between([], since, until) == 1.0
  {
  }

  method Rescale(bars: seq<Bar>, multiplier: real) returns (out: seq<Bar>)
    ensures |out| == |bars|
    ensures forall i :: 0 <= i < |bars| ==> out[i] == Scaled(bars[i], multiplier)
  {
    out := bars;
    for i := 0 to |bars|
      invariant |out| == |bars|
      invariant forall j :: 0 <= j < i ==> out[j] == Scaled(bars[j], multiplier)
      invariant forall j :: i <= j < |bars| ==> out[j] == bars[j]
    {
      var b := out[i];
      out := out[i := b.(open := b.open * multiplier, close := b.close * multiplier,
                         high := b.high * multiplier, low := b.low * multiplier)];
    }
  }

  // ---- The buffer is the re-anchored history --------------------------------------------

  ghost function AllFactors(engine: Engine, bars: seq<Bar>): seq<Adjust.Factor>
    requires bars != []
  {
    Adjust.Factors(CoreBars(bars), engine.actions, bars[|bars| - 1].date, None)
  }

  // Each bar up to t - 1, scaled by the ratios from its own date to the latest date.
  ghost predicate Anchored(visible: seq<Bar>, factors: seq<Adjust.Factor>, bars: seq<Bar>, t: nat)
    requires t <= |bars|
  {
    && |visible| == t
    && forall k :: 0 <= k < t ==> visible[k] == Scaled(bars[k], Between(factors, bars[k].date, bars[t - 1].date))
  }

  lemma AnchoredAdvances(visible: seq<Bar>, rescaled: seq<Bar>, factors: seq<Adjust.Factor>, bars: seq<Bar>, t: nat)
    requires t < |bars| && StrictDates(bars) && Anchored(visible, factors, bars, t)
    requires |rescaled| == t
    requires t > 0 ==> forall i :: 0 <= i < t ==>
               rescaled[i] == Scaled(visible[i], Between(factors, bars[t - 1].date, bars[t].date))
    ensures Anchored(rescaled + [bars[t]], factors, bars, t + 1)
  {
    hide Between, Scaled;
    var next, today := rescaled + [bars[t]], bars[t].date;
    forall k | 0 <= k < t + 1 ensures next[k] == Scaled(bars[k], Between(factors, bars[k].date, today)) {
      if k < t {
        var yesterday := bars[t - 1].date;
        BetweenSplits(factors, bars[k].date, yesterday, today);
        ScaledTwice(bars[k], Between(factors, bars[k].date, yesterday), Between(factors, yesterday, today),
                    Between(factors, bars[k].date, today));
      } else {
        NothingBetween(factors, today);
        ScaledTwice(bars[t], 1.0, 1.0, 1.0);
      }
    }
  }

  lemma {:induction false} NothingBetween(factors: seq<Adjust.Factor>, date: int)
    ensures Between(factors, date, date) == 1.0
  {
    BetweenSkips(factors, 0, |factors|, date, date);
    assert factors[..|factors|] == factors;
  }

  // The buffer kept up incrementally from multipliers computed once over the full history
  // is, at every bar, the history forward-adjusted afresh with that bar as its anchor and
  // only the bars and actions known there.
  lemma AnchoredIsReanchored(engine: Engine, visible: seq<Bar>, bars: seq<Bar>, t: nat)
    requires t < |bars| && StrictDates(bars)
    requires Anchored(visible, AllFactors(engine, bars), bars, t + 1)
    ensures visible == Reanchored(bars[..t + 1], engine.actions)
  {
    var core, today, late := CoreBars(bars), bars[t].date, bars[|bars| - 1].date;
    var adjusted := Reanchored(bars[..t + 1], engine.actions);
    assert CoreBars(bars[..t + 1]) == core[..t + 1];
    assert Adjust.SortedBars(core);
    Adjust.FactorsPrefix(core, t, engine.actions, late, None);
    forall k | 0 <= k < t + 1 ensures visible[k] == adjusted[k] {
      Adjust.QfqPrices(core[..t + 1], engine.actions, today, None, k);
    }
  }

  // ---- The run ------------------------------------------------------------------------------

  // One bar's trading, in the order the execution policy asks for.
  method TradeBar<S>(engine: Engine, strategy: Strategy<S>, bars: seq<Bar>, t: nat, seen: seq<Bar>,
                     orders: seq<Order>, state: S, pf: Portfolio, result: BacktestResult, ghost run: Run<S>)
    returns (pending: seq<Order>, nextState: S)
    requires t < |bars| && seen == Visible(engine, bars[..t + 1])
    requires Valid(pf) && BookOf(pf, result) == Open(run.book)
    requires orders == run.pending && state == run.strategy && (engine.execution == SameClose ==> orders == [])
    modifies pf, result`trades, result`rejections
    ensures Valid(pf)
    ensures var after := Trade(engine, strategy, bars, t, run);
            BookOf(pf, result) == after.book && pending == after.pending && nextState == after.strategy
  {
    hide ExecuteAll, Visible;
    match engine.execution {
      case NextOpen =>
        if t > 0 {
          DrainOrders(engine, orders, pf, result, bars, t, bars[t].open);
        }
        var decision := strategy.onBar(state, seen, SnapshotOf(pf), t);
        nextState, pending := decision.0, decision.1;
      case NextClose =>
        var prior := orders;
        var decision := strategy.onBar(state, seen, SnapshotOf(pf), t);
        nextState, pending := decision.0, decision.1;
        if t > 0 {
          DrainOrders(engine, prior, pf, result, bars, t, bars[t].close);
        }
      case SameClose =>
        var decision := strategy.onBar(state, seen, SnapshotOf(pf), t);
        nextState, pending := decision.0, orders;
        DrainOrders(engine, decision.1, pf, result, bars, t, bars[t].close);
    }
  }

  function SnapshotOf(pf: Portfolio): Snapshot
    reads pf
  {
    Snapshot(pf.shares, pf.sellable, if pf.shares > 0 then pf.costBasis / pf.shares as real else 0.0, pf.cash)
  }

  // The state of the buffer before bar t.
  ghost predicate BufferReady(engine: Engine, bars: seq<Bar>, t: nat, visible: seq<Bar>,
                              multipliers: seq<Adjust.Factor>, nextMult: nat, since: int)
    requires bars != [] && t <= |bars|
  {
    engine.adjustment == QfqAsOf ==>
      && multipliers == Fold(AllFactors(engine, bars))
      && InForce(multipliers, nextMult, since)
      && (t < |bars| ==> since <= bars[t].date) && (t > 0 ==> since == bars[t - 1].date)
      && Anchored(visible, multipliers, bars, t)
  }

  lemma MultipliersSorted(engine: Engine, bars: seq<Bar>)
    requires bars != []
    ensures StrictFactors(Fold(AllFactors(engine, bars)))
  {
    AllFactorsSorted(engine, bars);
    FoldSorts(AllFactors(engine, bars));
  }

  lemma AllFactorsSorted(engine: Engine, bars: seq<Bar>)
    requires bars != []
    ensures Adjust.SortedFactors(AllFactors(engine, bars))
  {
    Adjust.FactorsAreSorted(CoreBars(bars), engine.actions, bars[|bars| - 1].date, None);
  }

  lemma AnchoredByFactors(engine: Engine, visible: seq<Bar>, bars: seq<Bar>, t: nat)
    requires bars != [] && t <= |bars| && Anchored(visible, Fold(AllFactors(engine, bars)), bars, t)
    ensures Anchored(visible, AllFactors(engine, bars), bars, t)
  {
    hide Between, Scaled, Fold, AllFactors;
    var factors := AllFactors(engine, bars);
    forall k | 0 <= k < t
      ensures visible[k] == Scaled(bars[k], Between(factors, bars[k].date, bars[t - 1].date))
    {
      FoldKeepsProducts(factors, bars[k].date, bars[t - 1].date);
    }
  }

  lemma BufferStart(engine: Engine, bars: seq<Bar>, multipliers: seq<Adjust.Factor>, since: int)
    requires bars != [] && since <= bars[0].date
    requires engine.adjustment == QfqAsOf ==> multipliers == Fold(AllFactors(engine, bars))
    requires multipliers != [] ==> since < multipliers[0].exDate
    ensures BufferReady(engine, bars, 0, [], multipliers, 0, since)
  {
    MultipliersSorted(engine, bars);
  }

  // The bars shown to the strategy, and the buffer to go on with.
  method SeeBar(engine: Engine, bars: seq<Bar>, t: nat, buffer: seq<Bar>, multipliers: seq<Adjust.Factor>,
                nextMult: nat, ghost since: int)
    returns (seen: seq<Bar>, visible: seq<Bar>, next: nat)
    requires StrictDates(bars) && t < |bars| && BufferReady(engine, bars, t, buffer, multipliers, nextMult, since)
    ensures seen == Visible(engine, bars[..t + 1])
    ensures BufferReady(engine, bars, t + 1, visible, multipliers, next, bars[t].date)
  {
    hide Fold, AllFactors, Reanchored, Anchored, Between, Scaled;
    visible, next := buffer, nextMult;
    match engine.adjustment {
      case Raw =>
        seen := bars[..t + 1];
      case QfqAsOf =>
        MultipliersSorted(engine, bars);
        visible, next := Advance(buffer, multipliers, nextMult, bars[t].date, since);
        AnchoredLength(buffer, multipliers, bars, t);
        AnchoredAdvances(buffer, visible, multipliers, bars, t);
        visible := visible + [bars[t]];
        AnchoredByFactors(engine, visible, bars, t + 1);
        AnchoredIsReanchored(engine, visible, bars, t);
        seen := visible;
    }
  }

  lemma AnchoredLength(visible: seq<Bar>, factors: seq<Adjust.Factor>, bars: seq<Bar>, t: nat)
    requires t <= |bars| && Anchored(visible, factors, bars, t)
    ensures |visible| == t
  {
  }

  // The closing mark, in place.
  method MarkBar<S>(bar: Bar, lastClose: real, pf: Portfolio, result: BacktestResult, ghost run: Run<S>)
    returns (close: real)
    requires Valid(pf) && BookOf(pf, result) == run.book && result.equity == run.equity && lastClose == run.lastClose
    modifies result`equity
    ensures result.equity == Mark(bar, run).equity && close == Mark(bar, run).lastClose
  {
    close := lastClose;
    if !bar.suspended {
      close := bar.close;
    }
    var marketValue := Amount(pf.shares, close);
    result.equity := result.equity
      + [EquityPoint(bar.date, pf.cash, pf.shares, close, marketValue, pf.feesCum, pf.cash + marketValue)];
  }

  // The multipliers, computed once over the whole history.
  method SetUp(engine: Engine, bars: seq<Bar>) returns (multipliers: seq<Adjust.Factor>, warnings: seq<Adjust.Warning>)
    requires bars != []
    ensures engine.adjustment == Raw ==> warnings == []
    ensures engine.adjustment == QfqAsOf ==>
              warnings == Adjust.Warnings(CoreBars(bars), engine.actions, bars[|bars| - 1].date, None)
    ensures engine.adjustment == QfqAsOf ==> multipliers == Fold(AllFactors(engine, bars))
  {
    hide Fold;
    multipliers, warnings := [], [];
    if engine.adjustment == QfqAsOf {
      var factors;
      factors, warnings := Adjust.ActionFactors(CoreBars(bars), engine.actions, bars[|bars| - 1].date, None);
      multipliers := FoldFactors(factors);
    }
  }

  // The single pass computes what re-adjusting the whole visible history at every bar would.
  method Run<S>(engine: Engine, strategy: Strategy<S>, bars: seq<Bar>) returns (r: Result<BacktestResult, RunError>)
    requires StrictDates(bars)
    ensures bars == [] <==> r == Failure(EmptySeries)
    ensures bars != [] ==>
              && r.Success? && fresh(r.value)
              && var run := RunTo(engine, strategy, bars, |bars|);
              && r.value.equity == run.equity
              && r.value.trades == run.book.fills
              && r.value.rejections == run.book.rejections
              && r.value.adjustmentWarnings
                 == if engine.adjustment == Raw then []
                    else Adjust.Warnings(CoreBars(bars), engine.actions, bars[|bars| - 1].date, None)
  {
    hide Trade, Visible, BufferReady, Adjust.Warnings, AllFactors, Fold, Mark, RunTo;
    if bars == [] {
      return Failure(EmptySeries);
    }
    var pf := new Portfolio(engine.initialCash);
    var result := new BacktestResult();
    var pending: seq<Order> := [];
    var state := strategy.init;
    var lastClose := bars[0].close;
    var multipliers, warnings := SetUp(engine, bars);
    result.adjustmentWarnings := warnings;
    var visible: seq<Bar> := [];
    var nextMult: nat := 0;
    ghost var since := bars[0].date;
    if multipliers != [] && multipliers[0].exDate <= since {
      since := multipliers[0].exDate - 1;
    }
    BufferStart(engine, bars, multipliers, since);
    RunStart(engine, strategy, bars);
    for t := 0 to |bars|
      invariant Valid(pf) && fresh(pf) && fresh(result)
      invariant BufferReady(engine, bars, t, visible, multipliers, nextMult, since)
      invariant result.adjustmentWarnings == warnings
      invariant var run := RunTo(engine, strategy, bars, t);
                && BookOf(pf, result) == run.book && result.equity == run.equity
                && pending == run.pending && state == run.strategy && lastClose == run.lastClose
    {
      ghost var run := RunTo(engine, strategy, bars, t);
      OrdersAreAttemptedOnce(engine, strategy, bars, t);
      pf.sellable := pf.shares;
      var seen;
      seen, visible, nextMult := SeeBar(engine, bars, t, visible, multipliers, nextMult, since);
      since := bars[t].date;
      pending, state := TradeBar(engine, strategy, bars, t, seen, pending, state, pf, result, run);
      RunStep(engine, strategy, bars, t);
      lastClose := MarkBar(bars[t], lastClose, pf, result, Trade(engine, strategy, bars, t, run));
    }
    r := Success(result);
  }

  lemma RunStart<S>(engine: Engine, strategy: Strategy<S>, bars: seq<Bar>)
    requires bars != []
    ensures RunTo(engine, strategy, bars, 0) == Start(engine, strategy, bars)
  {
  }

  lemma RunStep<S>(engine: Engine, strategy: Strategy<S>, bars: seq<Bar>, t: nat)
    requires t < |bars|
    ensures var run := RunTo(engine, strategy, bars, t);
            var traded, after := Trade(engine, strategy, bars, t, run), RunTo(engine, strategy, bars, t + 1);
            && traded.equity == run.equity && traded.lastClose == run.lastClose
            && after == Mark(bars[t], traded)
            && after.book == traded.book && after.pending == traded.pending && after.strategy == traded.strategy
  {
    hide ExecuteAll, Visible;
  }
}
