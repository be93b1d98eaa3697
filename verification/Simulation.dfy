// What a whole backtest computes, bar by bar, and what holds of every run.

module Simulation {
  import opened BacktestTypes
  import opened Execution
  import opened Wrappers
  import Adjust

  // ---- What the strategy sees -------------------------------------------------------------

  function ToCore(bar: Bar): Adjust.Bar {
    Adjust.Bar(bar.date, bar.open, bar.close, bar.high, bar.low, bar.volume, None, None)
  }

  function CoreBars(bars: seq<Bar>): (core: seq<Adjust.Bar>)
    ensures |core| == |bars|
    ensures forall k :: 0 <= k < |bars| ==> core[k] == ToCore(bars[k])
  {
    seq(|bars|, k requires 0 <= k < |bars| => ToCore(bars[k]))
  }

  function Reprice(bar: Bar, p: Adjust.Prices): Bar {
    bar.(open := p.open, close := p.close, high := p.high, low := p.low)
  }

  // History forward-adjusted as a reader at the last of these bars would adjust it.
  function Reanchored(history: seq<Bar>, actions: seq<Adjust.CorporateAction>): (visible: seq<Bar>)
    ensures |visible| == |history|
  {
    if history == [] then []
    else
      var qfq := Adjust.Qfq(CoreBars(history), actions, history[|history| - 1].date, None);
      seq(|history|, k requires 0 <= k < |history| => Reprice(history[k], Adjust.PricesOf(qfq[k])))
  }

  function Visible(engine: Engine, history: seq<Bar>): seq<Bar> {
    match engine.adjustment
    case Raw => history
    case QfqAsOf => Reanchored(history, engine.actions)
  }

  // ---- Runs ---------------------------------------------------------------------------------

  // `emitted` and `attempted` list the orders given and the orders tried so far.
  datatype Run<S> = Run(
    book: Book, pending: seq<Order>, strategy: S, lastClose: real, equity: seq<EquityPoint>,
    emitted: seq<Order>, attempted: seq<Order>)

  function Start<S>(engine: Engine, strategy: Strategy<S>, bars: seq<Bar>): Run<S>
    requires bars != []
  {
    Run(BookRecord(engine.initialCash, 0, 0, 0.0, 0.0, [], []), [], strategy.init, bars[0].close, [], [], [])
  }

  // Whatever is held when a bar opens may be sold on it.
  function Open(book: Book): Book {
    book.(sellable := book.shares)
  }

  // The strategy's turn, then the book's; or the other way round.
  function Trade<S>(engine: Engine, strategy: Strategy<S>, bars: seq<Bar>, t: nat, run: Run<S>): Run<S>
    requires t < |bars|
  {
    var visible, opening := Visible(engine, bars[..t + 1]), Open(run.book);
    match engine.execution
    case NextOpen =>
      var book := if t > 0 then ExecuteAll(engine, run.pending, opening, bars, t, bars[t].open) else opening;
      var (state, orders) := strategy.onBar(run.strategy, visible, book.View(), t);
      run.(book := book, pending := orders, strategy := state,
           emitted := run.emitted + orders, attempted := run.attempted + run.pending)
    case NextClose =>
      var (state, orders) := strategy.onBar(run.strategy, visible, opening.View(), t);
      var book := if t > 0 then ExecuteAll(engine, run.pending, opening, bars, t, bars[t].close) else opening;
      run.(book := book, pending := orders, strategy := state,
           emitted := run.emitted + orders, attempted := run.attempted + run.pending)
    case SameClose =>
      var (state, orders) := strategy.onBar(run.strategy, visible, opening.View(), t);
      run.(book := ExecuteAll(engine, orders, opening, bars, t, bars[t].close), strategy := state,
           emitted := run.emitted + orders, attempted := run.attempted + orders)
  }

  // The mark of a suspended bar is stale.
  function Mark<S>(bar: Bar, run: Run<S>): Run<S> {
    var close := if bar.suspended then run.lastClose else bar.close;
    var value := Amount(run.book.shares, close);
    run.(lastClose := close,
         equity := run.equity + [EquityPoint(bar.date, run.book.cash, run.book.shares, close, value, run.book.feesCum,
                                             run.book.cash + value)])
  }

  function RunTo<S>(engine: Engine, strategy: Strategy<S>, bars: seq<Bar>, k: nat): Run<S>
    requires bars != [] && k <= |bars|
  {
    if k == 0 then Start(engine, strategy, bars)
    else Mark(bars[k - 1], Trade(engine, strategy, bars, k - 1, RunTo(engine, strategy, bars, k - 1)))
  }

  // ---- What a bar does ------------------------------------------------------------------------

  // At every bar of every run the strategy is asked once, with the bars visible there and a
  // position: the one the bar's fills leave when orders execute at the open, and otherwise
  // the one before them, all of it sellable. What it answers is emitted; under SameClose it
  // is tried on the bar, and under the other policies the orders of the bar before are.
  lemma StrategySees<S>(engine: Engine, strategy: Strategy<S>, bars: seq<Bar>, t: nat)
    requires t < |bars|
    ensures var before, after := RunTo(engine, strategy, bars, t), RunTo(engine, strategy, bars, t + 1);
            var atOpen := engine.execution == NextOpen;
            var b := if atOpen then after.book else before.book;
            var position := Snapshot(b.shares, if atOpen then b.sellable else b.shares,
                                     if b.shares == 0 then 0.0 else b.costBasis / b.shares as real, b.cash);
            var (state, orders) := strategy.onBar(before.strategy, Visible(engine, bars[..t + 1]), position, t);
            && after.strategy == state && after.emitted == before.emitted + orders
            && if engine.execution == SameClose
               then after.pending == before.pending && after.attempted == before.attempted + orders
               else after.pending == orders && after.attempted == before.attempted + before.pending
  {
    hide ExecuteAll, Visible;
  }

  // What the strategy is shown of bar k: the raw bar or, adjusted, its prices times the
  // ratios that take effect after it and by the last bar shown, which is itself raw.
  lemma VisibleBars(engine: Engine, history: seq<Bar>, k: nat)
    requires k < |history|
    ensures var visible, today := Visible(engine, history), history[|history| - 1].date;
            && |visible| == |history|
            && (engine.adjustment == Raw ==> visible[k] == history[k])
            && (engine.adjustment == QfqAsOf ==>
                  var factors := Adjust.Factors(CoreBars(history), engine.actions, today, None);
                  var factor, bar := Adjust.After(factors, history[k].date), history[k];
                  visible[k] == bar.(open := bar.open * factor, close := bar.close * factor,
                                     high := bar.high * factor, low := bar.low * factor))
            && (history[k].date >= today ==> visible[k] == history[k])
  {
    hide Adjust.Factors, Adjust.After, Adjust.Qfq;
    var core, today := CoreBars(history), history[|history| - 1].date;
    Adjust.QfqPrices(core, engine.actions, today, None, k);
    if history[k].date >= today {
      Adjust.AnchorIsRaw(core, engine.actions, today, None, k);
    }
  }

  // Every bar of every run adds one point, which shows the book after the bar and what the
  // position is worth at the point's close.
  lemma EquityShowsBook<S>(engine: Engine, strategy: Strategy<S>, bars: seq<Bar>, t: nat)
    requires t < |bars|
    ensures var before, after := RunTo(engine, strategy, bars, t), RunTo(engine, strategy, bars, t + 1);
            && |after.equity| == |before.equity| + 1 && before.equity == after.equity[..|before.equity|]
            && var point, book := after.equity[|before.equity|], after.book;
               && point.cash == book.cash && point.shares == book.shares && point.feesCum == book.feesCum
               && point.marketValue == book.shares as real * point.close
               && point.equity == book.cash + book.shares as real * point.close
  {
    hide ExecuteAll, Visible;
  }

  // ---- Causality ------------------------------------------------------------------------------

  lemma {:induction false} ExecuteAllLocal(
      engine: Engine, orders: seq<Order>, book: Book, bars: seq<Bar>, m: nat, t: nat, rawPrice: real)
    requires t < m <= |bars|
    ensures ExecuteAll(engine, orders, book, bars[..m], t, rawPrice)
        == ExecuteAll(engine, orders, book, bars, t, rawPrice)
    decreases |orders|
  {
    if orders != [] {
      var next := Execute(engine, orders[0], book, bars, t, rawPrice);
      assert Execute(engine, orders[0], book, bars[..m], t, rawPrice) == next;
      ExecuteAllLocal(engine, orders[1..], next, bars, m, t, rawPrice);
    }
  }

  // A run over a prefix of the bars is a prefix of the run.
  lemma {:induction false} RunIsLocal<S>(engine: Engine, strategy: Strategy<S>, bars: seq<Bar>, m: nat, k: nat)
    requires 0 < m <= |bars| && k <= m
    ensures RunTo(engine, strategy, bars[..m], k) == RunTo(engine, strategy, bars, k)
    decreases k
  {
    hide Trade, Mark;
    if k > 0 {
      var t := k - 1;
      RunIsLocal(engine, strategy, bars, m, t);
      var run := RunTo(engine, strategy, bars, t);
      assert bars[..m][..t + 1] == bars[..t + 1];
      TradeIsLocal(engine, strategy, bars, m, t, run);
    }
  }

  lemma TradeIsLocal<S>(engine: Engine, strategy: Strategy<S>, bars: seq<Bar>, m: nat, t: nat, run: Run<S>)
    requires t < m <= |bars|
    ensures Trade(engine, strategy, bars[..m], t, run) == Trade(engine, strategy, bars, t, run)
  {
    hide ExecuteAll, Visible;
    assert bars[..m][..t + 1] == bars[..t + 1];
    var opening := Open(run.book);
    ExecuteAllLocal(engine, run.pending, opening, bars, m, t, bars[t].open);
    ExecuteAllLocal(engine, run.pending, opening, bars, m, t, bars[t].close);
    var (state, orders) := strategy.onBar(run.strategy, Visible(engine, bars[..t + 1]), opening.View(), t);
    ExecuteAllLocal(engine, orders, opening, bars, m, t, bars[t].close);
  }

  // Every fill and rejection added is of that date.
  ghost predicate Extends(before: Book, after: Book, date: int) {
    && before.fills <= after.fills && before.rejections <= after.rejections
    && (forall i :: |before.fills| <= i < |after.fills| ==> after.fills[i].date == date)
    && (forall i :: |before.rejections| <= i < |after.rejections| ==> after.rejections[i].date == date)
  }

  lemma {:induction false} ExecuteAllExtends(
      engine: Engine, orders: seq<Order>, book: Book, bars: seq<Bar>, t: nat, rawPrice: real)
    requires t < |bars|
    ensures var after := ExecuteAll(engine, orders, book, bars, t, rawPrice);
            && Extends(book, after, bars[t].date)
            && |after.fills| + |after.rejections| == |book.fills| + |book.rejections| + |orders|
    decreases |orders|
  {
    hide Execute;
    if orders != [] {
      ExecuteSettles(engine, orders[0], book, bars, t, rawPrice);
      ExecuteAllExtends(engine, orders[1..], Execute(engine, orders[0], book, bars, t, rawPrice), bars, t, rawPrice);
    }
  }

  lemma TradeExtends<S>(engine: Engine, strategy: Strategy<S>, bars: seq<Bar>, t: nat, run: Run<S>)
    requires t < |bars|
    ensures var after := Trade(engine, strategy, bars, t, run);
            Extends(run.book, after.book, bars[t].date) && after.equity == run.equity
  {
    hide ExecuteAll, Visible;
    var opening := Open(run.book);
    ExecuteAllExtends(engine, run.pending, opening, bars, t, bars[t].open);
    ExecuteAllExtends(engine, run.pending, opening, bars, t, bars[t].close);
    var (state, orders) := strategy.onBar(run.strategy, Visible(engine, bars[..t + 1]), opening.View(), t);
    ExecuteAllExtends(engine, orders, opening, bars, t, bars[t].close);
  }

  // What a log is up to bar k, and that later entries are of later dates.
  lemma {:induction false} RunGrows<S>(engine: Engine, strategy: Strategy<S>, bars: seq<Bar>, k: nat, n: nat)
    requires bars != [] && k <= n <= |bars| && StrictDates(bars)
    ensures var early, late := RunTo(engine, strategy, bars, k), RunTo(engine, strategy, bars, n);
            && |early.equity| == k && |late.equity| == n && early.equity == late.equity[..k]
            && early.book.fills <= late.book.fills && early.book.rejections <= late.book.rejections
            && (k > 0 ==> forall i :: |early.book.fills| <= i < |late.book.fills| ==>
                  late.book.fills[i].date > bars[k - 1].date)
            && (k > 0 ==> forall i :: |early.book.rejections| <= i < |late.book.rejections| ==>
                  late.book.rejections[i].date > bars[k - 1].date)
            && (k > 0 ==> forall f :: f in early.book.fills ==> f.date <= bars[k - 1].date)
            && (k > 0 ==> forall r :: r in early.book.rejections ==> r.date <= bars[k - 1].date)
    decreases n
  {
    hide Trade;
    if k < n {
      RunGrows(engine, strategy, bars, k, n - 1);
      TradeExtends(engine, strategy, bars, n - 1, RunTo(engine, strategy, bars, n - 1));
    } else if k > 0 {
      RunGrows(engine, strategy, bars, k - 1, k - 1);
      TradeExtends(engine, strategy, bars, k - 1, RunTo(engine, strategy, bars, k - 1));
    }
  }

  // No look-ahead, over whole runs: run on the first m bars only, any strategy gets exactly
  // the first m equity points and the fills and rejections dated up to then that it gets
  // with any later history appended.
  lemma Causality<S>(engine: Engine, strategy: Strategy<S>, bars: seq<Bar>, m: nat)
    requires 0 < m <= |bars| && StrictDates(bars)
    ensures var part, whole := RunTo(engine, strategy, bars[..m], m), RunTo(engine, strategy, bars, |bars|);
            && |whole.equity| == |bars| && part.equity == whole.equity[..m]
            && part.book.fills <= whole.book.fills && part.book.rejections <= whole.book.rejections
            && (forall i :: 0 <= i < |whole.book.fills| ==>
                  (i < |part.book.fills| <==> whole.book.fills[i].date <= bars[m - 1].date))
            && (forall i :: 0 <= i < |whole.book.rejections| ==>
                  (i < |part.book.rejections| <==> whole.book.rejections[i].date <= bars[m - 1].date))
  {
    hide RunTo;
    RunIsLocal(engine, strategy, bars, m, m);
    RunGrows(engine, strategy, bars, m, |bars|);
    var part, whole := RunTo(engine, strategy, bars, m), RunTo(engine, strategy, bars, |bars|);
    forall i | 0 <= i < |part.book.fills| ensures whole.book.fills[i].date <= bars[m - 1].date {
      assert part.book.fills[i] in part.book.fills;
    }
    forall i | 0 <= i < |part.book.rejections| ensures whole.book.rejections[i].date <= bars[m - 1].date {
      assert part.book.rejections[i] in part.book.rejections;
    }
  }

  // ---- Orders -----------------------------------------------------------------------------------

  // Orders are tried in the order given, each once, each leaving one fill or one rejection;
  // only those of the last bar are still pending, and under SameClose none are.
  lemma {:induction false} OrdersAreAttemptedOnce<S>(engine: Engine, strategy: Strategy<S>, bars: seq<Bar>, k: nat)
    requires bars != [] && k <= |bars|
    ensures var run := RunTo(engine, strategy, bars, k);
            && run.emitted == run.attempted + run.pending
            && |run.attempted| == |run.book.fills| + |run.book.rejections|
            && (k == 0 || engine.execution == SameClose ==> run.pending == [])
    ensures k > 0 ==> RunTo(engine, strategy, bars, k - 1).emitted <= RunTo(engine, strategy, bars, k).attempted
    decreases k
  {
    if k > 0 {
      OrdersAreAttemptedOnce(engine, strategy, bars, k - 1);
      TradeAttempts(engine, strategy, bars, k - 1, RunTo(engine, strategy, bars, k - 1));
    }
  }

  lemma TradeAttempts<S>(engine: Engine, strategy: Strategy<S>, bars: seq<Bar>, t: nat, run: Run<S>)
    requires t < |bars|
    requires run.emitted == run.attempted + run.pending
    requires |run.attempted| == |run.book.fills| + |run.book.rejections|
    requires t == 0 || engine.execution == SameClose ==> run.pending == []
    ensures var after := Trade(engine, strategy, bars, t, run);
            && after.emitted == after.attempted + after.pending
            && |after.attempted| == |after.book.fills| + |after.book.rejections|
            && (engine.execution == SameClose ==> after.pending == [])
            && run.emitted <= after.attempted
  {
    hide ExecuteAll, Visible;
    var opening := Open(run.book);
    ExecuteAllExtends(engine, run.pending, opening, bars, t, bars[t].open);
    ExecuteAllExtends(engine, run.pending, opening, bars, t, bars[t].close);
    var (state, orders) := strategy.onBar(run.strategy, Visible(engine, bars[..t + 1]), opening.View(), t);
    ExecuteAllExtends(engine, orders, opening, bars, t, bars[t].close);
  }

  // ---- Order by order -----------------------------------------------------------------------------

  // One order tried at a bar, and the book before and after.
  datatype Attempt = Attempt(order: Order, bar: nat, before: Book, after: Book)

  predicate SameButSellable(a: Book, b: Book) {
    b == a.(sellable := b.sellable)
  }

  // A chain from one book to another: each order settles in turn, at its bar's date, and
  // between two of them only what is sellable changes.
  ghost predicate Linked(bars: seq<Bar>, start: Book, attempts: seq<Attempt>, end: Book) {
    if attempts == [] then SameButSellable(start, end)
    else
      var last := attempts[|attempts| - 1];
      && Linked(bars, start, attempts[..|attempts| - 1], last.before)
      && last.bar < |bars| && Settles(last.order, bars[last.bar].date, last.before, last.after)
      && SameButSellable(last.after, end)
  }

  ghost predicate Tries(attempts: seq<Attempt>, orders: seq<Order>) {
    |attempts| == |orders| && forall i :: 0 <= i < |orders| ==> attempts[i].order == orders[i]
  }

  lemma {:induction false} LinkedAppends(bars: seq<Bar>, a: Book, xs: seq<Attempt>, b: Book, ys: seq<Attempt>, c: Book)
    requires Linked(bars, a, xs, b) && Linked(bars, b, ys, c)
    ensures Linked(bars, a, xs + ys, c)
    decreases |ys|
  {
    hide Settles;
    if ys == [] {
      assert xs + ys == xs;
    } else {
      var n := |ys| - 1;
      LinkedAppends(bars, a, xs, b, ys[..n], ys[n].before);
      assert (xs + ys)[..|xs + ys| - 1] == xs + ys[..n];
    }
  }

  lemma {:induction false} ExecuteAllLinks(
      engine: Engine, orders: seq<Order>, book: Book, bars: seq<Bar>, t: nat, rawPrice: real)
    returns (attempts: seq<Attempt>)
    requires t < |bars|
    ensures Linked(bars, book, attempts, ExecuteAll(engine, orders, book, bars, t, rawPrice))
    ensures Tries(attempts, orders) && forall a :: a in attempts ==> a.bar == t
    decreases |orders|
  {
    hide Execute, Settles;
    attempts := [];
    if orders != [] {
      var next := Execute(engine, orders[0], book, bars, t, rawPrice);
      var first := Attempt(orders[0], t, book, next);
      ExecuteSettles(engine, orders[0], book, bars, t, rawPrice);
      var rest := ExecuteAllLinks(engine, orders[1..], next, bars, t, rawPrice);
      assert [first][..0] == [];
      LinkedAppends(bars, book, [first], next, rest, ExecuteAll(engine, orders, book, bars, t, rawPrice));
      attempts := [first] + rest;
    }
  }

  lemma TradeLinks<S>(engine: Engine, strategy: Strategy<S>, bars: seq<Bar>, t: nat, run: Run<S>)
    returns (attempts: seq<Attempt>)
    requires t < |bars| && (t == 0 ==> run.pending == [])
    ensures var after := Trade(engine, strategy, bars, t, run);
            && Linked(bars, run.book, attempts, after.book)
            && run.attempted <= after.attempted && Tries(attempts, after.attempted[|run.attempted|..])
            && forall a :: a in attempts ==> a.bar == t
  {
    hide ExecuteAll, Visible, Settles, Linked;
    var opening := Open(run.book);
    var (state, orders) := strategy.onBar(run.strategy, Visible(engine, bars[..t + 1]), opening.View(), t);
    var after := Trade(engine, strategy, bars, t, run);
    if engine.execution == SameClose {
      attempts := ExecuteAllLinks(engine, orders, opening, bars, t, bars[t].close);
    } else if t > 0 {
      attempts := ExecuteAllLinks(engine, run.pending, opening, bars, t,
                                  if engine.execution == NextOpen then bars[t].open else bars[t].close);
    } else {
      attempts := [];
      OpeningLinks(bars, opening, opening);
    }
    OpeningLinks(bars, run.book, opening);
    LinkedAppends(bars, run.book, [], opening, attempts, after.book);
    assert [] + attempts == attempts;
  }

  lemma OpeningLinks(bars: seq<Bar>, book: Book, opening: Book)
    requires SameButSellable(book, opening)
    ensures Linked(bars, book, [], opening)
  {
  }

  // Of every run: the orders attempted, in order, lead from the opening book to the final
  // one, each leaving its own fill or rejection at its own bar, and nothing else does.
  lemma {:induction false} OrdersSettleInTurn<S>(engine: Engine, strategy: Strategy<S>, bars: seq<Bar>, k: nat)
    returns (attempts: seq<Attempt>)
    requires bars != [] && k <= |bars|
    ensures var run := RunTo(engine, strategy, bars, k);
            && Linked(bars, Start(engine, strategy, bars).book, attempts, run.book)
            && Tries(attempts, run.attempted) && (k == 0 ==> run.pending == [])
    ensures forall a :: a in attempts ==> a.bar < k
    ensures forall i, j :: 0 <= i < j < |attempts| ==> attempts[i].bar <= attempts[j].bar
    decreases k
  {
    hide Trade, Linked;
    if k == 0 {
      attempts := [];
      var book := Start(engine, strategy, bars).book;
      OpeningLinks(bars, book, book);
    } else {
      var run := RunTo(engine, strategy, bars, k - 1);
      var after := Trade(engine, strategy, bars, k - 1, run);
      var earlier := OrdersSettleInTurn(engine, strategy, bars, k - 1);
      var later := TradeLinks(engine, strategy, bars, k - 1, run);
      LinkedAppends(bars, Start(engine, strategy, bars).book, earlier, run.book, later, after.book);
      attempts := earlier + later;
    }
  }
}
