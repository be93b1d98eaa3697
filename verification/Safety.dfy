// What holds of every fill of every run: the market let it trade, it was priced by the
// policy in force, and cash covered it; and of every point of the equity curve.

module Safety {
  import opened BacktestTypes
  import opened Execution
  import opened Simulation
  import opened RoundTrips

  // ---- Fills are of tradable bars ---------------------------------------------------------

  // The price an execution policy trades at, before slippage.
  function RawPrice(engine: Engine, bar: Bar): real {
    if engine.execution == NextOpen then bar.open else bar.close
  }

  // The fill is one that bar t allowed: not suspended, not at the limit of its side around
  // the last close (the open, on the first bar), slipped against the trader, charged in
  // full, and for a buy a minimum lot and whole steps.
  ghost predicate Allowed(engine: Engine, bars: seq<Bar>, t: nat, f: Fill)
    requires t < |bars|
  {
    var raw := if engine.execution == NextOpen then bars[t].open else bars[t].close;
    var last := if t == 0 then bars[0].open else bars[t - 1].close;
    var slip := raw * (engine.slippageBps / 10000.0);
    && f.date == bars[t].date && !bars[t].suspended
    && (engine.execution != SameClose ==> t > 0)
    && f.price == (if f.side == Buy then raw + slip else raw - slip)
    && f.amount == f.shares as real * f.price && f.fees == engine.board.fee(f.side, f.amount, f.date)
    && (f.side == Buy ==>
          && raw < engine.board.limitUp(last, engine.isSt) - 0.000000001
          && f.shares >= engine.board.minLot && (f.shares - engine.board.minLot) % engine.board.lotStep == 0)
    && (f.side == Sell ==> raw > engine.board.limitDown(last, engine.isSt) + 0.000000001)
  }

  ghost predicate AllAllowed(engine: Engine, bars: seq<Bar>, k: nat, fills: seq<Fill>)
    requires k <= |bars|
  {
    forall f :: f in fills ==> exists t: nat :: t < k && Allowed(engine, bars, t, f)
  }

  lemma ExecuteIsAllowed(engine: Engine, order: Order, book: Book, bars: seq<Bar>, t: nat)
    requires t < |bars| && (engine.execution != SameClose ==> t > 0)
    requires AllAllowed(engine, bars, t + 1, book.fills)
    ensures AllAllowed(engine, bars, t + 1, Execute(engine, order, book, bars, t, RawPrice(engine, bars[t])).fills)
  {
    hide Affordable, Shrink, RoundLot;
    var after := Execute(engine, order, book, bars, t, RawPrice(engine, bars[t]));
    if after.fills != book.fills {
      var f := after.fills[|book.fills|];
      if order.side == Buy {
        BuySizing(engine.board, order, book, bars[t], f.price);
      }
      PriceIsAdverse(engine.slippageBps, f.side, RawPrice(engine, bars[t]));
      hide SlippedPrice, Amount, IsLargestFit;
      assert f.amount == Amount(f.shares, f.price) == f.shares as real * f.price;
      assert Allowed(engine, bars, t, f);
      assert after.fills == book.fills + [f];
    }
  }

  lemma PriceIsAdverse(slippageBps: real, side: Side, raw: real)
    ensures var slip := raw * (slippageBps / 10000.0);
            SlippedPrice(slippageBps, side, raw) == if side == Buy then raw + slip else raw - slip
  {
  }

  lemma {:induction false} ExecuteAllIsAllowed(engine: Engine, orders: seq<Order>, book: Book, bars: seq<Bar>, t: nat)
    requires t < |bars| && (engine.execution != SameClose ==> t > 0)
    requires AllAllowed(engine, bars, t + 1, book.fills)
    ensures AllAllowed(engine, bars, t + 1, ExecuteAll(engine, orders, book, bars, t, RawPrice(engine, bars[t])).fills)
    decreases |orders|
  {
    hide Execute, AllAllowed;
    if orders != [] {
      ExecuteIsAllowed(engine, orders[0], book, bars, t);
      ExecuteAllIsAllowed(engine, orders[1..], Execute(engine, orders[0], book, bars, t, RawPrice(engine, bars[t])),
          bars, t);
    }
  }

  // Of every run: each fill was made on a bar that allowed it. In particular nothing trades
  // on a suspended bar or, unless orders execute at the same close, on the first bar.
  lemma {:induction false} RunFillsAreAllowed<S>(engine: Engine, strategy: Strategy<S>, bars: seq<Bar>, k: nat)
    requires bars != [] && k <= |bars|
    ensures AllAllowed(engine, bars, k, RunTo(engine, strategy, bars, k).book.fills)
    decreases k
  {
    hide ExecuteAll, Visible, Allowed;
    if k > 0 {
      var t, run := k - 1, RunTo(engine, strategy, bars, k - 1);
      RunFillsAreAllowed(engine, strategy, bars, t);
      assert AllAllowed(engine, bars, k, run.book.fills);
      var opening := Open(run.book);
      var (state, orders) := strategy.onBar(run.strategy, Visible(engine, bars[..t + 1]), opening.View(), t);
      if engine.execution == SameClose {
        ExecuteAllIsAllowed(engine, orders, opening, bars, t);
      } else if t > 0 {
        ExecuteAllIsAllowed(engine, run.pending, opening, bars, t);
      }
    }
  }

  // ---- Average cost -------------------------------------------------------------------------

  // A sale leaves the average cost of what is kept as it was, and no basis when flat.
  lemma SaleKeepsAverageCost(board: Board, order: Order, book: Book, bar: Bar, price: real)
    requires book.shares > 0
    ensures var after := ExecuteSell(board, order, book, bar, price);
            if after.shares == 0 then after.costBasis == 0.0
            else after.View().avgCost == book.View().avgCost
  {
    hide Amount;
    var after := ExecuteSell(board, order, book, bar, price);
    if after.shares != 0 && after.fills != book.fills {
      KeepsAverage(book.costBasis, book.shares as real, after.shares as real, after.costBasis);
    }
  }

  lemma KeepsAverage(basis: real, held: real, kept: real, left: real)
    requires held > 0.0 && kept > 0.0 && left == basis - basis / held * (held - kept)
    ensures left / kept == basis / held
  {
    var avg := basis / held;
    assert avg * held == basis;
    assert left == avg * held - avg * (held - kept) == avg * kept;
  }

  // Shares held after some fills and what one of them cost on average: a buy mixes its price
  // in by weight, a sale changes nothing but the weight, and nothing held costs nothing.
  function Averaged(fills: seq<Fill>): (int, real) {
    if fills == [] then (0, 0.0)
    else
      var (held, average) := Averaged(fills[..|fills| - 1]);
      var f := fills[|fills| - 1];
      match f.side
      case Buy => (held + f.shares, Mixed(held, average, f.shares, f.price))
      case Sell => (held - f.shares, if held == f.shares then 0.0 else average)
  }

  // The weighted mean of two prices.
  function Mixed(m: int, a: real, n: int, b: real): real {
    if m + n == 0 then 0.0 else (m as real * a + n as real * b) / (m + n) as real
  }

  ghost predicate AverageKept(book: Book) {
    Averaged(book.fills) == (book.shares, book.View().avgCost) && (book.shares == 0 ==> book.costBasis == 0.0)
  }

  lemma LastAveraged(fills: seq<Fill>, f: Fill)
    ensures var (held, average) := Averaged(fills);
            Averaged(fills + [f]) == match f.side
                                     case Buy => (held + f.shares, Mixed(held, average, f.shares, f.price))
                                     case Sell => (held - f.shares, if held == f.shares then 0.0 else average)
  {
    assert (fills + [f])[..|fills|] == fills;
  }

  lemma BuyKeepsAverage(board: Board, order: Order, book: Book, bar: Bar, price: real)
    requires AverageKept(book)
    ensures AverageKept(ExecuteBuy(board, order, book, bar, price))
  {
    hide Shrink, RoundLot, Affordable, Averaged, Mixed;
    var after := ExecuteBuy(board, order, book, bar, price);
    if after.fills != book.fills {
      var f := after.fills[|book.fills|];
      LastAveraged(book.fills, f);
      MixedBasis(book.costBasis, book.shares, book.View().avgCost, f.shares, price);
    }
  }

  lemma MixedBasis(basis: real, held: nat, average: real, bought: Pos, price: real)
    requires average == if held > 0 then basis / held as real else 0.0
    requires held == 0 ==> basis == 0.0
    ensures Mixed(held, average, bought, price) == (basis + Amount(bought, price)) / (held + bought) as real
  {
    assert held as real * average == basis;
  }

  lemma SellKeepsAverage(board: Board, order: Order, book: Book, bar: Bar, price: real)
    requires AverageKept(book)
    ensures AverageKept(ExecuteSell(board, order, book, bar, price))
  {
    hide Averaged;
    var after := ExecuteSell(board, order, book, bar, price);
    if after.fills != book.fills {
      LastAveraged(book.fills, after.fills[|book.fills|]);
      SaleKeepsAverageCost(board, order, book, bar, price);
    }
  }

  lemma {:induction false} ExecuteAllKeepsAverage(
      engine: Engine, orders: seq<Order>, book: Book, bars: seq<Bar>, t: nat, rawPrice: real)
    requires t < |bars| && AverageKept(book)
    ensures AverageKept(ExecuteAll(engine, orders, book, bars, t, rawPrice))
    decreases |orders|
  {
    hide ExecuteBuy, ExecuteSell, SlippedPrice, Averaged;
    if orders != [] {
      var price := SlippedPrice(engine.slippageBps, orders[0].side, rawPrice);
      BuyKeepsAverage(engine.board, orders[0], book, bars[t], price);
      SellKeepsAverage(engine.board, orders[0], book, bars[t], price);
      var next := Execute(engine, orders[0], book, bars, t, rawPrice);
      ExecuteAllKeepsAverage(engine, orders[1..], next, bars, t, rawPrice);
    }
  }

  // Of every run: the position and the average cost a strategy is shown are those of the
  // fills so far.
  lemma {:induction false} RunAveragesCost<S>(engine: Engine, strategy: Strategy<S>, bars: seq<Bar>, k: nat)
    requires bars != [] && k <= |bars|
    ensures AverageKept(RunTo(engine, strategy, bars, k).book)
    decreases k
  {
    hide ExecuteAll, Visible, Averaged;
    if k == 0 {
      NothingAveraged();
    } else {
      var t, run := k - 1, RunTo(engine, strategy, bars, k - 1);
      RunAveragesCost(engine, strategy, bars, t);
      var opening := Open(run.book);
      var (state, orders) := strategy.onBar(run.strategy, Visible(engine, bars[..t + 1]), opening.View(), t);
      ExecuteAllKeepsAverage(engine, run.pending, opening, bars, t, bars[t].open);
      ExecuteAllKeepsAverage(engine, run.pending, opening, bars, t, bars[t].close);
      ExecuteAllKeepsAverage(engine, orders, opening, bars, t, bars[t].close);
    }
  }

  lemma NothingAveraged()
    ensures Averaged([]) == (0, 0.0)
  {
  }

  // ---- Cash ---------------------------------------------------------------------------------

  // Every sale brings in at least its fees.
  ghost predicate SalesCovered(fills: seq<Fill>) {
    forall f :: f in fills && f.side == Sell ==> f.fees <= f.amount
  }

  ghost predicate NeverOverdrawn(book: Book) {
    book.cash >= -EPS && forall f :: f in book.fills ==> f.cashAfter >= -EPS
  }

  // Whatever the cash was before, it covers a buy that fills.
  lemma {:induction false} ShrinkFits(board: Board, shares: nat, price: real, cash: real, date: int)
    ensures var fit := Shrink(board, shares, price, cash, date); fit == 0 || Fits(board, fit, price, cash, date)
  {
    if !Fits(board, shares, price, cash, date) && shares >= board.minLot + board.lotStep {
      ShrinkFits(board, shares - board.lotStep, price, cash, date);
    }
  }

  lemma ExecuteKeepsFloor(engine: Engine, order: Order, book: Book, bars: seq<Bar>, t: nat, rawPrice: real)
    requires t < |bars| && NeverOverdrawn(book)
    requires SalesCovered(Execute(engine, order, book, bars, t, rawPrice).fills)
    ensures NeverOverdrawn(Execute(engine, order, book, bars, t, rawPrice))
  {
    hide Shrink, RoundLot, Affordable, Amount, SlippedPrice;
    var after := Execute(engine, order, book, bars, t, rawPrice);
    if after.fills != book.fills {
      var f := after.fills[|book.fills|];
      assert f in after.fills;
      var price := SlippedPrice(engine.slippageBps, order.side, rawPrice);
      ShrinkFits(engine.board, RoundLot(engine.board, Wanted(order, book.cash, price)), price, book.cash, bars[t].date);
    }
  }

  lemma {:induction false} ExecuteAllKeepsFloor(
      engine: Engine, orders: seq<Order>, book: Book, bars: seq<Bar>, t: nat, rawPrice: real)
    requires t < |bars| && NeverOverdrawn(book)
    requires SalesCovered(ExecuteAll(engine, orders, book, bars, t, rawPrice).fills)
    ensures NeverOverdrawn(ExecuteAll(engine, orders, book, bars, t, rawPrice))
    decreases |orders|
  {
    hide Execute, NeverOverdrawn;
    if orders != [] {
      var next := Execute(engine, orders[0], book, bars, t, rawPrice);
      ExecuteAllExtends(engine, orders[1..], next, bars, t, rawPrice);
      assert forall f :: f in next.fills ==> f in ExecuteAll(engine, orders, book, bars, t, rawPrice).fills;
      ExecuteKeepsFloor(engine, orders[0], book, bars, t, rawPrice);
      ExecuteAllKeepsFloor(engine, orders[1..], next, bars, t, rawPrice);
    }
  }

  lemma TradeKeepsFloor<S>(engine: Engine, strategy: Strategy<S>, bars: seq<Bar>, t: nat, run: Run<S>)
    requires t < |bars| && NeverOverdrawn(run.book)
    requires SalesCovered(Trade(engine, strategy, bars, t, run).book.fills)
    ensures NeverOverdrawn(Trade(engine, strategy, bars, t, run).book)
  {
    hide ExecuteAll, Visible, SalesCovered;
    var opening := Open(run.book);
    var (state, orders) := strategy.onBar(run.strategy, Visible(engine, bars[..t + 1]), opening.View(), t);
    match engine.execution {
      case NextOpen =>
        if t > 0 {
          ExecuteAllKeepsFloor(engine, run.pending, opening, bars, t, bars[t].open);
        }
      case NextClose =>
        if t > 0 {
          ExecuteAllKeepsFloor(engine, run.pending, opening, bars, t, bars[t].close);
        }
      case SameClose =>
        ExecuteAllKeepsFloor(engine, orders, opening, bars, t, bars[t].close);
    }
  }

  // A run is never overdrawn, at any fill or at its end, while every sale covers its fees.
  lemma {:induction false} RunKeepsFloor<S>(engine: Engine, strategy: Strategy<S>, bars: seq<Bar>, k: nat)
    requires bars != [] && k <= |bars| && engine.initialCash >= 0.0
    requires SalesCovered(RunTo(engine, strategy, bars, k).book.fills)
    ensures NeverOverdrawn(RunTo(engine, strategy, bars, k).book)
    decreases k
  {
    hide Trade, NeverOverdrawn;
    if k == 0 {
      assert NeverOverdrawn(BookRecord(engine.initialCash, 0, 0, 0.0, 0.0, [], [])) by {
        StartsAtFloor(engine.initialCash);
      }
    } else {
      var run := RunTo(engine, strategy, bars, k - 1);
      var after := Trade(engine, strategy, bars, k - 1, run);
      TradeExtends(engine, strategy, bars, k - 1, run);
      assert forall f :: f in run.book.fills ==> f in after.book.fills;
      RunKeepsFloor(engine, strategy, bars, k - 1);
      TradeKeepsFloor(engine, strategy, bars, k - 1, run);
    }
  }

  lemma StartsAtFloor(cash: real)
    requires cash >= 0.0
    ensures NeverOverdrawn(BookRecord(cash, 0, 0, 0.0, 0.0, [], []))
  {
  }

  // ---- The ledger and the equity curve ------------------------------------------------------

  // What fills of one side brought or took, fees apart.
  function Traded(fills: seq<Fill>, side: Side): real {
    if fills == [] then 0.0
    else
      var last := fills[|fills| - 1];
      Traded(fills[..|fills| - 1], side) + if last.side == side then last.amount else 0.0
  }

  ghost predicate Booked(book: Book, initial: real) {
    book.cash == initial - Traded(book.fills, Buy) + Traded(book.fills, Sell) - Fees(book.fills)
  }

  lemma LastTraded(fills: seq<Fill>, f: Fill)
    ensures forall side :: Traded(fills + [f], side) == Traded(fills, side) + if f.side == side then f.amount else 0.0
    ensures Fees(fills + [f]) == Fees(fills) + f.fees
  {
    assert (fills + [f])[..|fills|] == fills;
  }

  lemma BuyKeepsLedger(board: Board, order: Order, book: Book, bar: Bar, price: real, initial: real)
    requires Booked(book, initial)
    ensures Booked(ExecuteBuy(board, order, book, bar, price), initial)
  {
    hide Shrink, RoundLot, Affordable, Amount, Traded, Fees;
    var after := ExecuteBuy(board, order, book, bar, price);
    if after.fills != book.fills {
      LastTraded(book.fills, after.fills[|book.fills|]);
    }
  }

  lemma SellKeepsLedger(board: Board, order: Order, book: Book, bar: Bar, price: real, initial: real)
    requires Booked(book, initial)
    ensures Booked(ExecuteSell(board, order, book, bar, price), initial)
  {
    hide Amount, BasisAfterSale, Traded, Fees;
    var after := ExecuteSell(board, order, book, bar, price);
    if after.fills != book.fills {
      LastTraded(book.fills, after.fills[|book.fills|]);
    }
  }

  lemma ExecuteKeepsLedger(
      engine: Engine, order: Order, book: Book, bars: seq<Bar>, t: nat, rawPrice: real, initial: real)
    requires t < |bars| && Booked(book, initial)
    ensures Booked(Execute(engine, order, book, bars, t, rawPrice), initial)
  {
    hide ExecuteBuy, ExecuteSell, SlippedPrice, Traded, Fees;
    var price := SlippedPrice(engine.slippageBps, order.side, rawPrice);
    BuyKeepsLedger(engine.board, order, book, bars[t], price, initial);
    SellKeepsLedger(engine.board, order, book, bars[t], price, initial);
  }

  lemma {:induction false} ExecuteAllKeepsLedger(
      engine: Engine, orders: seq<Order>, book: Book, bars: seq<Bar>, t: nat, rawPrice: real, initial: real)
    requires t < |bars| && Booked(book, initial)
    ensures Booked(ExecuteAll(engine, orders, book, bars, t, rawPrice), initial)
    decreases |orders|
  {
    hide Execute, Booked;
    if orders != [] {
      ExecuteKeepsLedger(engine, orders[0], book, bars, t, rawPrice, initial);
      ExecuteAllKeepsLedger(engine, orders[1..], Execute(engine, orders[0], book, bars, t, rawPrice), bars, t,
          rawPrice, initial);
    }
  }

  // The cash of a run is what it began with, less what was bought, plus what was sold, less
  // every fee.
  lemma {:induction false} RunKeepsLedger<S>(engine: Engine, strategy: Strategy<S>, bars: seq<Bar>, k: nat)
    requires bars != [] && k <= |bars|
    ensures Booked(RunTo(engine, strategy, bars, k).book, engine.initialCash)
    decreases k
  {
    hide ExecuteAll, Visible;
    if k > 0 {
      var t, run := k - 1, RunTo(engine, strategy, bars, k - 1);
      RunKeepsLedger(engine, strategy, bars, t);
      var opening := Open(run.book);
      var (state, orders) := strategy.onBar(run.strategy, Visible(engine, bars[..t + 1]), opening.View(), t);
      ExecuteAllKeepsLedger(engine, run.pending, opening, bars, t, bars[t].open, engine.initialCash);
      ExecuteAllKeepsLedger(engine, run.pending, opening, bars, t, bars[t].close, engine.initialCash);
      ExecuteAllKeepsLedger(engine, orders, opening, bars, t, bars[t].close, engine.initialCash);
    }
  }

  // The close a position is marked at on bar i: that of the last bar so far not suspended,
  // the first bar's when all were.
  ghost predicate LastGoodClose(bars: seq<Bar>, i: nat, close: real)
    requires i < |bars|
  {
    || (exists j :: && 0 <= j <= i && !bars[j].suspended && close == bars[j].close
                    && forall m :: j < m <= i ==> bars[m].suspended)
    || (close == bars[0].close && forall m :: 0 <= m <= i ==> bars[m].suspended)
  }

  ghost predicate Marked(bars: seq<Bar>, points: seq<EquityPoint>, lastClose: real)
    requires bars != []
  {
    && |points| <= |bars|
    && (forall i :: 0 <= i < |points| ==> points[i].date == bars[i].date && LastGoodClose(bars, i, points[i].close))
    && lastClose == if points == [] then bars[0].close else points[|points| - 1].close
  }

  // One equity point a bar, in order, each marked at the last good close.
  lemma {:induction false} MarkedAtLastGoodClose<S>(engine: Engine, strategy: Strategy<S>, bars: seq<Bar>, k: nat)
    requires bars != [] && k <= |bars|
    ensures var run := RunTo(engine, strategy, bars, k); |run.equity| == k && Marked(bars, run.equity, run.lastClose)
    decreases k
  {
    hide Trade, Marked, Amount;
    if k == 0 {
      NothingMarked(bars);
    } else {
      var t, run := k - 1, RunTo(engine, strategy, bars, k - 1);
      MarkedAtLastGoodClose(engine, strategy, bars, t);
      TradeExtends(engine, strategy, bars, t, run);
      TradeKeepsLastClose(engine, strategy, bars, t, run);
      MarkOneMore(bars, run.equity, run.lastClose, RunTo(engine, strategy, bars, k).equity[t]);
    }
  }

  lemma NothingMarked(bars: seq<Bar>)
    requires bars != []
    ensures Marked(bars, [], bars[0].close)
  {
  }

  lemma MarkOneMore(bars: seq<Bar>, points: seq<EquityPoint>, lastClose: real, point: EquityPoint)
    requires bars != [] && |points| < |bars| && Marked(bars, points, lastClose)
    requires var bar := bars[|points|];
             point.date == bar.date && point.close == if bar.suspended then lastClose else bar.close
    ensures Marked(bars, points + [point], point.close)
  {
    var i := |points|;
    assert LastGoodClose(bars, i, point.close) by {
      if bars[i].suspended && i > 0 {
        assert LastGoodClose(bars, i - 1, lastClose);
      }
    }
  }

  ghost predicate Solvent(p: EquityPoint) {
    p.cash >= -EPS && p.marketValue >= 0.0 && p.equity == p.cash + p.marketValue >= -EPS
  }

  // With no negative close and every sale covered, cash, position value and their sum stay
  // above the floor at every point of the curve.
  lemma {:induction false} CoveredRunIsSolvent<S>(engine: Engine, strategy: Strategy<S>, bars: seq<Bar>, k: nat)
    requires bars != [] && k <= |bars| && engine.initialCash >= 0.0
    requires forall b :: b in bars ==> b.close >= 0.0
    requires SalesCovered(RunTo(engine, strategy, bars, k).book.fills)
    ensures var run := RunTo(engine, strategy, bars, k);
            run.lastClose >= 0.0 && forall p :: p in run.equity ==> Solvent(p)
    decreases k
  {
    hide Trade, Amount;
    if k > 0 {
      var run := RunTo(engine, strategy, bars, k - 1);
      var after := Trade(engine, strategy, bars, k - 1, run);
      TradeExtends(engine, strategy, bars, k - 1, run);
      assert forall f :: f in run.book.fills ==> f in after.book.fills;
      CoveredRunIsSolvent(engine, strategy, bars, k - 1);
      RunKeepsFloor(engine, strategy, bars, k);
      TradeKeepsLastClose(engine, strategy, bars, k - 1, run);
      assert bars[k - 1] in bars;
      var close := if bars[k - 1].suspended then run.lastClose else bars[k - 1].close;
      ValueNonNegative(after.book.shares, close);
    }
  }

  lemma TradeKeepsLastClose<S>(engine: Engine, strategy: Strategy<S>, bars: seq<Bar>, t: nat, run: Run<S>)
    requires t < |bars|
    ensures Trade(engine, strategy, bars, t, run).lastClose == run.lastClose
  {
  }

  lemma ValueNonNegative(shares: nat, close: real)
    requires close >= 0.0
    ensures Amount(shares, close) >= 0.0
  {
  }
}
