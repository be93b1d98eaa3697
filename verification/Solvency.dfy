// Which boards keep every run solvent. On a board with tick-rounded limits whose fees take
// more than some sale brings in, a run can end with negative cash and negative equity; on
// any other no run does.

module Solvency {
  import opened BacktestTypes
  import opened Execution
  import opened Simulation
  import opened Safety
  import opened TradingRules
  import opened Wrappers
  import opened Reals

  type FeeSchedule = (Side, real, int) -> real

  // What the engine is built and run with: cash, dated bars with positive prices, and
  // slippage below the whole price.
  ghost predicate Market(engine: Engine, bars: seq<Bar>) {
    && engine.initialCash > 0.0 && engine.slippageBps < 10000.0
    && bars != [] && StrictDates(bars) && forall b :: b in bars ==> b.open > 0.0 && b.close > 0.0
  }

  ghost predicate RunsOn(board: Board, engine: Engine, bars: seq<Bar>, k: nat) {
    Market(engine, bars) && engine.board == board && k <= |bars|
  }

  // No sale costs more than it brings in.
  ghost predicate Payable(fee: FeeSchedule) {
    forall amount, date :: amount > 0.0 ==> fee(Sell, amount, date) <= amount
  }

  ghost predicate CashIsSafe<S>(engine: Engine, strategy: Strategy<S>, bars: seq<Bar>, k: nat)
    requires bars != [] && k <= |bars|
  {
    NeverOverdrawn(RunTo(engine, strategy, bars, k).book)
  }

  ghost predicate EquityIsSafe<S>(engine: Engine, strategy: Strategy<S>, bars: seq<Bar>, k: nat)
    requires bars != [] && k <= |bars|
  {
    forall p :: p in RunTo(engine, strategy, bars, k).equity ==> Solvent(p)
  }

  // ---- Payable schedules keep every run solvent ---------------------------------------------

  lemma SalesAreCovered<S>(engine: Engine, strategy: Strategy<S>, bars: seq<Bar>, k: nat)
    requires Market(engine, bars) && k <= |bars| && Payable(engine.board.fee)
    ensures SalesCovered(RunTo(engine, strategy, bars, k).book.fills)
  {
    hide RunTo, Amount, SlippedPrice;
    RunFillsAreAllowed(engine, strategy, bars, k);
    var fills := RunTo(engine, strategy, bars, k).book.fills;
    forall f | f in fills && f.side == Sell ensures f.fees <= f.amount {
      var t: nat :| t < k && Allowed(engine, bars, t, f);
      assert bars[t] in bars;
      SaleBringsCash(engine.slippageBps / 10000.0, RawPrice(engine, bars[t]), f.shares, f.price);
    }
  }

  lemma SaleBringsCash(slip: real, rawPrice: real, shares: Pos, price: real)
    requires slip < 1.0 && rawPrice > 0.0 && price == rawPrice - rawPrice * slip
    ensures shares as real * price > 0.0
  {
    PositiveProduct(rawPrice, 1.0 - slip);
    assert price > 0.0;
  }

  // Long-only cash and equity are never negative: of every run under a payable schedule.
  lemma EquityNeverNegative<S>(engine: Engine, strategy: Strategy<S>, bars: seq<Bar>, k: nat)
    requires Market(engine, bars) && k <= |bars| && Payable(engine.board.fee)
    ensures CashIsSafe(engine, strategy, bars, k) && EquityIsSafe(engine, strategy, bars, k)
  {
    hide RunTo, NeverOverdrawn, Solvent, SalesCovered;
    SalesAreCovered(engine, strategy, bars, k);
    RunKeepsFloor(engine, strategy, bars, k);
    CoveredRunIsSolvent(engine, strategy, bars, k);
  }

  // ---- A round trip in three bars -------------------------------------------------------------

  // Buys on seeing the first bar and sells on seeing the second.
  function BuyThenSell<S>(state: S, bought: nat, sold: nat): Strategy<S> {
    Strategy(state, (s: S, visible: seq<Bar>, snapshot: Snapshot, t: nat) =>
      (s, if t == 0 then [Order(Buy, Shares(bought), "")] else if t == 1 then [Order(Sell, Shares(sold), "")] else []))
  }

  lemma BuysExactly(board: Board, shares: Pos, book: Book, bar: Bar, price: real)
    requires ValidLot(board, shares) && Fits(board, shares, price, book.cash, bar.date)
    ensures var after := ExecuteBuy(board, Order(Buy, Shares(shares), ""), book, bar, price);
            var amount := Amount(shares, price);
            && after.shares == book.shares + shares
            && after.cash == book.cash - (amount + board.fee(Buy, amount, bar.date))
  {
    RoundLotIsLargest(board, shares);
    hide Amount;
  }

  // The three bars trade at their opens, one after the other, the last two within limits.
  ghost predicate Tradable(engine: Engine, bars: seq<Bar>) {
    && |bars| == 3 && engine.execution == NextOpen
    && !bars[1].suspended && bars[1].open < engine.board.limitUp(bars[0].close, engine.isSt) - EPS
    && !bars[2].suspended && bars[2].open > engine.board.limitDown(bars[1].close, engine.isSt) + EPS
  }

  function Bought(engine: Engine, bars: seq<Bar>, shares: nat): real
    requires |bars| == 3
  {
    Amount(shares, SlippedPrice(engine.slippageBps, Buy, bars[1].open))
  }

  function Brought(engine: Engine, bars: seq<Bar>, shares: nat): real
    requires |bars| == 3
  {
    Amount(shares, SlippedPrice(engine.slippageBps, Sell, bars[2].open))
  }

  // What the trip leaves: cash less the purchase and its fees, plus the sale less its.
  function CashAfter(engine: Engine, bars: seq<Bar>, bought: nat, sold: nat): real
    requires |bars| == 3
  {
    var cost, gain := Bought(engine, bars, bought), Brought(engine, bars, sold);
    engine.initialCash - (cost + engine.board.fee(Buy, cost, bars[1].date))
    + (gain - engine.board.fee(Sell, gain, bars[2].date))
  }

  lemma ExecuteOneOrder<S>(engine: Engine, strategy: Strategy<S>, bars: seq<Bar>, t: nat, run: Run<S>)
    requires 0 < t < |bars| && engine.execution == NextOpen && |run.pending| == 1
    ensures Trade(engine, strategy, bars, t, run).book
         == Execute(engine, run.pending[0], Open(run.book), bars, t, bars[t].open)
  {
    hide Execute, Visible;
    assert ExecuteAll(engine, run.pending[1..], Execute(engine, run.pending[0], Open(run.book), bars, t, bars[t].open),
                      bars, t, bars[t].open)
        == Execute(engine, run.pending[0], Open(run.book), bars, t, bars[t].open);
  }

  lemma PendingIs<S>(engine: Engine, state: S, bought: nat, sold: nat, bars: seq<Bar>, t: nat, run: Run<S>)
    requires t < |bars| && engine.execution == NextOpen && run.strategy == state
    ensures var after := Trade(engine, BuyThenSell(state, bought, sold), bars, t, run);
            && after.strategy == state
            && after.pending == (if t == 0 then [Order(Buy, Shares(bought), "")]
                                 else if t == 1 then [Order(Sell, Shares(sold), "")] else [])
            && (t == 0 ==> after.book == Open(run.book))
  {
    hide ExecuteAll, Visible;
  }

  lemma BuyFills(engine: Engine, bars: seq<Bar>, shares: Pos, book: Book)
    requires Tradable(engine, bars) && ValidLot(engine.board, shares)
    requires Fits(engine.board, shares, SlippedPrice(engine.slippageBps, Buy, bars[1].open), book.cash, bars[1].date)
    ensures var cost := Bought(engine, bars, shares);
            var after := Execute(engine, Order(Buy, Shares(shares), ""), book, bars, 1, bars[1].open);
            && after.shares == book.shares + shares
            && after.cash == book.cash - (cost + engine.board.fee(Buy, cost, bars[1].date))
  {
    hide Amount, ValidLot, Fits, ExecuteBuy, SlippedPrice;
    BuysExactly(engine.board, shares, book, bars[1], SlippedPrice(engine.slippageBps, Buy, bars[1].open));
  }

  lemma SellFills(engine: Engine, bars: seq<Bar>, shares: Pos, book: Book)
    requires Tradable(engine, bars) && shares <= book.sellable == book.shares
    ensures var gain := Brought(engine, bars, shares);
            var after := Execute(engine, Order(Sell, Shares(shares), ""), book, bars, 2, bars[2].open);
            && after.shares == book.shares - shares
            && after.cash == book.cash + (gain - engine.board.fee(Sell, gain, bars[2].date))
  {
    hide Amount, SlippedPrice, BasisAfterSale;
  }

  lemma RoundTripRun<S>(engine: Engine, state: S, bars: seq<Bar>, bought: Pos, sold: Pos)
    requires Tradable(engine, bars) && ValidLot(engine.board, bought) && sold <= bought
    requires Fits(engine.board, bought, SlippedPrice(engine.slippageBps, Buy, bars[1].open), engine.initialCash,
                  bars[1].date)
    ensures var run := RunTo(engine, BuyThenSell(state, bought, sold), bars, 3);
            var cash := CashAfter(engine, bars, bought, sold);
            && run.book.cash == cash && run.book.shares == bought - sold
            && |run.equity| == 3 && run.equity[2].cash == cash
            && run.equity[2].equity == cash + Amount(bought - sold, bars[2].close)
  {
    hide Execute, Trade, Amount, Fits, ValidLot, Bought, Brought, SlippedPrice;
    var strategy := BuyThenSell(state, bought, sold);
    var run0, run1 := RunTo(engine, strategy, bars, 0), RunTo(engine, strategy, bars, 1);
    var run2 := RunTo(engine, strategy, bars, 2);
    assert run0.strategy == state by {
      assert BuyThenSell(state, bought, sold).init == state;
    }
    PendingIs(engine, state, bought, sold, bars, 0, run0);
    PendingIs(engine, state, bought, sold, bars, 1, run1);
    ExecuteOneOrder(engine, strategy, bars, 1, run1);
    ExecuteOneOrder(engine, strategy, bars, 2, run2);
    BuyFills(engine, bars, bought, Open(run1.book));
    SellFills(engine, bars, sold, Open(run2.book));
    MarkedAtLastGoodClose(engine, strategy, bars, 3);
  }

  // ---- A sale that does not pay sinks some run ----------------------------------------------------

  lemma RoundsUp(x: real)
    requires x >= 2.0
    ensures Round2(x) >= 2.0
  {
    assert x * 100.0 + 0.5 >= 200.0;
  }

  lemma RoundsAway(x: real)
    requires x <= 0.001
    ensures Round2(x) <= 0.0
  {
    var y := x * 100.0;
    if y >= 0.0 {
      assert (y + 0.5).Floor == 0;
    } else {
      assert (0.5 - y).Floor >= 0;
    }
  }

  // What one share is quoted at, and the slippage, for its sale to bring in `amount`. Only
  // a quote at or under the slack of the limit gate needs slippage.
  function Quote(amount: real): (q: (real, real))
    requires amount > 0.0
    ensures q.0 > EPS && 0.0 <= q.1 < 10000.0
    ensures SlippedPrice(q.1, Sell, q.0) == amount
  {
    if amount > EPS then (amount, 0.0) else (1.0, 10000.0 * (1.0 - amount))
  }

  // Buy the least lot at 1 after a close of 2, fall to 0.001, sell one share for `amount`
  // at fees of `amount + loss`, and close so low that the rest is not worth the loss.
  function SinkingBars(board: Board, amount: real, loss: real, date: int): (bars: seq<Bar>)
    requires amount > 0.0 && loss > 0.0
    ensures |bars| == 3
  {
    var rest := loss / board.minLot as real;
    [Bar(date - 2, 2.0, 2.0, 2.0, 2.0, 0.0, None, false), Bar(date - 1, 1.0, 0.001, 1.0, 0.001, 0.0, None, false),
     Bar(date, Quote(amount).0, rest, Quote(amount).0, rest, 0.0, None, false)]
  }

  // An account that can just buy the lot.
  function SinkingEngine(board: Board, amount: real, date: int, isSt: bool): Engine
    requires amount > 0.0
  {
    var cost := Amount(board.minLot, SlippedPrice(Quote(amount).1, Buy, 1.0));
    Engine(board, cost + board.fee(Buy, cost, date - 1) - EPS, NextOpen, Raw, [], Quote(amount).1, isSt)
  }

  // Fees never pay the trader.
  ghost predicate Charges(fee: FeeSchedule) {
    forall side, amount, date :: amount > 0.0 ==> fee(side, amount, date) >= 0.0
  }

  lemma SinkingCost(shares: Pos, slippageBps: real)
    requires slippageBps >= 0.0
    ensures Amount(shares, SlippedPrice(slippageBps, Buy, 1.0)) >= 1.0
  {
    var price := SlippedPrice(slippageBps, Buy, 1.0);
    assert price >= 1.0;
    assert (shares as real - 1.0) * price >= 0.0;
    assert shares as real * price == price + (shares as real - 1.0) * price;
  }

  lemma SinkingIsTradable(rule: BoardRule, fee: FeeSchedule, amount: real, date: int, isSt: bool)
    requires rule.Pct(isSt) >= 0.0 && Charges(fee) && amount > 0.0 && fee(Sell, amount, date) > amount
    ensures var board := BoardWith(rule, fee);
            var engine, bars := SinkingEngine(board, amount, date, isSt),
                                SinkingBars(board, amount, fee(Sell, amount, date) - amount, date);
            && Market(engine, bars) && Tradable(engine, bars) && ValidLot(board, board.minLot)
            && Fits(board, board.minLot, SlippedPrice(engine.slippageBps, Buy, 1.0), engine.initialCash, date - 1)
  {
    hide Round2, Quote, SlippedPrice, Amount;
    var pct := rule.Pct(isSt);
    SinkingCost(rule.minLot, Quote(amount).1);
    LimitsAllow(pct);
    assert (fee(Sell, amount, date) - amount) / rule.minLot as real > 0.0;
  }

  lemma LimitsAllow(pct: real)
    requires pct >= 0.0
    ensures Round2(2.0 * (1.0 + pct)) >= 2.0 && Round2(0.001 * (1.0 - pct)) <= 0.0
  {
    RoundsUp(2.0 * (1.0 + pct));
    RoundsAway(0.001 * (1.0 - pct));
  }

  lemma OneShare(price: real)
    ensures Amount(1, price) == price
  {
  }

  // What is kept is not worth the loss.
  lemma RestIsSmall(lot: Pos, loss: real)
    requires loss > 0.0
    ensures Amount(lot - 1, loss / lot as real) < loss
  {
    var n, each := lot as real, loss / lot as real;
    assert n * each == loss && each > 0.0;
    assert (n - 1.0) * each == n * each - each;
  }

  lemma UnpayableSinks<S>(rule: BoardRule, fee: FeeSchedule, amount: real, date: int, isSt: bool, state: S)
    requires rule.Pct(isSt) >= 0.0 && Charges(fee) && amount > 0.0 && fee(Sell, amount, date) > amount
    ensures var board := BoardWith(rule, fee);
            var engine, bars := SinkingEngine(board, amount, date, isSt),
                                SinkingBars(board, amount, fee(Sell, amount, date) - amount, date);
            && RunsOn(board, engine, bars, 3)
            && !CashIsSafe(engine, BuyThenSell(state, rule.minLot, 1), bars, 3)
            && !EquityIsSafe(engine, BuyThenSell(state, rule.minLot, 1), bars, 3)
  {
    hide RunTo, Quote, SlippedPrice, Amount, Tradable, Fits, Market;
    var board, loss := BoardWith(rule, fee), fee(Sell, amount, date) - amount;
    var engine, bars := SinkingEngine(board, amount, date, isSt), SinkingBars(board, amount, loss, date);
    SinkingIsTradable(rule, fee, amount, date, isSt);
    RoundTripRun(engine, state, bars, rule.minLot, 1);
    OneShare(amount);
    RestIsSmall(rule.minLot, loss);
    var run := RunTo(engine, BuyThenSell(state, rule.minLot, 1), bars, 3);
    assert run.book.cash == -EPS - loss;
    assert run.equity[2] in run.equity;
  }

  lemma Unpayable(fee: FeeSchedule) returns (amount: real, date: int)
    requires !Payable(fee)
    ensures amount > 0.0 && fee(Sell, amount, date) > amount
  {
    amount, date :| amount > 0.0 && !(fee(Sell, amount, date) <= amount);
  }

  // On any board with tick-rounded limits, whatever its lots and limits, the cash, and
  // likewise the equity, of every run stays above the floor exactly when no sale costs more
  // than it brings in.
  lemma SafeIffPayable<S(!new)>(rule: BoardRule, fee: FeeSchedule, state: S)
    requires rule.limitPct >= 0.0 && Charges(fee)
    ensures (forall engine, strategy: Strategy<S>, bars, k: nat ::
               RunsOn(BoardWith(rule, fee), engine, bars, k) ==> CashIsSafe(engine, strategy, bars, k))
            <==> Payable(fee)
    ensures (forall engine, strategy: Strategy<S>, bars, k: nat ::
               RunsOn(BoardWith(rule, fee), engine, bars, k) ==> EquityIsSafe(engine, strategy, bars, k))
            <==> Payable(fee)
  {
    hide CashIsSafe, EquityIsSafe, Payable;
    var board := BoardWith(rule, fee);
    if Payable(fee) {
      forall engine, strategy: Strategy<S>, bars, k: nat | RunsOn(board, engine, bars, k)
        ensures CashIsSafe(engine, strategy, bars, k) && EquityIsSafe(engine, strategy, bars, k)
      {
        EquityNeverNegative(engine, strategy, bars, k);
      }
    } else {
      var amount, date := Unpayable(fee);
      var engine := SinkingEngine(board, amount, date, false);
      var bars := SinkingBars(board, amount, fee(Sell, amount, date) - amount, date);
      var strategy := BuyThenSell(state, rule.minLot, 1);
      UnpayableSinks(rule, fee, amount, date, false, state);
      assert RunsOn(board, engine, bars, 3);
      assert !CashIsSafe(engine, strategy, bars, 3) && !EquityIsSafe(engine, strategy, bars, 3);
    }
  }

  // ---- Boards and schedules of the rules file -----------------------------------------------------

  lemma PayableIffProportionate(rule: BoardRule, fees: seq<FeeRule>)
    ensures Payable(FeesOf(rule, fees)) <==> forall date :: Proportionate(fees, Some(rule.market), date)
  {
    hide Proportionate, TradeCost;
    var market := Some(rule.market);
    forall date {
      SalesPayIff(fees, market, date);
    }
    var fee := FeesOf(rule, fees);
    assert forall amount, date :: fee(Sell, amount, date) == TradeCost(fees, Sell, amount, market, date);
    if Payable(fee) {
      forall date ensures Proportionate(fees, market, date) {
        forall amount | amount > 0.0 ensures TradeCost(fees, Sell, amount, market, date) <= amount {
          assert fee(Sell, amount, date) <= amount;
        }
      }
    } else {
      var amount, date := Unpayable(fee);
      assert TradeCost(fees, Sell, amount, market, date) > amount;
      assert !Proportionate(fees, market, date);
    }
  }

  lemma SchedulesCharge(rule: BoardRule, fees: seq<FeeRule>)
    ensures Charges(FeesOf(rule, fees))
  {
    hide TradeCost;
    forall side, amount: real, date | amount > 0.0 ensures FeesOf(rule, fees)(side, amount, date) >= 0.0 {
      CostNonNegative(fees, side, amount, Some(rule.market), date);
    }
  }

  // For every board and fee schedule a rules file can hold: all runs on it are safe exactly
  // when on no date a fee on sales has a positive minimum or the rates on sales exceed one.
  lemma SafeIffProportionate<S(!new)>(rule: BoardRule, fees: seq<FeeRule>, state: S)
    requires rule.limitPct >= 0.0
    ensures (forall engine, strategy: Strategy<S>, bars, k: nat ::
               RunsOn(BoardWith(rule, FeesOf(rule, fees)), engine, bars, k) ==>
                 CashIsSafe(engine, strategy, bars, k) && EquityIsSafe(engine, strategy, bars, k))
            <==> forall date :: Proportionate(fees, Some(rule.market), date)
  {
    hide CashIsSafe, EquityIsSafe, Payable, Proportionate, FeesOf, RunsOn, Charges;
    SchedulesCharge(rule, fees);
    PayableIffProportionate(rule, fees);
    SafeIffPayable(rule, FeesOf(rule, fees), state);
  }

  // ---- The rules that ship ------------------------------------------------------------------------

  function ShippedEngine(cash: real): Engine {
    Engine(BoardWith(ShanghaiMain(), FeesOf(ShanghaiMain(), ShippedFees())), cash, NextOpen, Raw, [], 0.0, false)
  }

  // Three days from the day the minimum commission took effect, at a few cents a share.
  function PennyBars(): (bars: seq<Bar>)
    ensures |bars| == 3
  {
    var d := COMMISSION_2024;
    [Bar(d, 0.04, 0.04, 0.04, 0.04, 0.0, None, false), Bar(d + 1, 0.02, 0.01, 0.02, 0.01, 0.0, None, false),
     Bar(d + 2, 0.02, 0.02, 0.02, 0.02, 0.0, None, false)]
  }

  // On the Shanghai main board, under the fees that ship, buying 100 shares at 0.02 and
  // selling them the next day turns 7.00002 into a debt of 3.00102.
  lemma RunCanEndInDebt<S>(state: S)
    ensures var engine, bars := ShippedEngine(7.00002), PennyBars();
            var run := RunTo(engine, BuyThenSell(state, 100, 100), bars, 3);
            && Market(engine, bars) && |run.equity| == 3
            && run.book.cash == run.equity[2].cash == run.equity[2].equity == -3.00102
  {
    hide Round2, TradeCost, Amount;
    var engine, bars := ShippedEngine(7.00002), PennyBars();
    PennyLimits();
    PennyCosts(bars[1].date);
    PennyCosts(bars[2].date);
    assert Amount(100, 0.02) == 2.0 && Amount(0, 0.02) == 0.0 by {
      HundredAt(0.02);
    }
    hide RunTo;
    RoundTripRun(engine, state, bars, 100, 100);
  }

  lemma HundredAt(price: real)
    ensures Amount(100, price) == 100.0 * price && Amount(0, price) == 0.0
  {
  }

  lemma PennyLimits()
    ensures ShanghaiMain().LimitUp(0.04, false) == 0.04 && ShanghaiMain().LimitDown(0.01, false) == 0.01
  {
    assert (0.04 * 1.1 * 100.0 + 0.5).Floor == 4;
    assert (0.01 * 0.9 * 100.0 + 0.5).Floor == 1;
  }

  lemma PennyCosts(date: int)
    requires date >= COMMISSION_2024
    ensures TradeCost(ShippedFees(), Buy, 2.0, Some("SH"), date) == 5.00002
    ensures TradeCost(ShippedFees(), Sell, 2.0, Some("SH"), date) == 5.00102
  {
    hide Current;
    ShippedCurrent(date);
  }
}
