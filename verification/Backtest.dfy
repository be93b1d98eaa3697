// The daily-bar backtesting engine (crates/backtest/src/engine.rs). Prices and cash are
// reals. Price limits and fees are arbitrary functions carried by `Board`; TradingRules
// builds those of a rules file.

module BacktestTypes {
  import opened Wrappers
  import Adjust

  const U32_MAX: nat := 0xFFFF_FFFF

  // Slack in the affordability and price-limit comparisons.
  const EPS: real := 0.000000001

  type Pos = n: nat | n > 0 witness 1

  datatype Bar = Bar(
    date: int, open: real, close: real, high: real, low: real, volume: real, amount: Option<real>, suspended: bool)

  ghost predicate StrictDates(bars: seq<Bar>) {
    forall i, j :: 0 <= i < j < |bars| ==> bars[i].date < bars[j].date
  }

  datatype Side = Buy | Sell

  datatype Qty = Shares(shares: nat) | Max

  datatype Order = Order(side: Side, qty: Qty, reason: string)

  // `fee(side, amount, date)` is the total cost of a trade.
  datatype Board = Board(
    minLot: Pos, lotStep: Pos,
    limitUp: (real, bool) -> real, limitDown: (real, bool) -> real,
    fee: (Side, real, int) -> real)

  datatype Execution = NextOpen | NextClose | SameClose

  datatype Adjustment = Raw | QfqAsOf

  datatype Engine = Engine(
    board: Board, initialCash: real, execution: Execution, adjustment: Adjustment,
    actions: seq<Adjust.CorporateAction>, slippageBps: real, isSt: bool)

  datatype Fill = Fill(
    date: int, side: Side, shares: Pos, price: real, amount: real, fees: real, reason: string, cashAfter: real)

  datatype Reason = LimitUp | LimitDown | Suspended | T1Restriction | NoPosition | InsufficientCash | BelowMinLot

  datatype Rejection = Rejection(date: int, side: Side, qty: Qty, reason: Reason)

  datatype EquityPoint = EquityPoint(
    date: int, cash: real, shares: nat, close: real, marketValue: real, feesCum: real, equity: real)

  datatype Snapshot = Snapshot(shares: nat, sellable: nat, avgCost: real, cash: real)

  // Any deterministic strategy: a state, and what it does on seeing the visible bars and
  // its position at a bar index.
  datatype Strategy<!S> = Strategy(init: S, onBar: (S, seq<Bar>, Snapshot, nat) -> (S, seq<Order>))

  // Portfolio and logs, as values.
  datatype BookRecord = BookRecord(
    cash: real, shares: nat, sellable: nat, costBasis: real, feesCum: real,
    fills: seq<Fill>, rejections: seq<Rejection>)
  {
    function View(): Snapshot {
      Snapshot(shares, sellable, if shares > 0 then costBasis / shares as real else 0.0, cash)
    }

    function Reject(bar: Bar, order: Order, reason: Reason): BookRecord {
      this.(rejections := rejections + [Rejection(bar.date, order.side, order.qty, reason)])
    }
  }

  type Book = b: BookRecord | b.sellable <= b.shares
    witness BookRecord(0.0, 0, 0, 0.0, 0.0, [], [])
}

// What one order does to the book.
module Execution {
  import opened BacktestTypes
  import opened Reals

  function Amount(shares: nat, price: real): real {
    shares as real * price
  }

  // Slippage moves the price against the trader.
  function SlippedPrice(slippageBps: real, side: Side, rawPrice: real): real {
    var slip := slippageBps / 10000.0;
    match side case Buy => rawPrice * (1.0 + slip) case Sell => rawPrice * (1.0 - slip)
  }

  // Cost basis once `sold` of `held` shares leave at average cost.
  function BasisAfterSale(costBasis: real, held: Pos, sold: nat): real {
    var avg := costBasis / held as real;
    costBasis - avg * sold as real
  }

  predicate Fits(board: Board, shares: nat, price: real, cash: real, date: int) {
    Amount(shares, price) + board.fee(Buy, Amount(shares, price), date) <= cash + EPS
  }

  // What `shares` rounds down to on the board; nothing if it is under the minimum lot.
  function RoundLot(board: Board, shares: nat): nat {
    if shares < board.minLot then 0
    else board.minLot + (shares - board.minLot) / board.lotStep * board.lotStep
  }

  // floor(cash / price) cast to u32: the cast saturates, and a zero price divides to
  // infinity or NaN.
  function Affordable(cash: real, price: real): nat {
    if price == 0.0 then if cash > 0.0 then U32_MAX else 0
    else
      var n := (cash / price).Floor;
      if n < 0 then 0 else if n > U32_MAX then U32_MAX else n
  }

  // The first affordable size on the way down, a step at a time; 0 past the bottom.
  function Shrink(board: Board, shares: nat, price: real, cash: real, date: int): nat {
    if Fits(board, shares, price, cash, date) then shares
    else if shares < board.minLot + board.lotStep then 0
    else Shrink(board, shares - board.lotStep, price, cash, date)
  }

  // The size asked for, before rounding to lots.
  function Wanted(order: Order, cash: real, price: real): nat {
    match order.qty case Shares(q) => q case Max => Affordable(cash, price)
  }

  function ExecuteBuy(board: Board, order: Order, book: Book, bar: Bar, price: real): Book {
    if order.qty.Shares? && order.qty.shares < board.minLot then book.Reject(bar, order, BelowMinLot)
    else
      var lot := RoundLot(board, Wanted(order, book.cash, price));
      var shares := if lot < board.minLot then 0 else Shrink(board, lot, price, book.cash, bar.date);
      if shares == 0 then book.Reject(bar, order, InsufficientCash)
      else
        var amount := Amount(shares, price);
        var fees := board.fee(Buy, amount, bar.date);
        var cash := book.cash - (amount + fees);
        book.(cash := cash, shares := book.shares + shares, costBasis := book.costBasis + amount,
              feesCum := book.feesCum + fees,
              fills := book.fills + [Fill(bar.date, Buy, shares, price, amount, fees, order.reason, cash)])
  }

  function ExecuteSell(board: Board, order: Order, book: Book, bar: Bar, price: real): Book {
    if book.shares == 0 then book.Reject(bar, order, NoPosition)
    else
      var shares := if order.qty.Shares? && order.qty.shares < book.sellable then order.qty.shares else book.sellable;
      if shares == 0 then book.Reject(bar, order, T1Restriction)
      else
        var amount := Amount(shares, price);
        var fees := board.fee(Sell, amount, bar.date);
        var cash := book.cash + (amount - fees);
        book.(cash := cash, shares := book.shares - shares, sellable := book.sellable - shares,
              costBasis := if book.shares == shares then 0.0 else BasisAfterSale(book.costBasis, book.shares, shares),
              feesCum := book.feesCum + fees,
              fills := book.fills + [Fill(bar.date, Sell, shares, price, amount, fees, order.reason, cash)])
  }

  function PreClose(bars: seq<Bar>, t: nat): real
    requires t < |bars|
  {
    if t == 0 then bars[0].open else bars[t - 1].close
  }

  function Execute(engine: Engine, order: Order, book: Book, bars: seq<Bar>, t: nat, rawPrice: real): Book
    requires t < |bars|
  {
    var bar, board, preClose := bars[t], engine.board, PreClose(bars, t);
    var price := SlippedPrice(engine.slippageBps, order.side, rawPrice);
    if bar.suspended then book.Reject(bar, order, Suspended)
    else match order.side
      case Buy =>
        if rawPrice >= board.limitUp(preClose, engine.isSt) - EPS then book.Reject(bar, order, LimitUp)
        else ExecuteBuy(board, order, book, bar, price)
      case Sell =>
        if rawPrice <= board.limitDown(preClose, engine.isSt) + EPS then book.Reject(bar, order, LimitDown)
        else ExecuteSell(board, order, book, bar, price)
  }

  function ExecuteAll(engine: Engine, orders: seq<Order>, book: Book, bars: seq<Bar>, t: nat, rawPrice: real): Book
    requires t < |bars|
  {
    if orders == [] then book
    else ExecuteAll(engine, orders[1..], Execute(engine, orders[0], book, bars, t, rawPrice), bars, t, rawPrice)
  }

  // ---- Buy sizing ---------------------------------------------------------------------

  predicate ValidLot(board: Board, shares: nat) {
    shares >= board.minLot && (shares - board.minLot) % board.lotStep == 0
  }

  // Two valid lots are at least a step apart.
  lemma LotsAreStepsApart(board: Board, small: nat, large: nat)
    requires ValidLot(board, small) && ValidLot(board, large) && small < large
    ensures small + board.lotStep <= large && ValidLot(board, large - board.lotStep)
  {
    var step: int := board.lotStep;
    var a, b := (small - board.minLot) / step, (large - board.minLot) / step;
    assert small - board.minLot == step * a && large - board.minLot == step * b;
    assert a < b by {
      if b <= a {
        MulMonotone(step, b, a);
      }
    }
    MulMonotone(step, a + 1, b);
    assert large - step - board.minLot == step * (b - 1);
    MultipleMod(step, b - 1);
  }

  lemma MulMonotone(step: int, a: int, b: int)
    requires step > 0 && a <= b
    ensures step * a <= step * b
  {
  }

  lemma MultipleMod(step: int, k: int)
    requires step > 0 && k >= 0
    ensures (step * k) % step == 0
  {
    DivMod(step, step * k, k);
  }

  lemma DivMod(step: int, x: int, k: int)
    requires step > 0 && x == step * k
    ensures x % step == 0
  {
    var q, r := x / step, x % step;
    assert x == step * q + r && 0 <= r < step;
    assert step * (k - q) == r;
    if k - q >= 1 {
      MulMonotone(step, 1, k - q);
    } else if k - q <= -1 {
      MulMonotone(step, k - q, -1);
    }
  }

  lemma RoundLotIsLargest(board: Board, shares: nat)
    ensures var lot := RoundLot(board, shares);
            && lot <= shares
            && (lot == 0 || ValidLot(board, lot))
            && forall other: nat :: ValidLot(board, other) && other <= shares ==> other <= lot
  {
    var lot := RoundLot(board, shares);
    if shares >= board.minLot {
      var step: int, rest := board.lotStep, shares - board.minLot;
      assert rest / step * step == step * (rest / step);
      MultipleMod(step, rest / step);
      forall other: nat | ValidLot(board, other) && other <= shares ensures other <= lot {
        if other > lot {
          LotsAreStepsApart(board, lot, other);
        }
      }
    }
  }

  lemma {:induction false} ShrinkIsLargest(board: Board, shares: nat, price: real, cash: real, date: int)
    requires ValidLot(board, shares)
    ensures var fit := Shrink(board, shares, price, cash, date);
            && fit <= shares
            && (fit == 0 || (ValidLot(board, fit) && Fits(board, fit, price, cash, date)))
            && forall other: nat :: ValidLot(board, other) && fit < other <= shares
                ==> !Fits(board, other, price, cash, date)
  {
    var fit := Shrink(board, shares, price, cash, date);
    if Fits(board, shares, price, cash, date) {
    } else if shares < board.minLot + board.lotStep {
      forall other: nat | ValidLot(board, other) && other <= shares ensures other == shares {
        if other < shares {
          LotsAreStepsApart(board, other, shares);
        }
      }
    } else {
      var less := shares - board.lotStep;
      StepDownValid(board, shares);
      ShrinkIsLargest(board, less, price, cash, date);
      forall other: nat | ValidLot(board, other) && fit < other <= shares
        ensures !Fits(board, other, price, cash, date)
      {
        if less < other < shares {
          LotsAreStepsApart(board, other, shares);
        }
      }
    }
  }

  lemma StepDownValid(board: Board, shares: nat)
    requires ValidLot(board, shares) && shares >= board.minLot + board.lotStep
    ensures ValidLot(board, shares - board.lotStep)
  {
    var step: int, rest := board.lotStep, shares - board.minLot;
    var k := rest / step;
    assert rest == step * k;
    assert rest - step == step * (k - 1);
    DivMod(step, rest - step, k - 1);
  }

  // For a positive price, what "all the cash" asks for is the most shares that the cash pays
  // for before fees, as far as 32 bits go; a negative price mirrors the cash.
  lemma AffordableIsFloor(cash: real, price: real)
    ensures var n := Affordable(cash, price);
            && n <= 0xFFFF_FFFF
            && (price > 0.0 && cash >= 0.0 ==> n as real * price <= cash)
            && (price > 0.0 && n < 0xFFFF_FFFF ==> cash < (n + 1) as real * price)
            && (price > 0.0 && cash < 0.0 ==> n == 0)
            && (price == 0.0 ==> n == if cash > 0.0 then 0xFFFF_FFFF else 0)
            && (price < 0.0 ==> n == Affordable(-cash, -price))
  {
    var n := Affordable(cash, price);
    if price > 0.0 {
      var q := cash / price;
      assert q * price == cash;
      Compare(q, price, cash, n);
      Compare(q, price, cash, n + 1);
      Compare(q, price, cash, 0);
    } else if price < 0.0 {
      assert cash / price * price == cash;
      Quotient(-cash, -price, cash / price);
    }
  }

  lemma Compare(q: real, price: real, cash: real, n: nat)
    requires price > 0.0 && q * price == cash
    ensures n as real <= q <==> n as real * price <= cash
  {
    if n as real <= q {
      ScaleUp(n as real, q, price);
    } else {
      StrictlyUp(q, n as real, price);
    }
  }

  lemma ScaleUp(a: real, b: real, k: real)
    requires a <= b && k > 0.0
    ensures a * k <= b * k
  {
  }

  lemma StrictlyUp(a: real, b: real, k: real)
    requires a < b && k > 0.0
    ensures a * k < b * k
  {
  }

  // `fit` is the largest valid lot up to `wanted` that the cash pays for with its fees, 0
  // if none is.
  ghost predicate IsLargestFit(board: Board, wanted: nat, price: real, cash: real, date: int, fit: nat) {
    && (fit == 0 || (fit <= wanted && ValidLot(board, fit) && Fits(board, fit, price, cash, date)))
    && forall other: nat :: ValidLot(board, other) && fit < other <= wanted ==> !Fits(board, other, price, cash, date)
  }

  lemma FitsMeans(board: Board, shares: nat, price: real, cash: real, date: int)
    ensures Fits(board, shares, price, cash, date)
            <==> shares as real * price + board.fee(Buy, shares as real * price, date) <= cash + 0.000000001
    ensures ValidLot(board, shares)
            <==> exists steps: nat :: shares == board.minLot + Steps(steps, board.lotStep)
  {
    if ValidLot(board, shares) {
      var step: int, rest := board.lotStep, shares - board.minLot;
      var steps: nat := rest / step;
      assert shares == board.minLot + Steps(steps, board.lotStep);
    }
    forall steps: nat | shares == board.minLot + Steps(steps, board.lotStep) ensures ValidLot(board, shares) {
      DivMod(board.lotStep, shares - board.minLot, steps);
    }
  }

  function Steps(steps: nat, step: Pos): nat {
    step * steps
  }

  // A buy either fills the largest affordable valid lot up to the size wanted, or is
  // rejected: as too small when a size below the minimum lot was asked for, and otherwise
  // as unaffordable exactly when no valid lot up to that size fits the cash.
  lemma BuySizing(board: Board, order: Order, book: Book, bar: Bar, price: real)
    ensures var after := ExecuteBuy(board, order, book, bar, price);
            var small := order.qty.Shares? && order.qty.shares < board.minLot;
            var wanted := if order.qty.Shares? then order.qty.shares else Affordable(book.cash, price);
            if small || IsLargestFit(board, wanted, price, book.cash, bar.date, 0)
            then after == book.Reject(bar, order, if small then BelowMinLot else InsufficientCash)
            else
              && |after.fills| == |book.fills| + 1 && after.fills[..|book.fills|] == book.fills
              && IsLargestFit(board, wanted, price, book.cash, bar.date, after.fills[|book.fills|].shares)
  {
    var wanted := Wanted(order, book.cash, price);
    var lot := RoundLot(board, wanted);
    RoundLotIsLargest(board, wanted);
    if lot >= board.minLot {
      ShrinkIsLargest(board, lot, price, book.cash, bar.date);
      var fit := Shrink(board, lot, price, book.cash, bar.date);
      assert IsLargestFit(board, wanted, price, book.cash, bar.date, fit);
    }
  }

  // ---- Sale sizing ----------------------------------------------------------------------

  // A sale fills exactly when something is held, some of it may be sold and no empty size
  // was asked for: then all that may be sold, or the size asked for if that is less. Else
  // it is rejected, for want of a position exactly when nothing is held.
  lemma SellSizing(board: Board, order: Order, book: Book, bar: Bar, price: real)
    ensures var after := ExecuteSell(board, order, book, bar, price);
            if book.shares > 0 && book.sellable > 0 && (order.qty.Max? || order.qty.shares > 0)
            then
              && |after.fills| == |book.fills| + 1 && after.fills[..|book.fills|] == book.fills
              && after.rejections == book.rejections
              && var sold: nat := after.fills[|book.fills|].shares;
                 && after.shares == book.shares - sold && after.sellable == book.sellable - sold
                 && (order.qty.Max? ==> after.sellable == 0)
                 && (order.qty.Shares? && order.qty.shares <= book.sellable ==> sold == order.qty.shares)
                 && (order.qty.Shares? && order.qty.shares > book.sellable ==> after.sellable == 0)
            else
              after == book.Reject(bar, order, if book.shares == 0 then NoPosition else T1Restriction)
  {
    hide Amount, BasisAfterSale;
  }

  // ---- Why an order is rejected ------------------------------------------------------------

  // Every reason is given exactly when it is the case: no trading while suspended, then the
  // price limit of the order's side around the last close (the open, on the first bar), then
  // what the portfolio lacks.
  lemma ReasonsAreExact(engine: Engine, order: Order, book: Book, bars: seq<Bar>, t: nat, raw: real, reason: Reason)
    requires t < |bars|
    ensures var after := Execute(engine, order, book, bars, t, raw);
            var last := if t == 0 then bars[0].open else bars[t - 1].close;
            var stopped := bars[t].suspended;
            var up := order.side == Buy && raw >= engine.board.limitUp(last, engine.isSt) - 0.000000001;
            var down := order.side == Sell && raw <= engine.board.limitDown(last, engine.isSt) + 0.000000001;
            var free, small := !stopped && !up && !down, order.qty.Shares? && order.qty.shares < engine.board.minLot;
            var price := raw + raw * (engine.slippageBps / 10000.0);
            var wanted := if order.qty.Shares? then order.qty.shares else Affordable(book.cash, price);
            after == book.Reject(bars[t], order, reason) <==>
              match reason
              case Suspended => stopped
              case LimitUp => !stopped && up
              case LimitDown => !stopped && down
              case BelowMinLot => free && order.side == Buy && small
              case InsufficientCash =>
                free && order.side == Buy && !small
                && IsLargestFit(engine.board, wanted, price, book.cash, bars[t].date, 0)
              case NoPosition => free && order.side == Sell && book.shares == 0
              case T1Restriction =>
                free && order.side == Sell && book.shares > 0 && (book.sellable == 0 || order.qty == Shares(0))
  {
    hide ExecuteBuy, ExecuteSell, IsLargestFit, Affordable;
    var price := SlippedPrice(engine.slippageBps, order.side, raw);
    BuySizing(engine.board, order, book, bars[t], price);
    SellSizing(engine.board, order, book, bars[t], price);
    assert order.side == Buy ==> price == raw + raw * (engine.slippageBps / 10000.0);
    hide SlippedPrice;
    forall r ensures book.Reject(bars[t], order, r) == book.Reject(bars[t], order, reason) <==> r == reason {
      RejectedOnce(book, bars[t], order, r, reason);
    }
    var after := Execute(engine, order, book, bars, t, raw);
    if after == ExecuteBuy(engine.board, order, book, bars[t], price) {
      assert after.fills != book.fills ==> after != book.Reject(bars[t], order, reason);
    }
  }

  lemma RejectedOnce(book: Book, bar: Bar, order: Order, r: Reason, reason: Reason)
    ensures book.Reject(bar, order, r) == book.Reject(bar, order, reason) <==> r == reason
    ensures book.Reject(bar, order, r).fills == book.fills
  {
    var a, b := book.Reject(bar, order, r), book.Reject(bar, order, reason);
    assert a == b ==> a.rejections[|book.rejections|] == b.rejections[|book.rejections|];
  }

  // ---- Every order is settled once ------------------------------------------------------

  // `after` extends the logs of `before` by one entry, made from `order`.
  ghost predicate Settles(order: Order, date: int, before: Book, after: Book) {
    || (&& after.rejections == before.rejections
        && exists f: Fill :: && after.fills == before.fills + [f]
                             && f.date == date && f.side == order.side && f.reason == order.reason
                             && f.cashAfter == after.cash)
    || (&& after.fills == before.fills
        && exists reason: Reason ::
             after == before.(rejections := before.rejections + [Rejection(date, order.side, order.qty, reason)]))
  }

  lemma ExecuteSettles(engine: Engine, order: Order, book: Book, bars: seq<Bar>, t: nat, rawPrice: real)
    requires t < |bars|
    ensures Settles(order, bars[t].date, book, Execute(engine, order, book, bars, t, rawPrice))
  {
    var after := Execute(engine, order, book, bars, t, rawPrice);
    if after.fills == book.fills {
      var r := after.rejections[|book.rejections|];
      assert after == book.(rejections := book.rejections + [Rejection(bars[t].date, order.side, order.qty, r.reason)]);
    } else {
      var f := after.fills[|book.fills|];
      assert after.fills == book.fills + [f];
    }
  }
}

// The engine's mutable state and the methods that update it, each tied to what one order
// does to the book.
module Broker {
  import Adjust
  import opened BacktestTypes
  import opened Execution

  class Portfolio {
    var cash: real
    var shares: nat
    var sellable: nat
    var costBasis: real
    var feesCum: real

    constructor (cash: real)
      ensures this.cash == cash && shares == 0 && sellable == 0 && costBasis == 0.0 && feesCum == 0.0
    {
      this.cash, shares, sellable, costBasis, feesCum := cash, 0, 0, 0.0, 0.0;
    }
  }

  class BacktestResult {
    var equity: seq<EquityPoint>
    var trades: seq<Fill>
    var rejections: seq<Rejection>
    var adjustmentWarnings: seq<Adjust.Warning>

    constructor ()
      ensures equity == [] && trades == [] && rejections == [] && adjustmentWarnings == []
    {
      equity, trades, rejections, adjustmentWarnings := [], [], [], [];
    }

    method Reject(bar: Bar, order: Order, reason: Reason)
      modifies this`rejections
      ensures rejections == old(rejections) + [Rejection(bar.date, order.side, order.qty, reason)]
    {
      rejections := rejections + [Rejection(bar.date, order.side, order.qty, reason)];
    }
  }

  ghost predicate Valid(pf: Portfolio)
    reads pf
  {
    pf.sellable <= pf.shares
  }

  ghost function BookOf(pf: Portfolio, result: BacktestResult): Book
    requires Valid(pf)
    reads pf, result
  {
    BookRecord(pf.cash, pf.shares, pf.sellable, pf.costBasis, pf.feesCum, result.trades, result.rejections)
  }

  method Buy(board: Board, order: Order, pf: Portfolio, result: BacktestResult, bar: Bar, price: real)
    requires Valid(pf)
    modifies pf, result`trades, result`rejections
    ensures Valid(pf) && BookOf(pf, result) == ExecuteBuy(board, order, old(BookOf(pf, result)), bar, price)
  {
    hide Shrink, RoundLot, Affordable, Amount;
    var affordable := Affordable(pf.cash, price);
    var shares: nat;
    match order.qty {
      case Shares(q) =>
        if q < board.minLot {
          result.Reject(bar, order, BelowMinLot);
          return;
        }
        shares := RoundLot(board, q);
      case Max =>
        shares := RoundLot(board, affordable);
    }
    if shares < board.minLot {
      result.Reject(bar, order, InsufficientCash);
      return;
    }
    shares := FitCash(board, shares, price, pf.cash, bar.date);
    if shares == 0 {
      result.Reject(bar, order, InsufficientCash);
      return;
    }
    var amount := Amount(shares, price);
    var fees := board.fee(Side.Buy, amount, bar.date);
    pf.cash := pf.cash - (amount + fees);
    pf.shares := pf.shares + shares;
    pf.costBasis := pf.costBasis + amount;
    pf.feesCum := pf.feesCum + fees;
    result.trades := result.trades + [Fill(bar.date, Side.Buy, shares, price, amount, fees, order.reason, pf.cash)];
  }

  // The same walk down, as a loop.
  method FitCash(board: Board, lot: nat, price: real, cash: real, date: int) returns (shares: nat)
    requires lot >= board.minLot
    ensures shares == Shrink(board, lot, price, cash, date)
  {
    shares := lot;
    while true
      invariant Shrink(board, shares, price, cash, date) == Shrink(board, lot, price, cash, date)
      decreases shares
    {
      var amount := Amount(shares, price);
      var fees := board.fee(Side.Buy, amount, date);
      if amount + fees <= cash + EPS {
        return;
      }
      if shares < board.minLot + board.lotStep {
        return 0;
      }
      shares := shares - board.lotStep;
    }
  }

  method Sell(board: Board, order: Order, pf: Portfolio, result: BacktestResult, bar: Bar, price: real)
    requires Valid(pf)
    modifies pf, result`trades, result`rejections
    ensures Valid(pf) && BookOf(pf, result) == ExecuteSell(board, order, old(BookOf(pf, result)), bar, price)
  {
    hide Amount, BasisAfterSale;
    if pf.shares == 0 {
      result.Reject(bar, order, NoPosition);
      return;
    }
    if pf.sellable == 0 {
      result.Reject(bar, order, T1Restriction);
      return;
    }
    var shares := pf.sellable;
    if order.qty.Shares? && order.qty.shares < pf.sellable {
      shares := order.qty.shares;
    }
    if shares == 0 {
      result.Reject(bar, order, T1Restriction);
      return;
    }
    var amount := Amount(shares, price);
    var fees := board.fee(Side.Sell, amount, bar.date);
    pf.costBasis := BasisAfterSale(pf.costBasis, pf.shares, shares);
    pf.cash := pf.cash + (amount - fees);
    pf.shares := pf.shares - shares;
    pf.sellable := pf.sellable - shares;
    if pf.shares == 0 {
      pf.costBasis := 0.0;
    }
    pf.feesCum := pf.feesCum + fees;
    result.trades := result.trades + [Fill(bar.date, Side.Sell, shares, price, amount, fees, order.reason, pf.cash)];
  }

  method ExecuteOne(
      engine: Engine, order: Order, pf: Portfolio, result: BacktestResult, bars: seq<Bar>, t: nat, rawPrice: real)
    requires Valid(pf) && t < |bars|
    modifies pf, result`trades, result`rejections
    ensures Valid(pf) && BookOf(pf, result) == Execute(engine, order, old(BookOf(pf, result)), bars, t, rawPrice)
  {
    hide ExecuteBuy, ExecuteSell, SlippedPrice;
    var bar := bars[t];
    if bar.suspended {
      result.Reject(bar, order, Suspended);
      return;
    }
    var preClose := PreClose(bars, t);
    var limitUp := engine.board.limitUp(preClose, engine.isSt);
    var limitDown := engine.board.limitDown(preClose, engine.isSt);
    if order.side == Side.Buy && rawPrice >= limitUp - EPS {
      result.Reject(bar, order, LimitUp);
      return;
    }
    if order.side == Side.Sell && rawPrice <= limitDown + EPS {
      result.Reject(bar, order, LimitDown);
      return;
    }
    var price := SlippedPrice(engine.slippageBps, order.side, rawPrice);
    match order.side {
      case Buy => Buy(engine.board, order, pf, result, bar, price);
      case Sell => Sell(engine.board, order, pf, result, bar, price);
    }
  }

  method DrainOrders(
      engine: Engine, orders: seq<Order>, pf: Portfolio, result: BacktestResult, bars: seq<Bar>, t: nat, rawPrice: real)
    requires Valid(pf) && t < |bars|
    modifies pf, result`trades, result`rejections
    ensures Valid(pf) && BookOf(pf, result) == ExecuteAll(engine, orders, old(BookOf(pf, result)), bars, t, rawPrice)
  {
    hide Execute;
    for i := 0 to |orders|
      invariant Valid(pf)
      invariant ExecuteAll(engine, orders[i..], BookOf(pf, result), bars, t, rawPrice)
             == ExecuteAll(engine, orders, old(BookOf(pf, result)), bars, t, rawPrice)
    {
      assert orders[i..][1..] == orders[i + 1..];
      ExecuteOne(engine, orders[i], pf, result, bars, t, rawPrice);
    }
  }
}
