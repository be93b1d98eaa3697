# A-share research engine: verified models

This project models five parts of the repository in Dafny and proves what they promise.

* **Backtesting and price adjustment** (`Adjust`, `Execution`, `Broker`, `Simulation`, `BacktestEngine`,
  `RoundTrips`, `Safety`, `TradingRules`, `Solvency`). Corporate-action ratios, forward and backward adjustment, the
  daily-bar engine with its three execution policies, T+1, board lots, price limits and fees, and FIFO round trips.
  `Portfolio`, `BacktestResult` and the methods on them change state as the engine does; each is tied to a function on
  values (`Simulation.RunTo`), about which the laws of whole runs are proved.
* **Chan-theory pipeline** (`ChanKlines`, `ChanFractals`, `ChanStrokes`, `ChanZhongshus`). Containment merge,
  fractals, strokes and zhongshus, as the loops of the program, each proved against what its result is.
* **Calculation language** (`Expressions`, `Operators`, `Evaluation`, `Programs`, `Windows`, `Moments`,
  `RelativeStrength`, `Indicators`, `OperatorLaws`). Validation, fuel-metered evaluation, sliding windows and
  statistics, and what every operator means.
* **Streaming filter** (`VisibilityFilters`, `Text`). Removal of private reasoning from fragmented text.
* **Evidence catalog and agent run** (`Pointers`, `Attributions`, `Assertions`, `Conflicts`, `Registrations`,
  `Ledger`, `RunLogs`, `AgentRuns`). The sparse attribution index, the conflict store, the finalization ledger and the
  bounded agent loop, in which provider, tools, verifier, store and user answer nondeterministically.

`Wrappers`, `Results`, `Reals` and `Sequences` are shared helpers. Prices, cash and all other floating-point numbers are
reals: the laws are those of the algorithms, not of their rounding. Tolerances are kept (`EPS` is the program's
1e-9). Dates are day numbers.

Two things the models show about the code as it is:

* The engine's property tests expect cash and equity never to go negative (crates/backtest/src/engine.rs:1295-1311).
  The fees of the board decide it. `Solvency.SafeIffProportionate`: for every board and fee list of a rules file, the
  cash and equity of every run at positive prices stay above the floor if and only if on no date a fee on sales has a
  positive minimum or the rates on sales add up to more than one. The rules that ship have a minimum commission from
  2024-01-01, and under them a Shanghai sale pays its own fees exactly when it predates that or 99.949% of it comes to
  5 (`TradingRules.ShippedSalePaysIff`). `Solvency.RunCanEndInDebt` is a run on the Shanghai main board, with its
  tick-rounded limits and shipped fees, that ends with cash and equity of -3.00102.
* Fuel covers 5,000 units for each of 1,000 nodes, but validation admits 1,024: valid programs of up to 1,000 nodes
  cannot run out (`Programs.ResourceSoundness`), and for every larger admitted size some valid program does
  (`Programs.FuelCanRunOut`).

## Model

| member | source | states |
|---|---|---|
| Adjust.SortIsStable | crates/core/src/adjust.rs:132-140 | actions are ordered by ex-date, and those of one date keep the order they were given in |
| Adjust.KnowableAppend | crates/core/src/adjust.rs:132-139 | of any list exactly the actions with an ex-date up to the anchor and, where both dates are given, a notice up to the cutoff are taken, in the order given |
| Adjust.HolderKeepsValue | crates/core/src/adjust.rs:145-183 | with C the last close before the ex-date and X the one price at which (1 + B + R)X + D = C + PR, rights left out when they have no price: there is a ratio if and only if C and X are positive, and it takes C to X |
| Adjust.EveryActionIsAccounted | crates/core/src/adjust.rs:146-181 | the warnings of an action, in its own terms: no earlier bar, a close that is not positive, a price that is not positive, and before that last one rights without a price; nothing otherwise |
| Adjust.ActionFactors | crates/core/src/adjust.rs:126-184 | the loop yields the ratios and warnings of the knowable actions, in ex-date order |
| Adjust.AfterAppend | crates/core/src/adjust.rs:220-233 | one more ratio multiplies the factor of exactly the dates before its ex-date |
| Adjust.SuffixProducts | crates/core/src/adjust.rs:220-225 | the array filled from the back holds at k the product of the ratios from k on |
| Adjust.ComputeQfq | crates/core/src/adjust.rs:213-257 | forward adjustment as computed, exact pass-through included, is the series specified by `Qfq` with its warnings |
| Adjust.QfqPrices | crates/core/src/adjust.rs:208-257 | each bar's open, close, high and low are multiplied by exactly the ratios of known actions with a later ex-date; date, volume and amount stay |
| Adjust.AnchorIsRaw | crates/core/src/adjust.rs:210-212 | from the anchor on, prices are the raw ones |
| Adjust.QfqPct | crates/core/src/adjust.rs:185-257 | the change a bar quotes passes through with the whole series, or where the factor is that of the bar before and a change was given; otherwise it is computed anew, none on the first bar. So an adjusted bar quotes the change of the adjusted closes exactly when it was computed anew or the raw bar quoted its own |
| Adjust.PercentChangeIsNearest | crates/core/src/adjust.rs:197-203 | a change is quoted exactly against a positive previous close, in hundredths, within half a hundredth of the true percentage |
| Adjust.FactorsPrefix | crates/core/src/adjust.rs:126-184 | bars and actions after the anchor do not affect the ratios up to it |
| Adjust.QfqReanchored | crates/core/src/adjust.rs:208-257 | moving the anchor later multiplies every bar up to the earlier anchor by the same factor, the product of the ratios between the anchors |
| Adjust.ComputeHfq | crates/core/src/adjust.rs:264-302 | backward adjustment as computed is the series specified by `Hfq`, with the warnings at the last bar |
| Adjust.HfqPrices | crates/core/src/adjust.rs:259-302 | with a positive first close each bar is divided by the ratios in force between the first bar and it, and the first bar keeps its raw prices |
| Adjust.HfqPct | crates/core/src/adjust.rs:290-297 | a backward-adjusted bar quotes the change its forward-adjusted bar quotes |
| Adjust.HfqAppendStable | crates/core/src/adjust.rs:259-302 | with a positive first close, appending bars never changes earlier backward-adjusted prices |
| Adjust.HfqDirtyBase | crates/core/src/adjust.rs:282-289 | with a non-positive first close, appending bars multiplies earlier prices by exactly the ratios that came after |
| Adjust.HfqRewritesHistory | crates/core/src/adjust.rs:282-289 | a series with first close 0 whose first open is 1 until a dividend's bar is appended, and 0.5 from then on |
| Execution.RoundLotIsLargest | crates/backtest/src/engine.rs:640-648 | rounding gives the largest valid board lot not above the size, 0 if none |
| Execution.ShrinkIsLargest | crates/backtest/src/engine.rs:683-699 | shrinking by lot steps finds the largest valid lot the cash pays for, 0 if none |
| Execution.BuySizing | crates/backtest/src/engine.rs:650-720 | a buy fills the largest valid lot up to the size wanted whose amount and fees fit the cash; it is refused as too small exactly when a size below the minimum lot was asked for, and for want of cash exactly when no such lot fits |
| Execution.AffordableIsFloor | crates/backtest/src/engine.rs:667-667 | buying with all the cash asks for the most shares whose price the cash covers, as far as 32 bits go; zero and negative prices as the cast has them |
| Execution.SellSizing | crates/backtest/src/engine.rs:722-780 | a sale fills exactly when something is held, some of it is sellable and no empty size was asked for: then all that is sellable, or the size asked for if less; otherwise it is refused, for want of a position exactly when nothing is held |
| Execution.ReasonsAreExact | crates/backtest/src/engine.rs:585-748 | for every order, book and bar, each of the seven reasons of rejection is given if and only if it is the case, in terms of the bar, the last close, the board's limits and the book |
| Execution.ExecuteSettles | crates/backtest/src/engine.rs:585-638 | every attempted order leaves exactly one fill or one rejection, of that bar and that order |
| Broker.FitCash | crates/backtest/src/engine.rs:683-699 | the shrinking loop computes `Shrink`, and ends |
| Broker.Buy | crates/backtest/src/engine.rs:650-720 | the in-place buy changes portfolio and logs as `ExecuteBuy` does the book |
| Broker.Sell | crates/backtest/src/engine.rs:722-780 | the in-place sale changes portfolio and logs as `ExecuteSell` does the book |
| Broker.ExecuteOne | crates/backtest/src/engine.rs:585-638 | suspension, limits, slippage and dispatch, in place, against `Execute` |
| Broker.DrainOrders | crates/backtest/src/engine.rs:571-583 | the orders are executed in turn, against `ExecuteAll` |
| Simulation.RunIsLocal | crates/backtest/src/engine.rs:387-532 | a run through bar k reads no bar at or after k |
| Simulation.StrategySees | crates/backtest/src/engine.rs:483-514 | at every bar of every run the strategy is asked once, with the bars visible there and the position after the bar's fills (next open) or before them (next and same close); what it answers is what is emitted, and tried on the bar only under same close |
| Simulation.VisibleBars | crates/backtest/src/engine.rs:534-547 | a visible bar is the raw one, or its prices times the ratios that take effect between it and the last visible bar, which is raw |
| Simulation.EquityShowsBook | crates/backtest/src/engine.rs:516-529 | each bar adds one point, which shows cash, shares and booked fees after the bar and values the position at the point's close |
| Simulation.Causality | crates/backtest/src/engine.rs:7-24 | no look-ahead over whole runs: on the first m bars alone, any strategy under any policy gets exactly the first m equity points, and the fills and rejections dated up to then, of the run on any longer history |
| Simulation.OrdersAreAttemptedOnce | crates/backtest/src/engine.rs:25-28 | orders are attempted in the order they were emitted; at every bar all but the ones just emitted have been, and as many fills and rejections exist as attempts |
| Simulation.OrdersSettleInTurn | crates/backtest/src/engine.rs:585-638 | of every run: the attempted orders lead from the opening book to the final one as a chain, each leaving its own fill or rejection at its own bar's date, with nothing else changing the logs |
| RoundTrips.CloseLots | crates/backtest/src/engine.rs:304-323 | the loop over the queue front computes `Close` |
| RoundTrips.MatchRoundTrips | crates/backtest/src/engine.rs:288-329 | the loop over fills computes the FIFO matching |
| RoundTrips.CloseOld | crates/backtest/src/engine.rs:304-323 | a sale of no more than is held from earlier dates consumes only lots of earlier dates, and earns proceeds less the cost of what left |
| RoundTrips.CloseIsFifo | crates/backtest/src/engine.rs:304-323 | of any lots and sale: lots leave oldest first, each closed by a trip of its own date and size that earns the net price less the lot's cost on every share, the first one left possibly in part, and the rest stay as they are |
| RoundTrips.FillIsMatched | crates/backtest/src/engine.rs:290-329 | a buy opens a lot behind the others that costs its amount and fees; a sale closes that many shares from the front at a price that brings its amount less its fees |
| RoundTrips.SharesFlow | crates/backtest/src/engine.rs:290-329 | for any fills, shares bought are the open lots plus shares sold, up to what was sold without a lot |
| RoundTrips.TPlusOneMeetsFifo | crates/backtest/src/engine.rs:290-329 | in every run no more is sold through a bar than was bought on earlier dates; so every round trip ends after the day it began, no sale lacks an open lot, and the open lots are the position |
| RoundTrips.RunIsBalanced | crates/backtest/src/engine.rs:387-532 | at every bar of every run, cash, position, sellable shares and booked fees agree with the FIFO matching of the fills |
| RoundTrips.Conservation | crates/backtest/src/engine.rs:290-329 | cash is initial cash plus round-trip profit less the cost of the open lots; booked fees are those of the fills; a run that ends flat ends with exactly its profit added |
| BacktestEngine.FoldFactors | crates/backtest/src/engine.rs:436-444 | the loop folds same-date ratios into one |
| BacktestEngine.FoldKeepsProducts | crates/backtest/src/engine.rs:436-444 | folding changes no product of ratios between two dates |
| BacktestEngine.Advance | crates/backtest/src/engine.rs:464-479 | folding in the arrived multipliers and rescaling multiplies every past bar by the ratios dated between the two bars |
| BacktestEngine.AnchoredIsReanchored | crates/backtest/src/engine.rs:448-481 | the buffer rescaled incrementally from multipliers computed once over the whole history equals, at every bar, forward adjustment computed afresh from the bars and actions known there |
| BacktestEngine.SeeBar | crates/backtest/src/engine.rs:464-481 | the strategy sees exactly that, or the raw bars, and the buffer is ready for the next bar |
| BacktestEngine.TradeBar | crates/backtest/src/engine.rs:483-514 | one bar's trading under each execution policy, in place, against `Trade` |
| BacktestEngine.Run | crates/backtest/src/engine.rs:387-532 | the engine's single in-place pass gives the equity, fills and rejections of the run that re-adjusts the whole visible history at every bar; an empty series is the only error |
| Safety.RunFillsAreAllowed | crates/backtest/src/engine.rs:30-45 | of every run: each fill was made on a bar not suspended and not at the limit of its side, at the policy's price with adverse slippage, charged by the schedule, buys in valid lots, and never on the first bar unless orders execute at the same close |
| Safety.SaleKeepsAverageCost | crates/backtest/src/engine.rs:757-768 | a sale leaves the average cost of the rest unchanged, and no basis when flat |
| Safety.RunAveragesCost | crates/backtest/src/engine.rs:340-359 | of every run: the position and average cost shown are those of the fills, each buy mixed in by weight, sales leaving the average as it is, and 0 when flat |
| Safety.RunKeepsLedger | crates/backtest/src/engine.rs:1313-1348 | cash is initial cash less amounts bought plus amounts sold less all fees |
| Safety.MarkedAtLastGoodClose | crates/backtest/src/engine.rs:516-529 | one equity point a bar, marked at the close of the last bar so far not suspended |
| TradingRules.CurrentIsLatest | crates/trading-rules/src/lib.rs:193-222 | a kind has a fee in force exactly when some entry of it is in effect on the date and for the market; it is the latest of those, and the first of equally late ones |
| TradingRules.FeesAt | crates/trading-rules/src/lib.rs:193-222 | the one pass over the list, replacing entries as it goes, keeps at most one entry a kind, the one in force |
| TradingRules.TradeCostAt | crates/trading-rules/src/lib.rs:224-249 | the accumulating loop charges, of each kind, the entry in force if it covers the side, and totals the three |
| TradingRules.PartIsGreater | crates/trading-rules/src/lib.rs:231-246 | a fee is charged on the sides it names only: its rate on the amount or its minimum, whichever is more |
| TradingRules.LimitsAreNearest | crates/trading-rules/src/model.rs:236-244 | a price limit is the hundredth nearest to the last close moved by the percentage of the board, or of its ST stocks |
| TradingRules.CostNonNegative | crates/trading-rules/src/lib.rs:224-249 | no trade of a non-negative amount costs less than nothing |
| TradingRules.SalesPayIff | crates/trading-rules/src/lib.rs:224-249 | on a date, every sale pays its own fees if and only if no fee on sales has a positive minimum and their rates add up to at most one |
| TradingRules.ShippedSalePaysIff | crates/trading-rules/rules/a-share-rules.json:75-121 | under the shipped fees a Shanghai sale pays its own fees if and only if it predates the minimum commission or 99.949% of it is at least 5 |
| Solvency.EquityNeverNegative | crates/backtest/src/engine.rs:1295-1311 | of every strategy and every run at positive prices, under fees that take no more than a sale brings in: cash is above the floor at every fill and at the end, and cash, market value and equity at every point of the curve |
| Solvency.UnpayableSinks | crates/backtest/src/engine.rs:757-762 | on every board with tick-rounded limits, whatever its lots, if some sale costs more than it brings in there is a three-bar run on that board, at positive prices, that ends with cash and equity below the floor |
| Solvency.SafeIffPayable | crates/backtest/src/engine.rs:1295-1311 | on every board with tick-rounded limits, under fees that are not negative on positive amounts: all runs keep cash above the floor, and all keep equity above it, if and only if no sale costs more than it brings in |
| Solvency.SafeIffProportionate | crates/backtest/src/engine.rs:1295-1311 | for every board and fee list of a rules file: all runs keep cash and equity above the floor if and only if on no date a fee on sales has a positive minimum or the rates on sales exceed one |
| Solvency.RunCanEndInDebt | crates/backtest/src/engine.rs:757-762 | a run on the Shanghai main board under the shipped limits and fees: 100 shares bought at 0.02 and sold at 0.02 turn 7.00002 into cash and equity of -3.00102 |
| ChanKlines.MergeDailyKlines | crates/chanlun/src/daily.rs:195-243 | the merge loop computes `Merge` |
| ChanKlines.MergeIsPartition | crates/chanlun/src/daily.rs:195-243 | merged klines cut the raw series into consecutive segments, each carrying the extremes its direction calls for; no kline of a segment lies strictly beyond what the segment was before it, and the next raw kline does; neighbours are strictly above or below each other in both high and low, as the direction says |
| ChanFractals.FindDailyFractals | crates/chanlun/src/daily.rs:245-275 | the scan computes `Fractals`, which the next row characterises |
| ChanFractals.FractalsAreReported | crates/chanlun/src/daily.rs:245-275 | of any klines: a fractal is reported if and only if its kline lies between two others and is strictly highest of the three, with its high, or else strictly lowest, with its low, under the kline's last date; in index order |
| ChanFractals.FractalsAreTurns | crates/chanlun/src/daily.rs:245-275 | on a merged series a kline is a top exactly where rising turns to falling, a bottom exactly where falling turns to rising, never both |
| ChanFractals.FractalsSwing | crates/chanlun/src/daily.rs:245-275 | fractals of a merged series are in index order, alternate, and each swing moves strictly its way |
| ChanStrokes.FindDailyStrokes | crates/chanlun/src/daily.rs:286-353 | the loop, with its iteration that does not advance, ends and computes `Strokes` |
| ChanStrokes.StrokesFromIsChain | crates/chanlun/src/daily.rs:277-353 | on alternating fractals the strokes are the chain in which each runs from the most extreme fractal since the last stroke's end to the first fractal that can end it |
| ChanStrokes.ChainIsUnique | crates/chanlun/src/daily.rs:277-353 | that definition admits one list of strokes only |
| ChanStrokes.StrokeMoves | crates/chanlun/src/daily.rs:302-337 | such a stroke moves strictly the way it says over at least four merged klines |
| ChanStrokes.PipelineStrokes | crates/chanlun/src/daily.rs:195-353 | merge, fractals and strokes composed, for any klines whose low does not exceed their high: every stroke moves strictly its way, spans four merged klines or more, starts at the most extreme fractal since the last end, and turns the last stroke around |
| ChanZhongshus.Zones | crates/chanlun/src/daily.rs:359-390 | zones are exactly the prices two successive strokes share, found leftmost first, sharing no stroke, with no overlapping pair missed |
| ChanZhongshus.DetectBreak | crates/chanlun/src/daily.rs:391-408 | a zone is broken by the first later stroke that leaves it and ends where that stroke starts, or is unbroken when none does |
| ChanZhongshus.FindZhongshus | crates/chanlun/src/daily.rs:355-410 | both of these for the whole list |
| Windows.RollingWithCurrent | crates/compute/src/lib.rs:839-870 | the running sums give, at each position, the operation on the true sum and sum of squares of the last `window` entries exactly when they all exist and are present; `missing` never underflows |
| Moments.CauchySchwarz | crates/compute/src/lib.rs:907-933 | the square of a dot product is at most the product of the squared lengths |
| Moments.CovarianceBound | crates/compute/src/lib.rs:907-933 | covariance squared is at most the product of the variances |
| Moments.CorrelationRange | crates/compute/src/lib.rs:907-933 | a correlation lies in [-1, 1] |
| Moments.OnePassVariance | crates/compute/src/lib.rs:872-875 | the one-pass variance is the two-pass population variance, so the clamp at zero does nothing |
| RelativeStrength.Rsi | crates/compute/src/lib.rs:877-905 | the index computed from two rolling averages is, at each position, the one defined from the window's gains and losses |
| RelativeStrength.RsiRangeAndMirror | crates/compute/src/lib.rs:877-905 | it exists exactly when the window and its predecessor are present, lies in [0, 100], and is 100 less itself on the negated series |
| Indicators.CumulativeUndoesReturns | crates/compute/src/lib.rs:533-570 | on positive prices, compounding the returns gives back the growth since the first price |
| Indicators.EmaStaysWithin | crates/compute/src/lib.rs:578-598 | an exponential average exists where its series does and stays within the series' range |
| Indicators.MaxDrawdownIsDeepest | crates/compute/src/lib.rs:684-698 | the drawdown of positive values is the least relative fall between any earlier and later position |
| OperatorLaws.OneIsTyped | crates/compute/src/lib.rs:512-731 | an operator on one operand passes a failure on, is an error on a scalar unless it works point by point, and otherwise gives a number or a series of the length its kind says |
| OperatorLaws.TwoIsTyped | crates/compute/src/lib.rs:667-777 | two operands: the left failure first; correlation wants two series of one length, arithmetic equal lengths of two series |
| OperatorLaws.MissingLaw | crates/compute/src/lib.rs:804-810 | position by position, a missing side gives missing |
| OperatorLaws.ArithmeticLaw | crates/compute/src/lib.rs:496-511 | of two numbers the sum and product are theirs, the difference added to the right one and the quotient times it give the left one, and division by zero has no result |
| OperatorLaws.UndoLaw | crates/compute/src/lib.rs:496-511 | (x - y) + y and, for y other than 0, (x / y) * y denote x |
| OperatorLaws.PointLaw | crates/compute/src/lib.rs:512-516 | a negative cancels its operand, an absolute value is it without its sign, and clipping moves what lies outside to the nearer bound and nothing else |
| OperatorLaws.LagLaw | crates/compute/src/lib.rs:517-525 | a lag shows the entry that many places earlier |
| OperatorLaws.TailLaw | crates/compute/src/lib.rs:632-637 | a tail is the end of the series, of the length asked for or all of it |
| OperatorLaws.ChangesExist | crates/compute/src/lib.rs:526-554 | a difference exists where an entry and its predecessor do, a return only after a price other than 0, a logarithmic one only between positive prices |
| OperatorLaws.DifferencesTelescope | crates/compute/src/lib.rs:526-532 | over any complete stretch the differences add up to the last value less the first |
| OperatorLaws.ReturnLaw | crates/compute/src/lib.rs:533-543 | a return takes the value before it to its own |
| OperatorLaws.LogReturnsTelescope | crates/compute/src/lib.rs:544-554 | over any stretch of positive prices the logarithmic returns add up to the logarithm of the whole growth |
| OperatorLaws.CumulativeLaw | crates/compute/src/lib.rs:555-570 | a cumulative return exists where a return above -100% does, and compounds the last one before it with that |
| OperatorLaws.SmaLaw | crates/compute/src/lib.rs:571-577 | a moving average exists exactly where a window is complete; times its length it is the window's total |
| OperatorLaws.EmaLaw | crates/compute/src/lib.rs:578-598 | an exponential average starts at the first value and then weighs each new value 2 and the last average n - 1, out of n + 1 |
| OperatorLaws.RollingStdLaw | crates/compute/src/lib.rs:599-610 | a moving deviation exists exactly where a window is complete, and its square is the window's population variance times the annualization |
| OperatorLaws.ZscoreLaw | crates/compute/src/lib.rs:611-626 | a standard score exists exactly where a window is complete and not constant; times the deviation, plus the mean, it is the current value |
| OperatorLaws.RsiLaw | crates/compute/src/lib.rs:627-631 | the index exists exactly where window and predecessor are complete; times the way travelled it is half the way and half the net change, in percent |
| OperatorLaws.CountLaw | crates/compute/src/lib.rs:664-666 | counted are the values present |
| OperatorLaws.LastLaw | crates/compute/src/lib.rs:663-663 | the last value present, wherever it stands |
| OperatorLaws.ReductionLaw | crates/compute/src/lib.rs:638-662 | of the values present: the sum, the mean that as often makes that sum, the deviation whose square is their variance, the attained lower and upper bound; nothing of none |
| OperatorLaws.DrawdownLaw | crates/compute/src/lib.rs:684-699 | of any values, positive or not: the deepest drawdown is the least of 0 and the falls below the highest value so far, positions where that is 0 aside; without any other position there is none |
| OperatorLaws.CorrelationLaw | crates/compute/src/lib.rs:667-683 | a correlation exists exactly for two pairs or more of which neither side is constant; times the geometric mean of the variances it is the covariance |
| OperatorLaws.DistancesCancel | crates/compute/src/lib.rs:872-875 | the distances of values from their mean cancel |
| Expressions.ValidateExpr | crates/compute/src/lib.rs:348-439 | the walk accepts exactly the expressions of acceptable nodes within the node and depth limits, and then has counted every node |
| Programs.Validate | crates/compute/src/lib.rs:261-330 | validation accepts exactly the programs that meet every limit, with distinct unshadowed names |
| Evaluation.Evaluator.EvalExpr | crates/compute/src/lib.rs:479-790 | the evaluator that advances its fuel counter in place computes outcome and fuel of `Eval` |
| Programs.ExecuteProgram | crates/compute/src/lib.rs:213-248 | validation, bindings in order, then outputs, against `Execute` |
| Evaluation.CheckForetells | crates/compute/src/lib.rs:479-790 | outcome, error, shape and fuel of an evaluation are those of an evaluation on shapes alone |
| Evaluation.CheckIgnoresNumbers | crates/compute/src/lib.rs:479-790 | erasing the numbers of an expression changes none of these |
| Programs.DataIndependence | crates/compute/src/lib.rs:213-248 | two valid programs that differ only in numbers, with any square root and logarithm, both succeed or fail with the same error, use the same fuel and give outputs of the same shapes |
| Evaluation.CheckBounds | crates/compute/src/lib.rs:450-790 | every intermediate value has 1 to 5,000 entries, every node costs 1 to 5,000 units, and fuel runs out only if the nodes could have cost that much |
| Programs.ResourceSoundness | crates/compute/src/lib.rs:213-248 | a successful run uses between one and 5,000 units a node and at most the limit; a valid program of at most 1,000 nodes never runs out of fuel |
| Programs.FuelCanRunOut | crates/compute/src/lib.rs:18-25 | of every larger size that validation admits, some valid program does run out |
| Evaluation.FuelOnlyStops | crates/compute/src/lib.rs:450-464 | the limit decides whether a value is delivered, never which |
| Evaluation.FuelIsExact | crates/compute/src/lib.rs:450-790 | an expression that has a value takes exactly the sum of its nodes' charges, each the entries of a value and at least one, and is delivered exactly when the limit allows that much |
| Evaluation.SubstituteDenotes | crates/compute/src/lib.rs:487-495 | putting definitions in place of names does not change what an expression denotes |
| Programs.InliningPreservesMeaning | crates/compute/src/lib.rs:213-248 | whenever a program succeeds, each output is what its expression denotes on the inputs alone, limits lifted, with every binding replaced by its definition |
| VisibilityFilters.SuffixPrefixLen | crates/agent-runtime/src/minimax.rs:257-262 | the longest proper prefix of the marker that the text ends with |
| VisibilityFilters.VisibilityFilter.Push | crates/agent-runtime/src/minimax.rs:215-245 | what was emitted and what is held decide, whatever text follows, just what the text read so far decides; only a possible beginning of a marker is held |
| VisibilityFilters.VisibilityFilter.Finish | crates/agent-runtime/src/minimax.rs:247-254 | what was held is emitted when outside a span and dropped inside |
| VisibilityFilters.FilterStream | crates/agent-runtime/src/minimax.rs:208-262 | for every text and every way of splitting it, the emitted pieces join to the visible part of the whole text |
| VisibilityFilters.VisibleOfRendered | crates/agent-runtime/src/minimax.rs:208-254 | the visible part is the text outside the marked spans; nothing inside a span is shown and an unclosed span is dropped whole |
| VisibilityFilters.EveryTextIsRendered | crates/agent-runtime/src/minimax.rs:208-254 | every text divides into such spans, so the previous row speaks of every text |
| Pointers.EscapeRoundTrip | crates/agent-runtime/src/catalog.rs:102-106 | escaping is undone by reading back and leaves no separator |
| Pointers.TokensDiffer | crates/agent-runtime/src/catalog.rs:102-136 | different members of one object or array get different path segments |
| Pointers.ParentPath | crates/agent-runtime/src/catalog.rs:155-156 | cutting at the last separator gives the parent |
| Pointers.SiblingsAreApart | crates/agent-runtime/src/catalog.rs:121-136 | no path lies below two children of one node |
| Attributions.AttributionFor | crates/agent-runtime/src/catalog.rs:146-160 | the loop computes the longest-prefix lookup |
| Attributions.CollectTells | crates/agent-runtime/src/catalog.rs:108-140 | walking down from any node through the index built for it finds what its parts inherit, or nothing when that is what stood above |
| Attributions.LookupIsSeek | crates/agent-runtime/src/catalog.rs:146-160 | cutting upward from a path finds the deepest record on the way down to it |
| Attributions.SparseIndexIsInheritance | crates/agent-runtime/src/catalog.rs:67-160 | for every tree and every node outside the registries, longest-prefix lookup in the sparse index equals inheritance from the root, or none when that is empty |
| Assertions.OwnAssertsOrInherits | crates/agent-runtime/src/catalog.rs:73-95 | an object extends what it inherits by what it asserts in its own keys: a symbol of six digits; of the title, time and unit keys the first with a text that, trimmed of white space, is neither blank nor too long |
| Assertions.FactsBelongToDeepest | crates/agent-runtime/src/catalog.rs:67-160 | looked up in the sparse index, a part of a result has the symbol, title, time and unit asserted by the deepest object on the way to it that asserts one; the call's own symbol where none does, and nothing else |
| Registrations.CollectsRegistered | crates/agent-runtime/src/catalog.rs:589-616 | exactly the decodable rows of registries are ingested: of every object of the result at any depth, but not inside a registry |
| Registrations.FactsComeInOrder | crates/agent-runtime/src/catalog.rs:589-616 | a later item or field adds its facts at the end |
| Registrations.AdmittedIff | crates/agent-runtime/src/catalog.rs:248-252 | a fact is admitted exactly when its identifier begins with `evf_` and takes at most 80 bytes of UTF-8 |
| Registrations.BeforeIsLexicographic | crates/agent-runtime/src/catalog.rs:263-263 | times are compared at the first character where they differ, an end coming first |
| Conflicts.EvidenceCatalog.IngestFact | crates/agent-runtime/src/catalog.rs:247-297 | one fact updates the four fields as `Ingest` does |
| Conflicts.EvidenceCatalog.IngestResult | crates/agent-runtime/src/catalog.rs:234-298 | one tool result ingests all its registered facts, in order, against its own index |
| Conflicts.IngestAllReplays | crates/agent-runtime/src/catalog.rs:234-298 | ingesting result after result replays one history of facts |
| Conflicts.ReplayIsFaithful | crates/agent-runtime/src/catalog.rs:228-298 | of every history: every kept record was ingested, every ingested fact is accounted for by what is kept, and maps and flags are consistent |
| Registrations.DescriptorsDescribe | crates/agent-runtime/src/catalog.rs:257-295 | of every history: a descriptor says what the kept registration says, belongs to what the first fact of its identifier was attributed to, and is marked exactly when flagged |
| Registrations.VariantStays | crates/agent-runtime/src/catalog.rs:260-262 | a divergent registration once kept is never replaced |
| Registrations.DroppedIsExact | crates/agent-runtime/src/catalog.rs:272-275 | of every history: the dropped counter is the number of admitted facts whose identifier never got in |
| Conflicts.FlaggedIffDisagree | crates/agent-runtime/src/catalog.rs:177-298 | an identifier is flagged exactly when two facts ingested under it differ in anything but when they were observed; flagged identifiers are exactly those with a variant; raw facts and descriptors share keys |
| Conflicts.AllRegistered | crates/agent-runtime/src/catalog.rs:272-276 | within the retention bound every well-formed identifier is registered |
| Conflicts.ConflictsAreConfluent | crates/agent-runtime/src/catalog.rs:228-298 | below the bound, the identifiers registered, those flagged, and what is kept and sent of every unflagged one do not depend on order, grouping or repetition of the facts |
| Conflicts.KeepsFreshest | crates/agent-runtime/src/catalog.rs:263-270 | the registration kept is no older than any fact it agrees with, and its descriptor shows that time |
| Conflicts.EvidenceCatalog.VerifierFacts | crates/agent-runtime/src/catalog.rs:340-355 | the loop emits the kept facts of the cited identifiers in order |
| Conflicts.VerifierSeesConflicts | crates/agent-runtime/src/catalog.rs:318-355 | an identifier has two registered forms to send exactly when flagged, and they then disagree; one when registered and not flagged |
| Conflicts.SentExactlyCited | crates/agent-runtime/src/catalog.rs:340-355 | what is sent for distinct citations holds, of each identifier, exactly those forms if it was cited and nothing otherwise |
| Ledger.FinalizationLedger.RecordRejection | crates/agent-runtime/src/finalize.rs:117-141 | the counters kept in place give the verdict that the history of rejections calls for |
| Ledger.VerdictTells | crates/agent-runtime/src/finalize.rs:117-141 | the verdict in terms of the submissions rejected before: no progress exactly when this one was among them twice, else budget spent exactly on the last attempt, else retry with the attempts that remain and whether it was among them |
| Ledger.RetriesAreBounded | crates/agent-runtime/src/finalize.rs:85-141 | while every verdict was to retry, budget is left and no draft was rejected more than twice; the next verdict is to stop exactly when that ends |
| RunLogs.KeysDiffer | crates/agent-runtime/src/runtime.rs:1704-1712 | effects begun at different event counts have different idempotency keys, whatever their kinds |
| AgentRuns.RunState.Record | crates/agent-runtime/src/runtime.rs:1671-1695 | the event count advances even when storing, checkpointing or sending fails; the log grows by the event or, on a failure only, not at all |
| AgentRuns.RunState.BeginEffect | crates/agent-runtime/src/runtime.rs:1697-1716 | an effect is begun only after an event since the last one, and only of the program's own kinds or a registered tool's |
| AgentRuns.RunState.CompleteEffect | crates/agent-runtime/src/runtime.rs:1718-1728 | only an effect begun and not yet completed is completed |
| AgentRuns.RunState.FinalizeReport | crates/agent-runtime/src/runtime.rs:1020-1163 | a submission is published only without problems and after the verifier passed it; otherwise it is rejected once and may be repaired only while the ledger allows |
| RunLogs.ToldInOrder | crates/agent-runtime/src/runtime.rs:1351-1374 | in every well-told event log, at every moment, no call, by identifier and tool, has completed more often than it was started, nor started more often than it was scheduled |
| AgentRuns.RunState.PrepareCall | crates/agent-runtime/src/runtime.rs:1275-1380 | an unknown tool is counted, refused and answered, and ends the run past the limit; malformed arguments are refused and answered; for any other call, and only for it, exactly one effect of its tool is begun and the call is opened |
| AgentRuns.RunState.PrepareCalls | crates/agent-runtime/src/runtime.rs:1258-1381 | exactly the calls of registered tools with parsed arguments go on, in order, each open with an effect of its own; every other call has been answered once |
| AgentRuns.RunState.SplitCalls | crates/agent-runtime/src/runtime.rs:1383-1395 | the removal loop splits engine calls from runtime calls, keeping both orders |
| AgentRuns.RunState.AnswerCall | crates/agent-runtime/src/runtime.rs:1422-1524 | a call whose answer is handled has its effect completed and exactly one completion or failure event |
| AgentRuns.RunState.RunEngineCalls | crates/agent-runtime/src/runtime.rs:1397-1524 | engine calls answered in any order: each gets exactly one completion or failure event and has its effect completed, and the calls the runtime still has to serve stay open |
| AgentRuns.RunState.ServeCall | crates/agent-runtime/src/runtime.rs:1535-1640 | one runtime call is answered once with its effect completed and rejects at most one submission; it publishes with the completed report, or leaves budget unless it reports exhaustion |
| AgentRuns.RunState.RunRuntimeCalls | crates/agent-runtime/src/runtime.rs:1531-1645 | a batch rejects at most once a call, ends with the completed report if it publishes, and otherwise answers every call and leaves budget unless it reports exhaustion |
| AgentRuns.RunState.ExecuteTools | crates/agent-runtime/src/runtime.rs:1252-1647 | a batch that neither publishes nor fails has answered every call of the model exactly once, refused ones included, and completed every effect it began |
| AgentRuns.RunState.StreamTurn | crates/agent-runtime/src/runtime.rs:657-895 | one attempt begins one provider request, records nothing but text and no more events than the chunk limit, and yields calls within their limit and the text that the recorded events join to |
| AgentRuns.RunState.ModelTurn | crates/agent-runtime/src/runtime.rs:654-935 | empty turns are replayed a bounded number of times; a turn that is taken has visible text or a call, and its text is what the last events recorded join to |
| AgentRuns.RunState.ExecuteLoop | crates/agent-runtime/src/runtime.rs:516-1012 | the rounds keep every bound of the next row and end with the completed report exactly when they succeed |
| AgentRuns.RunState.ExecuteTask | crates/agent-runtime/src/runtime.rs:441-514 | of every run: idempotency keys pairwise distinct; only permitted effects, none completed twice; events in the order calls require; provider requests at most rounds times (empty-turn retries + 1); tool effects, and verifications, at most rounds times tool calls a round; rejections at most attempts − 1 + max(1, tool calls a round); unknown tools past their limit end the run; with verification on, a completed report had no problems and passed the verifier; a success ends with its completed event, the only terminal one, and a failure adds at most one terminal event, cancelled exactly for a cancellation by the user and suspended exactly for a provider error after which it may resume |

## Left out

- Rounding, NaN and infinity: numbers are reals. Where the program divides by zero the model says what it does (the affordable size saturates, undefined statistics are none); 1 + B + R = 0 in a corporate action is excluded by the type `CorporateAction`.
- The engine's laws hold of any board and fees; of the rules crate, limits, lots and fees are modelled (`TradingRules`), and loading, symbol classification, auction phases, the calendar and news and exit rules are not.
- The 32-bit width of share counts: only the saturating cast in `Affordable` is modelled; additions to a position are unbounded.
- `return_pct` of a round trip, and the derived totals of a result, which only summarise the logs.
- Solvency.SafeIffPayable: speaks of positive prices, slippage below 100% and a limit percentage and rates that are not negative, as fractions of a price and an amount are; at other prices a sale brings in nothing.
- `BacktestEngine::new`: its check that initial cash is positive becomes a precondition where a law needs it.
- Adjustment warnings of a run come from the whole history, so `Causality` speaks of equity, fills and rejections only.
- Adjust.HfqAppendStable: speaks of the four prices; `pct` of bar 0 is not prefix-stable in the program.
- Binary search on unsorted data: bars and factors are searched by `CountBefore` and `CountUpTo`, which agree with it on the sorted series the program requires.
- Turnover rate and volume unit of a bar, which pass through adjustment unchanged.
- ChanZhongshus.FindZhongshus: `is_broken` and `break_direction` are one field.
- MACD, divergence, signals, chart output and the minute-level pipeline of the Chan analysis.
- Square root and logarithm are parameters of `Kernel`; laws ask of the former that it squares back and is non-negative, and of the latter that it takes products to sums.
- Validation errors of the calculation language are one error, `Rejected`; the maps of a program are key-ordered lists; SHA-256 fingerprints are not modelled.
- Registry rows: decoding one into a fact is a parameter, and JSON numbers and strings are compared as values.
- Catalog search, ranking, hints and document locations.
- AgentRuns.RunState.ExecuteTask: it is a step machine in which replies are arbitrary at each step, so nothing is said of which replies a real provider, verifier or store gives; validation and creation of the run's record precede it. Its bound on rejections counts at least one call a round, because with none allowed a free-form turn can still spend the last attempt.
- AgentRuns.RunState.StreamTurn: limits on identifiers and argument sizes are folded into one flag of a tool fragment, and the failure to assemble a call into one choice.
- Messages sent to the provider, the tools offered in a round, phases, checkpoints' contents, timeouts' lengths and the catalog's contents during a run; a report is identified with its draft.
- Completion of every begun effect, and gap-free event numbers when the store fails, do not hold of the program and are not claimed.
- Session state, plans, faults, prompts, tool definitions, metrics, configuration, storage, HTTP, the desktop application and the captcha solver.
