// Boards and fees of the exchange rules (crates/trading-rules): tick-rounded price limits,
// the fee schedule in force on a date, and what a trade costs under it.

module TradingRules {
  import opened BacktestTypes
  import opened Wrappers
  import opened Reals

  datatype FeeKind = Commission | StampTax | TransferFee

  datatype FeeSide = OnBuys | OnSales | OnBoth {
    predicate Covers(side: Side) {
      OnBoth? || (OnBuys? && side.Buy?) || (OnSales? && side.Sell?)
    }
  }

  datatype FeeEntry = FeeEntry(
    kind: FeeKind, rate: real, side: FeeSide, minFee: Option<real>, markets: seq<string>, effectiveDate: int)

  // A rate is a fraction of the amount.
  type FeeRule = f: FeeEntry | f.rate >= 0.0
    witness FeeEntry(Commission, 0.0, OnBoth, None, [], 0)

  // ---- The schedule in force ------------------------------------------------------------------

  // An entry that names no market is for all of them.
  predicate Applies(fee: FeeRule, date: int, market: Option<string>) {
    && fee.effectiveDate <= date
    && (fee.markets == [] || (market.Some? && market.value in fee.markets))
  }

  function Newer(fee: FeeRule, known: Option<FeeRule>): bool {
    known.None? || fee.effectiveDate > known.value.effectiveDate
  }

  // The entry of a kind in force: the one of the latest date, the first of several.
  function Current(fees: seq<FeeRule>, date: int, market: Option<string>, kind: FeeKind): Option<FeeRule> {
    if fees == [] then None
    else
      var known, last := Current(fees[..|fees| - 1], date, market, kind), fees[|fees| - 1];
      if last.kind == kind && Applies(last, date, market) && Newer(last, known) then Some(last) else known
  }

  function Superseded(known: Option<FeeRule>, fee: FeeRule, date: int, market: Option<string>, kind: FeeKind)
    : Option<FeeRule>
  {
    if fee.kind == kind && Applies(fee, date, market) && Newer(fee, known) then Some(fee) else known
  }

  // Entry i is of that kind, in effect by the date and for the market.
  ghost predicate IsFor(fees: seq<FeeRule>, i: nat, date: int, market: Option<string>, kind: FeeKind)
    requires i < |fees|
  {
    && fees[i].kind == kind && fees[i].effectiveDate <= date
    && (fees[i].markets == [] || exists m :: m in fees[i].markets && market == Some(m))
  }

  // It is in force if there is one at all: an entry for the date and market that none for
  // them is later than, and the first of those.
  lemma {:induction false} CurrentIsLatest(fees: seq<FeeRule>, date: int, market: Option<string>, kind: FeeKind)
    returns (at: nat)
    ensures var current := Current(fees, date, market, kind);
            if current.None? then forall i :: 0 <= i < |fees| ==> !IsFor(fees, i, date, market, kind)
            else
              && at < |fees| && current.value == fees[at] && IsFor(fees, at, date, market, kind)
              && forall i :: 0 <= i < |fees| && IsFor(fees, i, date, market, kind) ==>
                   if i < at then fees[i].effectiveDate < fees[at].effectiveDate
                   else fees[i].effectiveDate <= fees[at].effectiveDate
  {
    at := 0;
    if fees != [] {
      var n := |fees| - 1;
      at := CurrentIsLatest(fees[..n], date, market, kind);
      var known := Current(fees[..n], date, market, kind);
      assert Current(fees, date, market, kind) == Superseded(known, fees[n], date, market, kind);
      hide Current;
      forall i | 0 <= i < n
        ensures IsFor(fees, i, date, market, kind) == IsFor(fees[..n], i, date, market, kind) && fees[i] == fees[..n][i]
      {
      }
      AppliesMeans(fees, n, date, market, kind);
      hide IsFor, Applies;
      if fees[n].kind == kind && Applies(fees[n], date, market) && Newer(fees[n], known) {
        at := n;
      }
    }
  }

  lemma AppliesMeans(fees: seq<FeeRule>, i: nat, date: int, market: Option<string>, kind: FeeKind)
    requires i < |fees|
    ensures IsFor(fees, i, date, market, kind) <==> fees[i].kind == kind && Applies(fees[i], date, market)
  {
  }

  predicate OnePerKind(selected: seq<FeeRule>) {
    forall i, j :: 0 <= i < j < |selected| ==> selected[i].kind != selected[j].kind
  }

  function OfKind(selected: seq<FeeRule>, kind: FeeKind): (found: Option<FeeRule>)
    ensures found.Some? ==> found.value in selected && found.value.kind == kind
    ensures found.None? ==> forall f :: f in selected ==> f.kind != kind
  {
    if selected == [] then None
    else
      var last := selected[|selected| - 1];
      if last.kind == kind then Some(last) else OfKind(selected[..|selected| - 1], kind)
  }

  lemma {:induction false} OfKindAt(selected: seq<FeeRule>, i: nat)
    requires OnePerKind(selected) && i < |selected|
    ensures OfKind(selected, selected[i].kind) == Some(selected[i])
  {
    if i < |selected| - 1 {
      OfKindAt(selected[..|selected| - 1], i);
    }
  }

  lemma OfKindAppended(selected: seq<FeeRule>, fee: FeeRule)
    ensures forall kind ::
              OfKind(selected + [fee], kind) == if kind == fee.kind then Some(fee) else OfKind(selected, kind)
  {
    assert (selected + [fee])[..|selected|] == selected;
  }

  lemma {:induction false} OfKindReplaced(selected: seq<FeeRule>, i: nat, fee: FeeRule)
    requires OnePerKind(selected) && i < |selected| && selected[i].kind == fee.kind
    ensures OnePerKind(selected[i := fee])
    ensures forall kind ::
              OfKind(selected[i := fee], kind) == if kind == fee.kind then Some(fee) else OfKind(selected, kind)
  {
    hide OfKind;
    var n := |selected| - 1;
    var init, last := selected[..n], selected[n];
    var changed := if i == n then init else init[i := fee];
    var end := if i == n then fee else last;
    assert selected == init + [last] && selected[i := fee] == changed + [end];
    OfKindAppended(init, last);
    OfKindAppended(changed, end);
    if i < n {
      OfKindReplaced(init, i, fee);
      assert init[i].kind == fee.kind && last.kind != fee.kind;
    }
    forall kind
      ensures OfKind(selected[i := fee], kind) == if kind == fee.kind then Some(fee) else OfKind(selected, kind)
    {
      assert OfKind(selected[i := fee], kind) == OfKind(changed + [end], kind);
      assert OfKind(selected, kind) == OfKind(init + [last], kind);
    }
  }

  lemma CurrentAppended(fees: seq<FeeRule>, fee: FeeRule, date: int, market: Option<string>)
    ensures forall kind :: Current(fees + [fee], date, market, kind)
                           == Superseded(Current(fees, date, market, kind), fee, date, market, kind)
  {
    assert (fees + [fee])[..|fees|] == fees;
  }

  method Find(selected: seq<FeeRule>, kind: FeeKind) returns (at: nat)
    ensures at <= |selected|
    ensures at < |selected| ==> selected[at].kind == kind
    ensures forall i :: 0 <= i < at ==> selected[i].kind != kind
  {
    at := 0;
    while at < |selected| && selected[at].kind != kind
      invariant at <= |selected| && forall i :: 0 <= i < at ==> selected[i].kind != kind
    {
      at := at + 1;
    }
  }

  // One pass over the schedule keeps, of every kind, the entry in force.
  method FeesAt(fees: seq<FeeRule>, date: int, market: Option<string>) returns (selected: seq<FeeRule>)
    ensures OnePerKind(selected)
    ensures forall kind :: OfKind(selected, kind) == Current(fees, date, market, kind)
  {
    hide OfKind, Current, Applies;
    selected := [];
    NothingSelected(fees, date, market);
    for i := 0 to |fees|
      invariant OnePerKind(selected)
      invariant forall kind :: OfKind(selected, kind) == Current(fees[..i], date, market, kind)
    {
      var fee := fees[i];
      assert fees[..i + 1] == fees[..i] + [fee];
      CurrentAppended(fees[..i], fee, date, market);
      if Applies(fee, date, market) {
        var at := Find(selected, fee.kind);
        if at < |selected| {
          OfKindAt(selected, at);
          if fee.effectiveDate > selected[at].effectiveDate {
            OfKindReplaced(selected, at, fee);
            selected := selected[at := fee];
          }
        } else {
          OfKindAppended(selected, fee);
          NotSelected(selected, fee.kind);
          selected := selected + [fee];
        }
      }
    }
    assert fees[..|fees|] == fees;
  }

  lemma NothingSelected(fees: seq<FeeRule>, date: int, market: Option<string>)
    ensures forall kind :: OfKind([], kind) == Current(fees[..0], date, market, kind)
  {
  }

  lemma NotSelected(selected: seq<FeeRule>, kind: FeeKind)
    requires forall i :: 0 <= i < |selected| ==> selected[i].kind != kind
    ensures OfKind(selected, kind) == None
  {
  }

  // ---- What a trade costs -----------------------------------------------------------------------

  function Charge(fee: FeeRule, amount: real): real {
    var value := amount * fee.rate;
    if fee.minFee.Some? && fee.minFee.value > value then fee.minFee.value else value
  }

  function Part(fee: Option<FeeRule>, side: Side, amount: real): real {
    if fee.Some? && fee.value.side.Covers(side) then Charge(fee.value, amount) else 0.0
  }

  function TradeCost(fees: seq<FeeRule>, side: Side, amount: real, market: Option<string>, date: int): real {
    Part(Current(fees, date, market, Commission), side, amount)
    + Part(Current(fees, date, market, StampTax), side, amount)
    + Part(Current(fees, date, market, TransferFee), side, amount)
  }

  method TradeCostAt(fees: seq<FeeRule>, side: Side, amount: real, market: Option<string>, date: int)
    returns (commission: real, stampTax: real, transferFee: real, total: real)
    ensures commission == Part(Current(fees, date, market, Commission), side, amount)
    ensures stampTax == Part(Current(fees, date, market, StampTax), side, amount)
    ensures transferFee == Part(Current(fees, date, market, TransferFee), side, amount)
    ensures total == TradeCost(fees, side, amount, market, date) == commission + stampTax + transferFee
  {
    hide OfKind, Current, Charge;
    var selected := FeesAt(fees, date, market);
    commission, stampTax, transferFee := 0.0, 0.0, 0.0;
    NothingSelected([], date, market);
    for i := 0 to |selected|
      invariant commission == Part(OfKind(selected[..i], Commission), side, amount)
      invariant stampTax == Part(OfKind(selected[..i], StampTax), side, amount)
      invariant transferFee == Part(OfKind(selected[..i], TransferFee), side, amount)
    {
      var fee := selected[i];
      assert selected[..i + 1] == selected[..i] + [fee];
      OfKindAppended(selected[..i], fee);
      NotSelected(selected[..i], fee.kind);
      if fee.side.Covers(side) {
        var value := Charge(fee, amount);
        match fee.kind {
          case Commission => commission := commission + value;
          case StampTax => stampTax := stampTax + value;
          case TransferFee => transferFee := transferFee + value;
        }
      }
    }
    assert selected[..|selected|] == selected;
    total := commission + stampTax + transferFee;
  }

  // The fee in force is charged on the sides it names: the rate on the amount or, if that is
  // more, the minimum.
  lemma PartIsGreater(fee: FeeRule, side: Side, amount: real)
    ensures Part(None, side, amount) == 0.0
    ensures var part := Part(Some(fee), side, amount);
            if (fee.side == OnBuys && side == Sell) || (fee.side == OnSales && side == Buy) then part == 0.0
            else
              && part >= amount * fee.rate && (fee.minFee.Some? ==> part >= fee.minFee.value)
              && (part == amount * fee.rate || Some(part) == fee.minFee)
  {
  }

  lemma ChargeBounds(fee: FeeRule, amount: real)
    requires amount >= 0.0
    ensures 0.0 <= amount * fee.rate <= Charge(fee, amount)
    ensures fee.minFee.Some? ==> fee.minFee.value <= Charge(fee, amount)
    ensures fee.minFee.None? || fee.minFee.value <= 0.0 ==> Charge(fee, amount) == amount * fee.rate
  {
  }

  lemma CostNonNegative(fees: seq<FeeRule>, side: Side, amount: real, market: Option<string>, date: int)
    requires amount >= 0.0
    ensures TradeCost(fees, side, amount, market, date) >= 0.0
  {
    hide Current, Charge;
    forall kind ensures Part(Current(fees, date, market, kind), side, amount) >= 0.0 {
      var current := Current(fees, date, market, kind);
      if current.Some? {
        ChargeBounds(current.value, amount);
      }
    }
  }

  // ---- When every sale pays its fees ------------------------------------------------------------

  function RateOf(fee: Option<FeeRule>, side: Side): real {
    if fee.Some? && fee.value.side.Covers(side) then fee.value.rate else 0.0
  }

  // What sales are charged, all kinds together, as a fraction of the amount.
  function SaleRate(fees: seq<FeeRule>, market: Option<string>, date: int): real {
    RateOf(Current(fees, date, market, Commission), Sell)
    + RateOf(Current(fees, date, market, StampTax), Sell)
    + RateOf(Current(fees, date, market, TransferFee), Sell)
  }

  predicate HasMinimum(fee: Option<FeeRule>) {
    fee.Some? && fee.value.side.Covers(Sell) && fee.value.minFee.Some? && fee.value.minFee.value > 0.0
  }

  // No fee on sales has a positive minimum, and together they take at most everything.
  predicate Proportionate(fees: seq<FeeRule>, market: Option<string>, date: int) {
    && (forall kind :: !HasMinimum(Current(fees, date, market, kind)))
    && SaleRate(fees, market, date) <= 1.0
  }

  // On a date, every sale pays its own fees exactly when the schedule is proportionate.
  lemma SalesPayIff(fees: seq<FeeRule>, market: Option<string>, date: int)
    ensures (forall amount :: amount > 0.0 ==> TradeCost(fees, Sell, amount, market, date) <= amount)
            <==> Proportionate(fees, market, date)
  {
    hide Current, TradeCost, SaleRate;
    if Proportionate(fees, market, date) {
      forall amount | amount > 0.0 ensures TradeCost(fees, Sell, amount, market, date) <= amount {
        CostIsRate(fees, market, date, amount);
        RateTakesPart(amount, SaleRate(fees, market, date));
      }
    } else if SaleRate(fees, market, date) > 1.0 {
      CostCoversRates(fees, market, date, 1.0);
    } else {
      var kind :| HasMinimum(Current(fees, date, market, kind));
      var half := Current(fees, date, market, kind).value.minFee.value / 2.0;
      CostCoversMinimum(fees, market, date, kind, half);
      assert half > 0.0 && TradeCost(fees, Sell, half, market, date) > half;
    }
  }

  lemma CostIsRate(fees: seq<FeeRule>, market: Option<string>, date: int, amount: real)
    requires amount > 0.0 && forall kind :: !HasMinimum(Current(fees, date, market, kind))
    ensures TradeCost(fees, Sell, amount, market, date) == amount * SaleRate(fees, market, date)
  {
    hide Current, Charge;
    forall kind
      ensures var fee := Current(fees, date, market, kind); Part(fee, Sell, amount) == amount * RateOf(fee, Sell)
    {
      var fee := Current(fees, date, market, kind);
      if fee.Some? {
        ChargeBounds(fee.value, amount);
      }
    }
    var a := RateOf(Current(fees, date, market, Commission), Sell);
    var b := RateOf(Current(fees, date, market, StampTax), Sell);
    var c := RateOf(Current(fees, date, market, TransferFee), Sell);
    assert amount * a + amount * b + amount * c == amount * (a + b + c);
  }

  lemma CostCoversRates(fees: seq<FeeRule>, market: Option<string>, date: int, amount: real)
    requires amount == 1.0
    ensures TradeCost(fees, Sell, amount, market, date) >= SaleRate(fees, market, date)
  {
    hide Current, Charge;
    forall kind
      ensures var fee := Current(fees, date, market, kind); Part(fee, Sell, amount) >= RateOf(fee, Sell)
    {
      var fee := Current(fees, date, market, kind);
      if fee.Some? {
        ChargeBounds(fee.value, amount);
      }
    }
  }

  lemma CostCoversMinimum(fees: seq<FeeRule>, market: Option<string>, date: int, kind: FeeKind, amount: real)
    requires amount > 0.0 && HasMinimum(Current(fees, date, market, kind))
    ensures TradeCost(fees, Sell, amount, market, date) >= Current(fees, date, market, kind).value.minFee.value
  {
    hide Current, Charge;
    forall k ensures Part(Current(fees, date, market, k), Sell, amount) >= 0.0 {
      var fee := Current(fees, date, market, k);
      if fee.Some? {
        ChargeBounds(fee.value, amount);
      }
    }
    ChargeBounds(Current(fees, date, market, kind).value, amount);
  }

  lemma RateTakesPart(amount: real, rate: real)
    requires amount > 0.0 && rate <= 1.0
    ensures amount * rate <= amount
  {
    assert amount * (1.0 - rate) >= 0.0;
  }

  // ---- Boards -----------------------------------------------------------------------------------

  datatype BoardRule = BoardRule(market: string, limitPct: real, stLimitPct: real, minLot: Pos, lotStep: Pos) {
    function Pct(isSt: bool): real {
      if isSt then stLimitPct else limitPct
    }

    function LimitUp(prevClose: real, isSt: bool): real {
      Round2(prevClose * (1.0 + Pct(isSt)))
    }

    function LimitDown(prevClose: real, isSt: bool): real {
      Round2(prevClose * (1.0 - Pct(isSt)))
    }
  }

  // A limit is the tick nearest to the last close moved by its percentage.
  lemma LimitsAreNearest(rule: BoardRule, prevClose: real, isSt: bool, pct: real)
    requires pct == if isSt then rule.stLimitPct else rule.limitPct
    ensures IsRounded(prevClose + prevClose * pct, rule.LimitUp(prevClose, isSt))
    ensures IsRounded(prevClose - prevClose * pct, rule.LimitDown(prevClose, isSt))
  {
    hide IsRounded;
    var up, down := prevClose * (1.0 + rule.Pct(isSt)), prevClose * (1.0 - rule.Pct(isSt));
    assert rule.LimitUp(prevClose, isSt) == Round2(up) && rule.LimitDown(prevClose, isSt) == Round2(down);
    hide Round2;
    Round2IsNearest(up);
    Round2IsNearest(down);
    Moved(prevClose, rule.Pct(isSt), pct, up, down);
  }

  lemma Moved(x: real, pct: real, same: real, up: real, down: real)
    requires up == x * (1.0 + pct) && down == x * (1.0 - pct) && pct == same
    ensures up == x + x * same && down == x - x * same
  {
  }

  // A board under any fees at all.
  function BoardWith(rule: BoardRule, fee: (Side, real, int) -> real): Board {
    Board(rule.minLot, rule.lotStep,
          (close: real, isSt: bool) => rule.LimitUp(close, isSt),
          (close: real, isSt: bool) => rule.LimitDown(close, isSt), fee)
  }

  function FeesOf(rule: BoardRule, fees: seq<FeeRule>): (Side, real, int) -> real {
    (side: Side, amount: real, date: int) => TradeCost(fees, side, amount, Some(rule.market), date)
  }

  // ---- The rules file that ships ------------------------------------------------------------------

  // Days since 1970-01-01.
  const STAMP_2008: int := 14141
  const TRANSFER_2015: int := 16648
  const TRANSFER_2022: int := 19111
  const STAMP_2023: int := 19597
  const COMMISSION_2024: int := 19723

  function ShippedFees(): seq<FeeRule> {
    [ FeeEntry(Commission, 0.00025, OnBoth, Some(5.0), [], COMMISSION_2024),
      FeeEntry(StampTax, 0.001, OnSales, None, [], STAMP_2008),
      FeeEntry(StampTax, 0.0005, OnSales, None, [], STAMP_2023),
      FeeEntry(TransferFee, 0.00002, OnBoth, None, ["SH", "SZ"], TRANSFER_2015),
      FeeEntry(TransferFee, 0.00001, OnBoth, None, ["SH", "SZ", "BJ"], TRANSFER_2022) ]
  }

  function ShanghaiMain(): BoardRule {
    BoardRule("SH", 0.1, 0.05, 100, 100)
  }

  lemma ShippedCurrent(date: int)
    ensures var fees, sh := ShippedFees(), Some("SH");
            && Current(fees, date, sh, Commission) == (if date >= COMMISSION_2024 then Some(fees[0]) else None)
            && Current(fees, date, sh, StampTax)
               == (if date >= STAMP_2023 then Some(fees[2]) else if date >= STAMP_2008 then Some(fees[1]) else None)
            && Current(fees, date, sh, TransferFee)
               == (if date >= TRANSFER_2022 then Some(fees[4])
                   else if date >= TRANSFER_2015 then Some(fees[3]) else None)
  {
    var fees, sh := ShippedFees(), Some("SH");
    assert forall kind :: Current([], date, sh, kind) == None;
    hide Current;
    assert "SH" in fees[3].markets && "SH" in fees[4].markets by {
      assert fees[3].markets[0] == "SH" && fees[4].markets[0] == "SH";
    }
    assert fees == [] + [fees[0]] + [fees[1]] + [fees[2]] + [fees[3]] + [fees[4]];
    CurrentAppended([], fees[0], date, sh);
    CurrentAppended([] + [fees[0]], fees[1], date, sh);
    CurrentAppended([] + [fees[0]] + [fees[1]], fees[2], date, sh);
    CurrentAppended([] + [fees[0]] + [fees[1]] + [fees[2]], fees[3], date, sh);
    CurrentAppended([] + [fees[0]] + [fees[1]] + [fees[2]] + [fees[3]], fees[4], date, sh);
  }

  // Under the rules that ship, a Shanghai sale pays its own fees exactly when it predates
  // the minimum commission or 99.949% of it comes to at least that minimum.
  lemma ShippedSalePaysIff(amount: real, date: int)
    requires amount > 0.0
    ensures TradeCost(ShippedFees(), Sell, amount, Some("SH"), date) <= amount
            <==> date < COMMISSION_2024 || amount * 0.99949 >= 5.0
  {
    hide Current;
    ShippedCurrent(date);
  }
}
