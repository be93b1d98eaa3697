// Corporate-action price adjustment (crates/core/src/adjust.rs): forward adjustment
// anchored at a date and backward adjustment from the first bar.

module Adjust {
  import opened Wrappers
  import opened Reals
  import opened Sequences

  // Dates are day numbers. Turnover rate and volume unit pass through like `volume`.
  datatype Bar = Bar(
    date: int, open: real, close: real, high: real, low: real, volume: real, amount: Option<real>, pct: Option<real>)

  datatype Action = Action(
    exDate: int, noticeDate: Option<int>, cashDiv: real, bonusShare: real, rightsRatio: real, rightsPrice: Option<real>)

  // Ratios are per-share magnitudes; the theoretical ex price divides by 1 + B + R.
  type CorporateAction = a: Action | 1.0 + a.bonusShare + EffectiveRatio(a) != 0.0
    witness Action(0, None, 0.0, 0.0, 0.0, None)

  datatype Warning =
    | RightsWithoutPrice(exDate: int)
    | MissingPrevClose(exDate: int)
    | NonPositivePrevClose(exDate: int, prevClose: real)
    | NonPositiveExPrice(exDate: int, exPrice: real)

  datatype Factor = Factor(exDate: int, ratio: real)

  datatype Adjusted = Adjusted(bars: seq<Bar>, warnings: seq<Warning>)

  ghost predicate SortedBars(bars: seq<Bar>) {
    forall i, j :: 0 <= i < j < |bars| ==> bars[i].date <= bars[j].date
  }

  // ---- Which actions apply ------------------------------------------------------------

  predicate Eligible(a: Action, asOf: int, cutoff: Option<int>) {
    a.exDate <= asOf && (cutoff.Some? && a.noticeDate.Some? ==> a.noticeDate.value <= cutoff.value)
  }

  function Knowable(actions: seq<CorporateAction>, asOf: int, cutoff: Option<int>): seq<CorporateAction> {
    if actions == [] then []
    else (if Eligible(actions[0], asOf, cutoff) then [actions[0]] else []) + Knowable(actions[1..], asOf, cutoff)
  }

  // The knowable actions are those with an ex-date up to `asOf` and, where both dates are
  // given, a notice up to the cutoff: all of them, in the order given.
  lemma {:induction false} KnowableAppend(
      actions: seq<CorporateAction>, a: CorporateAction, asOf: int, cutoff: Option<int>)
    ensures var known, more := Knowable(actions, asOf, cutoff), Knowable(actions + [a], asOf, cutoff);
            if a.exDate <= asOf && (cutoff.None? || a.noticeDate.None? || a.noticeDate.value <= cutoff.value)
            then more == known + [a] else more == known
    ensures Knowable([], asOf, cutoff) == []
  {
    if actions == [] {
      assert [] + [a] == [a] && [a][1..] == [];
      assert Knowable([a], asOf, cutoff) == if Eligible(a, asOf, cutoff) then [a] else [];
    } else {
      KnowableAppend(actions[1..], a, asOf, cutoff);
      assert (actions + [a])[1..] == actions[1..] + [a];
      var head := if Eligible(actions[0], asOf, cutoff) then [actions[0]] else [];
      Associate(head, Knowable(actions[1..], asOf, cutoff), [a]);
    }
  }

  lemma {:induction false} KnowableIn(actions: seq<CorporateAction>, asOf: int, cutoff: Option<int>)
    ensures forall a :: a in Knowable(actions, asOf, cutoff) ==> a.exDate <= asOf
  {
    if actions != [] {
      KnowableIn(actions[1..], asOf, cutoff);
    }
  }

  // Stable sort by ex-date.
  function Insert(a: CorporateAction, sorted: seq<CorporateAction>): seq<CorporateAction> {
    if sorted == [] || a.exDate <= sorted[0].exDate then [a] + sorted
    else [sorted[0]] + Insert(a, sorted[1..])
  }

  function Sort(actions: seq<CorporateAction>): seq<CorporateAction> {
    if actions == [] then [] else Insert(actions[0], Sort(actions[1..]))
  }

  ghost predicate SortedActions(actions: seq<CorporateAction>) {
    forall i, j :: 0 <= i < j < |actions| ==> actions[i].exDate <= actions[j].exDate
  }

  function OnDate(actions: seq<CorporateAction>, date: int): seq<CorporateAction> {
    if actions == [] then []
    else if actions[0].exDate == date then [actions[0]] + OnDate(actions[1..], date)
    else OnDate(actions[1..], date)
  }

  lemma {:induction false} InsertSorts(a: CorporateAction, sorted: seq<CorporateAction>)
    requires SortedActions(sorted)
    ensures SortedActions(Insert(a, sorted))
    ensures forall x :: x in Insert(a, sorted) ==> x == a || x in sorted
  {
    if sorted != [] && a.exDate > sorted[0].exDate {
      InsertSorts(a, sorted[1..]);
      assert forall x :: x in Insert(a, sorted[1..]) ==> sorted[0].exDate <= x.exDate;
    }
  }

  lemma {:induction false} InsertKeepsDates(a: CorporateAction, sorted: seq<CorporateAction>, date: int)
    ensures OnDate(Insert(a, sorted), date)
         == if a.exDate == date then [a] + OnDate(sorted, date) else OnDate(sorted, date)
  {
    if sorted != [] && a.exDate > sorted[0].exDate {
      InsertKeepsDates(a, sorted[1..], date);
      var rest := Insert(a, sorted[1..]);
      assert ([sorted[0]] + rest)[1..] == rest;
    } else {
      assert ([a] + sorted)[1..] == sorted;
    }
  }

  // Sorting orders by ex-date and keeps, date by date, the actions it was given in the
  // order it was given them.
  lemma {:induction false} SortIsStable(actions: seq<CorporateAction>, date: int)
    ensures SortedActions(Sort(actions)) && OnDate(Sort(actions), date) == OnDate(actions, date)
  {
    if actions != [] {
      SortIsStable(actions[1..], date);
      InsertSorts(actions[0], Sort(actions[1..]));
      InsertKeepsDates(actions[0], Sort(actions[1..]), date);
    }
  }

  // ---- Factors ---------------------------------------------------------------------------

  // A rights issue without a price counts as none.
  function EffectiveRatio(a: Action): real {
    if a.rightsRatio > 0.0 && a.rightsPrice.None? then 0.0 else a.rightsRatio
  }

  function RightsPrice(a: Action): real {
    if a.rightsPrice.Some? then a.rightsPrice.value else 0.0
  }

  // Bars strictly before `date`, on date-sorted bars.
  function CountBefore(bars: seq<Bar>, date: int): (n: nat)
    ensures n <= |bars|
  {
    if bars == [] || bars[0].date >= date then 0 else 1 + CountBefore(bars[1..], date)
  }

  function ExPrice(a: CorporateAction, c: real): real {
    (c - a.cashDiv + RightsPrice(a) * EffectiveRatio(a)) / (1.0 + a.bonusShare + EffectiveRatio(a))
  }

  function FactorOf(bars: seq<Bar>, a: CorporateAction): seq<Factor> {
    var n := CountBefore(bars, a.exDate);
    if n == 0 || bars[n - 1].close <= 0.0 || ExPrice(a, bars[n - 1].close) <= 0.0 then []
    else [Factor(a.exDate, ExPrice(a, bars[n - 1].close) / bars[n - 1].close)]
  }

  function WarningsOf(bars: seq<Bar>, a: CorporateAction): seq<Warning> {
    var n := CountBefore(bars, a.exDate);
    if n == 0 then [MissingPrevClose(a.exDate)]
    else if bars[n - 1].close <= 0.0 then [NonPositivePrevClose(a.exDate, bars[n - 1].close)]
    else
      var x := ExPrice(a, bars[n - 1].close);
      (if a.rightsRatio > 0.0 && a.rightsPrice.None? then [RightsWithoutPrice(a.exDate)] else [])
      + (if x <= 0.0 then [NonPositiveExPrice(a.exDate, x)] else [])
  }

  function FactorsOf(bars: seq<Bar>, actions: seq<CorporateAction>): seq<Factor> {
    if actions == [] then [] else FactorOf(bars, actions[0]) + FactorsOf(bars, actions[1..])
  }

  function AllWarnings(bars: seq<Bar>, actions: seq<CorporateAction>): seq<Warning> {
    if actions == [] then [] else WarningsOf(bars, actions[0]) + AllWarnings(bars, actions[1..])
  }

  function Factors(bars: seq<Bar>, actions: seq<CorporateAction>, asOf: int, cutoff: Option<int>): seq<Factor> {
    FactorsOf(bars, Sort(Knowable(actions, asOf, cutoff)))
  }

  function Warnings(bars: seq<Bar>, actions: seq<CorporateAction>, asOf: int, cutoff: Option<int>): seq<Warning> {
    AllWarnings(bars, Sort(Knowable(actions, asOf, cutoff)))
  }

  lemma {:induction false} CountBeforeSplits(bars: seq<Bar>, date: int)
    requires SortedBars(bars)
    ensures forall i :: 0 <= i < |bars| ==> (i < CountBefore(bars, date) <==> bars[i].date < date)
  {
    if bars != [] && bars[0].date < date {
      CountBeforeSplits(bars[1..], date);
      assert forall i :: 0 < i < |bars| ==> bars[i] == bars[1..][i - 1];
    }
  }

  // The last bar before a date, if there is one.
  ghost predicate IsLastBefore(bars: seq<Bar>, date: int, last: nat) {
    last < |bars| && forall i :: 0 <= i < |bars| ==> (i <= last <==> bars[i].date < date)
  }

  lemma LastBeforeCounts(bars: seq<Bar>, date: int, last: nat)
    requires SortedBars(bars) && IsLastBefore(bars, date, last)
    ensures CountBefore(bars, date) == last + 1
  {
    CountBeforeSplits(bars, date);
    var n := CountBefore(bars, date);
    assert bars[last].date < date && last < n;
    assert bars[n - 1].date < date;
  }

  // At the price x after the ex-date, with c the close before it, a holder is worth what he
  // was: one share has become 1 + B + R, paid D and cost what the rights cost. A rights
  // issue that has no price takes no part.
  ghost predicate KeepsValue(a: Action, c: real, x: real) {
    if a.rightsRatio <= 0.0 || a.rightsPrice.Some? then
      var p := if a.rightsPrice.Some? then a.rightsPrice.value else 0.0;
      (1.0 + a.bonusShare + a.rightsRatio) * x + a.cashDiv - p * a.rightsRatio == c
    else
      (1.0 + a.bonusShare) * x + a.cashDiv == c
  }

  lemma ExPriceKeepsValue(a: CorporateAction, c: real, x: real)
    ensures KeepsValue(a, c, x) <==> x == ExPrice(a, c)
  {
    var shares := 1.0 + a.bonusShare + EffectiveRatio(a);
    var worth := c - a.cashDiv + RightsPrice(a) * EffectiveRatio(a);
    assert shares * ExPrice(a, c) == worth;
    if shares * x == worth {
      Quotient(worth, shares, x);
    }
  }

  // What a ratio means: it takes the last close before the ex-date to the one price that
  // keeps a holder's value, and exists exactly when that close and that price are positive.
  lemma HolderKeepsValue(bars: seq<Bar>, a: CorporateAction, last: nat, x: real)
    requires SortedBars(bars) && IsLastBefore(bars, a.exDate, last) && KeepsValue(a, bars[last].close, x)
    ensures bars[last].close > 0.0 && x > 0.0 <==> FactorOf(bars, a) != []
    ensures FactorOf(bars, a) != [] ==> |FactorOf(bars, a)| == 1
    ensures forall f :: f in FactorOf(bars, a) ==> f.exDate == a.exDate && f.ratio * bars[last].close == x
  {
    LastBeforeCounts(bars, a.exDate, last);
    ExPriceKeepsValue(a, bars[last].close, x);
    if bars[last].close > 0.0 {
      assert x / bars[last].close * bars[last].close == x;
    }
  }

  // The price that keeps a holder's value always exists.
  lemma SomePriceKeepsValue(a: CorporateAction, c: real) returns (x: real)
    ensures KeepsValue(a, c, x)
  {
    x := ExPrice(a, c);
    ExPriceKeepsValue(a, c, x);
  }

  // An action without a ratio says why, and one with a ratio warns at most of rights
  // that have no price.
  lemma EveryActionIsAccounted(bars: seq<Bar>, a: CorporateAction, last: nat, x: real)
    requires SortedBars(bars)
    ensures (forall i :: 0 <= i < |bars| ==> bars[i].date >= a.exDate) ==>
              FactorOf(bars, a) == [] && WarningsOf(bars, a) == [MissingPrevClose(a.exDate)]
    ensures IsLastBefore(bars, a.exDate, last) && KeepsValue(a, bars[last].close, x) ==>
              var c := bars[last].close;
              if c <= 0.0 then WarningsOf(bars, a) == [NonPositivePrevClose(a.exDate, c)]
              else
                var rights := if a.rightsRatio > 0.0 && a.rightsPrice.None? then [RightsWithoutPrice(a.exDate)] else [];
                WarningsOf(bars, a) == rights + if x > 0.0 then [] else [NonPositiveExPrice(a.exDate, x)]
  {
    CountBeforeSplits(bars, a.exDate);
    if IsLastBefore(bars, a.exDate, last) && KeepsValue(a, bars[last].close, x) {
      LastBeforeCounts(bars, a.exDate, last);
      ExPriceKeepsValue(a, bars[last].close, x);
    }
  }

  method ActionFactor(bars: seq<Bar>, action: CorporateAction) returns (factor: seq<Factor>, warnings: seq<Warning>)
    ensures factor == FactorOf(bars, action) && warnings == WarningsOf(bars, action)
  {
    factor, warnings := [], [];
    var idx := CountBefore(bars, action.exDate);
    if idx == 0 {
      warnings := [MissingPrevClose(action.exDate)];
      return;
    }
    var c := bars[idx - 1].close;
    if c <= 0.0 {
      warnings := [NonPositivePrevClose(action.exDate, c)];
      return;
    }
    var ratio, price := action.rightsRatio, RightsPrice(action);
    if action.rightsPrice.None? && action.rightsRatio > 0.0 {
      warnings := [RightsWithoutPrice(action.exDate)];
      ratio, price := 0.0, 0.0;
    }
    var x := (c - action.cashDiv + price * ratio) / (1.0 + action.bonusShare + ratio);
    assert x == ExPrice(action, c);
    if x <= 0.0 {
      warnings := warnings + [NonPositiveExPrice(action.exDate, x)];
      return;
    }
    factor := [Factor(action.exDate, x / c)];
  }

  method ActionFactors(bars: seq<Bar>, actions: seq<CorporateAction>, asOf: int, cutoff: Option<int>)
    returns (factors: seq<Factor>, warnings: seq<Warning>)
    ensures factors == Factors(bars, actions, asOf, cutoff)
    ensures warnings == Warnings(bars, actions, asOf, cutoff)
  {
    hide FactorOf, WarningsOf, Sort, Knowable;
    var sorted := Sort(Knowable(actions, asOf, cutoff));
    factors, warnings := [], [];
    for i := 0 to |sorted|
      invariant factors + FactorsOf(bars, sorted[i..]) == Factors(bars, actions, asOf, cutoff)
      invariant warnings + AllWarnings(bars, sorted[i..]) == Warnings(bars, actions, asOf, cutoff)
    {
      var factor, warning := ActionFactor(bars, sorted[i]);
      assert sorted[i..][1..] == sorted[i + 1..];
      Associate(factors, factor, FactorsOf(bars, sorted[i + 1..]));
      Associate(warnings, warning, AllWarnings(bars, sorted[i + 1..]));
      factors, warnings := factors + factor, warnings + warning;
    }
  }

  ghost predicate SortedFactors(factors: seq<Factor>) {
    forall i, j :: 0 <= i < j < |factors| ==> factors[i].exDate <= factors[j].exDate
  }

  ghost predicate Positive(factors: seq<Factor>) {
    forall i :: 0 <= i < |factors| ==> factors[i].ratio > 0.0
  }

  lemma FactorOfOne(bars: seq<Bar>, a: CorporateAction)
    ensures var fs := FactorOf(bars, a);
            |fs| <= 1 && forall f :: f in fs ==> f.exDate == a.exDate && f.ratio > 0.0
  {
    var n := CountBefore(bars, a.exDate);
    if FactorOf(bars, a) != [] {
      PositiveRatio(ExPrice(a, bars[n - 1].close), bars[n - 1].close);
    }
  }

  lemma PositiveRatio(x: real, c: real)
    requires x > 0.0 && c > 0.0
    ensures x / c > 0.0
  {
  }

  lemma {:induction false} FactorsOfSorted(bars: seq<Bar>, actions: seq<CorporateAction>)
    requires SortedActions(actions)
    ensures var fs := FactorsOf(bars, actions);
            && SortedFactors(fs) && Positive(fs)
            && forall f :: f in fs ==> exists a :: a in actions && a.exDate == f.exDate
  {
    if actions != [] {
      var head, tail := FactorOf(bars, actions[0]), FactorsOf(bars, actions[1..]);
      FactorsOfSorted(bars, actions[1..]);
      FactorOfOne(bars, actions[0]);
      assert FactorsOf(bars, actions) == head + tail;
      hide FactorOf, FactorsOf;
      assert forall f :: f in tail ==> actions[0].exDate <= f.exDate;
      assert actions[0] in actions;
    }
  }

  lemma FactorsAreSorted(bars: seq<Bar>, actions: seq<CorporateAction>, asOf: int, cutoff: Option<int>)
    ensures SortedFactors(Factors(bars, actions, asOf, cutoff)) && Positive(Factors(bars, actions, asOf, cutoff))
  {
    SortIsStable(Knowable(actions, asOf, cutoff), 0);
    FactorsOfSorted(bars, Sort(Knowable(actions, asOf, cutoff)));
  }

  // Action by action: the lists concatenate what each action yields, in order.
  lemma {:induction false} FactorsAppend(bars: seq<Bar>, actions: seq<CorporateAction>, a: CorporateAction)
    ensures FactorsOf(bars, actions + [a]) == FactorsOf(bars, actions) + FactorOf(bars, a)
    ensures AllWarnings(bars, actions + [a]) == AllWarnings(bars, actions) + WarningsOf(bars, a)
    ensures FactorsOf(bars, []) == [] && AllWarnings(bars, []) == []
  {
    hide FactorOf, WarningsOf;
    if actions == [] {
      assert [] + [a] == [a] && [a][1..] == [];
    } else {
      FactorsAppend(bars, actions[1..], a);
      assert (actions + [a])[1..] == actions[1..] + [a];
    }
  }

  // Product of the ratios whose ex-date lies after `date`.
  function After(factors: seq<Factor>, date: int): real {
    if factors == [] then 1.0
    else (if factors[0].exDate > date then factors[0].ratio else 1.0) * After(factors[1..], date)
  }

  lemma {:induction false} AfterPositive(factors: seq<Factor>, date: int)
    requires Positive(factors)
    ensures After(factors, date) > 0.0
  {
    if factors != [] {
      AfterPositive(factors[1..], date);
    }
  }

  lemma {:induction false} AfterAppend(factors: seq<Factor>, f: Factor, date: int)
    ensures After([], date) == 1.0
    ensures After(factors + [f], date) == if f.exDate <= date then After(factors, date)
                                          else After(factors, date) * f.ratio
  {
    if factors == [] {
      assert [] + [f] == [f] && [f][1..] == [];
    } else {
      AfterAppend(factors[1..], f, date);
      assert (factors + [f])[1..] == factors[1..] + [f];
      var head := if factors[0].exDate > date then factors[0].ratio else 1.0;
      MulAssociates(head, After(factors[1..], date), f.ratio);
    }
  }

  // Ratios that have taken effect by a date do not count from there on.
  lemma {:induction false} NothingAfter(factors: seq<Factor>, date: int)
    requires forall f :: f in factors ==> f.exDate <= date
    ensures After(factors, date) == 1.0
  {
    if factors != [] {
      NothingAfter(factors[1..], date);
    }
  }

  // ---- Forward adjustment --------------------------------------------------------------

  datatype Prices = Prices(open: real, close: real, high: real, low: real)

  function PricesOf(bar: Bar): Prices {
    Prices(bar.open, bar.close, bar.high, bar.low)
  }

  function Times(p: Prices, factor: real): Prices {
    Prices(p.open * factor, p.close * factor, p.high * factor, p.low * factor)
  }

  // Percent change between closes, as the adapters compute it.
  function PercentChange(prev: real, close: real): Option<real> {
    if prev > 0.0 then Some(Round2((close - prev) / prev * 100.0)) else None
  }

  function ScaleBar(bar: Bar, factor: real, prevAdjustedClose: Option<real>, keepPct: bool): Bar {
    var close := bar.close * factor;
    bar.(open := bar.open * factor, close := close, high := bar.high * factor, low := bar.low * factor,
         pct := if keepPct then bar.pct
                else if prevAdjustedClose.None? then None
                else PercentChange(prevAdjustedClose.value, close))
  }

  // Bars i.. scaled, given the factor and the adjusted close of the bar before.
  function ScaleFrom(
      bars: seq<Bar>, factors: seq<Factor>, i: nat, prevFactor: real, prevClose: Option<real>): (out: seq<Bar>)
    requires i <= |bars|
    ensures |out| == |bars| - i
    decreases |bars| - i
  {
    if i == |bars| then []
    else
      var f := After(factors, bars[i].date);
      var b := ScaleBar(bars[i], f, prevClose, f == prevFactor && bars[i].pct.Some?);
      [b] + ScaleFrom(bars, factors, i + 1, f, Some(b.close))
  }

  predicate Untouched(bars: seq<Bar>, factors: seq<Factor>) {
    forall bar | bar in bars :: After(factors, bar.date) == 1.0
  }

  function Forward(bars: seq<Bar>, factors: seq<Factor>): (out: seq<Bar>)
    ensures |out| == |bars|
  {
    if Untouched(bars, factors) then bars else ScaleFrom(bars, factors, 0, 1.0, None)
  }

  function Qfq(bars: seq<Bar>, actions: seq<CorporateAction>, anchor: int, cutoff: Option<int>): (out: seq<Bar>)
    ensures |out| == |bars|
  {
    Forward(bars, Factors(bars, actions, anchor, cutoff))
  }

  // Actions up to `date`: the length of the prefix with exDate <= date.
  function CountUpTo(factors: seq<Factor>, date: int): (n: nat)
    ensures n <= |factors|
  {
    if factors == [] || factors[0].exDate > date then 0 else 1 + CountUpTo(factors[1..], date)
  }

  function Product(factors: seq<Factor>): real {
    if factors == [] then 1.0 else factors[0].ratio * Product(factors[1..])
  }

  lemma {:induction false} SuffixProduct(factors: seq<Factor>, date: int)
    requires SortedFactors(factors)
    ensures After(factors, date) == Product(factors[CountUpTo(factors, date)..])
  {
    if factors != [] {
      SuffixProduct(factors[1..], date);
      if factors[0].exDate > date {
        assert factors[1..] == [] || factors[1].exDate > date;
        assert CountUpTo(factors[1..], date) == 0;
        assert factors[1..][0..] == factors[1..] && factors[0..] == factors;
      } else {
        var k := CountUpTo(factors[1..], date);
        assert factors[1..][k..] == factors[1 + k..];
      }
    }
  }

  method ComputeQfq(bars: seq<Bar>, actions: seq<CorporateAction>, anchor: int, cutoff: Option<int>)
    returns (adjusted: Adjusted)
    ensures adjusted == Adjusted(Qfq(bars, actions, anchor, cutoff), Warnings(bars, actions, anchor, cutoff))
  {
    hide After, Factors, Warnings, Untouched;
    var factors, warnings := ActionFactors(bars, actions, anchor, cutoff);
    FactorsAreSorted(bars, actions, anchor, cutoff);
    var barFactors := BarFactors(bars, factors);
    var allOne := true;
    for i := 0 to |bars|
      invariant allOne <==> forall j :: 0 <= j < i ==> barFactors[j] == 1.0
    {
      allOne := allOne && barFactors[i] == 1.0;
    }
    UntouchedByIndex(bars, factors, barFactors);
    if allOne {
      return Adjusted(bars, warnings);
    }
    var out := ScaleAll(bars, factors, barFactors);
    return Adjusted(out, warnings);
  }

  lemma UntouchedByIndex(bars: seq<Bar>, factors: seq<Factor>, barFactors: seq<real>)
    requires |barFactors| == |bars|
    requires forall j :: 0 <= j < |bars| ==> barFactors[j] == After(factors, bars[j].date)
    ensures Untouched(bars, factors) <==> forall j :: 0 <= j < |bars| ==> barFactors[j] == 1.0
  {
    assert forall j :: 0 <= j < |bars| ==> bars[j] in bars && barFactors[j] == After(factors, bars[j].date);
  }

  // Filled from the back: suffix[k] is the product of the ratios from k on.
  method SuffixProducts(factors: seq<Factor>) returns (suffix: array<real>)
    ensures fresh(suffix) && suffix.Length == |factors| + 1
    ensures forall k :: 0 <= k <= |factors| ==> suffix[k] == Product(factors[k..])
  {
    suffix := new real[|factors| + 1](_ => 1.0);
    hide Product;
    var k := |factors|;
    ProductNone(factors);
    while k > 0
      invariant 0 <= k <= |factors|
      invariant forall i :: k <= i <= |factors| ==> suffix[i] == Product(factors[i..])
    {
      k := k - 1;
      var rest := suffix[k + 1];
      suffix[k] := rest * factors[k].ratio;
      ProductStep(factors, k, rest);
    }
  }

  lemma ProductNone(factors: seq<Factor>)
    ensures Product(factors[|factors|..]) == 1.0
  {
  }

  lemma ProductStep(factors: seq<Factor>, k: nat, rest: real)
    requires k < |factors| && rest == Product(factors[k + 1..])
    ensures Product(factors[k..]) == rest * factors[k].ratio
  {
    assert factors[k..][1..] == factors[k + 1..];
  }

  method BarFactors(bars: seq<Bar>, factors: seq<Factor>) returns (barFactors: seq<real>)
    requires SortedFactors(factors)
    ensures |barFactors| == |bars|
    ensures forall j :: 0 <= j < |bars| ==> barFactors[j] == After(factors, bars[j].date)
  {
    hide After, Product;
    var suffix := SuffixProducts(factors);
    barFactors := [];
    for i := 0 to |bars|
      invariant |barFactors| == i
      invariant forall k :: 0 <= k <= |factors| ==> suffix[k] == Product(factors[k..])
      invariant forall j :: 0 <= j < i ==> barFactors[j] == After(factors, bars[j].date)
    {
      SuffixProduct(factors, bars[i].date);
      barFactors := barFactors + [suffix[CountUpTo(factors, bars[i].date)]];
    }
  }

  method ScaleAll(bars: seq<Bar>, ghost factors: seq<Factor>, barFactors: seq<real>) returns (out: seq<Bar>)
    requires |barFactors| == |bars|
    requires forall j :: 0 <= j < |bars| ==> barFactors[j] == After(factors, bars[j].date)
    ensures out == ScaleFrom(bars, factors, 0, 1.0, None)
  {
    hide After;
    out := [];
    var prevFactor := 1.0;
    for i := 0 to |bars|
      invariant |out| == i
      invariant ScaleFrom(bars, factors, 0, 1.0, None)
             == out + ScaleFrom(bars, factors, i, prevFactor, if i == 0 then None else Some(out[i - 1].close))
    {
      var factor := barFactors[i];
      var prevClose := if i == 0 then None else Some(out[i - 1].close);
      var b := ScaleBar(bars[i], factor, prevClose, factor == prevFactor && bars[i].pct.Some?);
      Associate(out, [b], ScaleFrom(bars, factors, i + 1, factor, Some(b.close)));
      out := out + [b];
      prevFactor := factor;
    }
  }

  lemma ScaleFromStep(bars: seq<Bar>, factors: seq<Factor>, i: nat, prevFactor: real, prevClose: Option<real>)
    requires i < |bars|
    ensures var f := After(factors, bars[i].date);
            var b := ScaleBar(bars[i], f, prevClose, f == prevFactor && bars[i].pct.Some?);
            ScaleFrom(bars, factors, i, prevFactor, prevClose)
                == [b] + ScaleFrom(bars, factors, i + 1, f, Some(b.close))
  {
    hide After, ScaleBar;
  }

  // The bar with its four prices multiplied; its date, volume and amount are its own.
  ghost predicate IsScaled(bar: Bar, factor: real, out: Bar) {
    && out.open == bar.open * factor && out.close == bar.close * factor
    && out.high == bar.high * factor && out.low == bar.low * factor
    && out.date == bar.date && out.volume == bar.volume && out.amount == bar.amount
  }

  lemma ScaleBarPrices(bar: Bar, factor: real, prevAdjustedClose: Option<real>, keepPct: bool)
    ensures var out := ScaleBar(bar, factor, prevAdjustedClose, keepPct);
            IsScaled(bar, factor, out) && PricesOf(out) == Times(PricesOf(bar), factor)
  {
  }

  lemma ScaledByOne(bar: Bar)
    ensures IsScaled(bar, 1.0, bar) && PricesOf(bar) == Times(PricesOf(bar), 1.0)
  {
  }

  lemma {:induction false} ScaleFromPrices(
      bars: seq<Bar>, factors: seq<Factor>, i: nat, prevFactor: real, prevClose: Option<real>, k: nat)
    requires i <= k < |bars|
    ensures var out := ScaleFrom(bars, factors, i, prevFactor, prevClose)[k - i];
            var factor := After(factors, bars[k].date);
            IsScaled(bars[k], factor, out) && PricesOf(out) == Times(PricesOf(bars[k]), factor)
    decreases |bars| - i
  {
    hide ScaleFrom, ScaleBar, After, Times, IsScaled;
    var f := After(factors, bars[i].date);
    var b := ScaleBar(bars[i], f, prevClose, f == prevFactor && bars[i].pct.Some?);
    ScaleFromStep(bars, factors, i, prevFactor, prevClose);
    ScaleBarPrices(bars[i], f, prevClose, f == prevFactor && bars[i].pct.Some?);
    if i < k {
      ScaleFromPrices(bars, factors, i + 1, f, Some(b.close), k);
    }
  }

  // Every bar's prices are scaled by the ratios of the actions still to come, and only
  // by those known at the anchor.
  lemma QfqPrices(bars: seq<Bar>, actions: seq<CorporateAction>, anchor: int, cutoff: Option<int>, k: nat)
    requires k < |bars|
    ensures var out := Qfq(bars, actions, anchor, cutoff);
            var factor := After(Factors(bars, actions, anchor, cutoff), bars[k].date);
            IsScaled(bars[k], factor, out[k]) && PricesOf(out[k]) == Times(PricesOf(bars[k]), factor)
  {
    hide After, IsScaled, Times, ScaleFrom, Factors;
    var factors := Factors(bars, actions, anchor, cutoff);
    if Untouched(bars, factors) {
      assert bars[k] in bars;
      ScaledByOne(bars[k]);
    } else {
      ScaleFromPrices(bars, factors, 0, 1.0, None, k);
    }
  }

  // From the anchor on prices are raw.
  lemma AnchorIsRaw(bars: seq<Bar>, actions: seq<CorporateAction>, anchor: int, cutoff: Option<int>, k: nat)
    requires k < |bars| && anchor <= bars[k].date
    ensures var out := Qfq(bars, actions, anchor, cutoff)[k];
            out.open == bars[k].open && out.close == bars[k].close && out.high == bars[k].high && out.low == bars[k].low
  {
    var known := Knowable(actions, anchor, cutoff);
    hide Qfq, Knowable, After;
    KnowableIn(actions, anchor, cutoff);
    SortIsStable(known, 0);
    SortContents(known);
    FactorsOfSorted(bars, Sort(known));
    NothingAfter(Factors(bars, actions, anchor, cutoff), bars[k].date);
    QfqPrices(bars, actions, anchor, cutoff, k);
  }

  // The quoted change is the nearest of two decimals: within half a hundredth of the true
  // percentage, for the previous close it is a percentage of; none without a positive one.
  lemma PercentChangeIsNearest(prev: real, close: real)
    ensures PercentChange(prev, close).Some? <==> prev > 0.0
    ensures prev > 0.0 ==>
              var v, p := PercentChange(prev, close).value, (close - prev) / prev;
              && -0.005 <= v - 100.0 * p <= 0.005 && (v * 100.0).Floor as real == v * 100.0
              && p * prev == close - prev
  {
    if prev > 0.0 {
      Round2IsNearest((close - prev) / prev * 100.0);
    }
  }

  // The bar quotes the change between the two closes.
  predicate Quotes(prev: Bar, bar: Bar) {
    bar.pct == PercentChange(prev.close, bar.close)
  }

  // `pct` passes through with the whole series, or when the bar gave one and the factor is
  // that of the bar before; otherwise it is computed anew, so that an ex-date shows no fake
  // crash. Then the adjusted bar quotes the change of the adjusted closes exactly when it
  // was computed anew or the raw bar quoted its own closes.
  lemma QfqPct(bars: seq<Bar>, factors: seq<Factor>, k: nat)
    requires Positive(factors) && k < |bars|
    ensures var out := Forward(bars, factors);
            var before := if k == 0 then 1.0 else After(factors, bars[k - 1].date);
            var kept := || (forall bar | bar in bars :: After(factors, bar.date) == 1.0)
                        || (bars[k].pct.Some? && After(factors, bars[k].date) == before);
            && (kept ==> out[k].pct == bars[k].pct)
            && (!kept && k == 0 ==> out[k].pct == None)
            && (k > 0 ==> (Quotes(out[k - 1], out[k]) <==> !kept || Quotes(bars[k - 1], bars[k])))
  {
    hide After, Quotes, ScaleFrom;
    if !Untouched(bars, factors) {
      ScaleFromPct(bars, factors, 0, 1.0, None, k);
      if k > 0 {
        var out := Forward(bars, factors);
        ScaleFromPrices(bars, factors, 0, 1.0, None, k - 1);
        ScaleFromPrices(bars, factors, 0, 1.0, None, k);
        AfterPositive(factors, bars[k].date);
        if After(factors, bars[k].date) == After(factors, bars[k - 1].date) {
          QuotesScale(bars[k - 1], bars[k], After(factors, bars[k].date), out[k - 1], out[k]);
        }
        NewQuotes(out[k - 1], out[k]);
      }
    }
  }

  lemma NewQuotes(prev: Bar, bar: Bar)
    ensures bar.pct == PercentChange(prev.close, bar.close) <==> Quotes(prev, bar)
  {
  }

  lemma QuotesScale(prev: Bar, bar: Bar, f: real, scaledPrev: Bar, scaled: Bar)
    requires f > 0.0 && IsScaled(prev, f, scaledPrev) && IsScaled(bar, f, scaled)
    ensures scaled.pct == bar.pct ==> (Quotes(scaledPrev, scaled) <==> Quotes(prev, bar))
  {
    hide PercentChange;
    PercentChangeScales(prev.close, bar.close, f, scaledPrev.close, scaled.close);
  }

  lemma {:induction false} ScaleFromPct(
      bars: seq<Bar>, factors: seq<Factor>, i: nat, prevFactor: real, prevClose: Option<real>, k: nat)
    requires i <= k < |bars|
    ensures var out := ScaleFrom(bars, factors, i, prevFactor, prevClose);
            var factor := if k == i then prevFactor else After(factors, bars[k - 1].date);
            var close := if k == i then prevClose else Some(out[k - 1 - i].close);
            out[k - i].pct == if bars[k].pct.Some? && After(factors, bars[k].date) == factor then bars[k].pct
                              else if close.None? then None else PercentChange(close.value, out[k - i].close)
    decreases |bars| - i
  {
    hide After, PercentChange, ScaleFrom;
    var f := After(factors, bars[i].date);
    var b := ScaleBar(bars[i], f, prevClose, f == prevFactor && bars[i].pct.Some?);
    ScaleFromStep(bars, factors, i, prevFactor, prevClose);
    if i < k {
      ScaleFromPct(bars, factors, i + 1, f, Some(b.close), k);
    }
  }

  lemma PercentChangeScales(prev: real, close: real, f: real, scaledPrev: real, scaledClose: real)
    requires f > 0.0 && scaledPrev == prev * f && scaledClose == close * f
    ensures PercentChange(scaledPrev, scaledClose) == PercentChange(prev, close)
  {
    if prev > 0.0 {
      PositiveProduct(prev, f);
      assert scaledClose - scaledPrev == (close - prev) * f;
      CancelRatio(close - prev, prev, f);
      assert (scaledClose - scaledPrev) / scaledPrev == (close - prev) / prev;
    } else {
      NotPositiveProduct(prev, f);
    }
  }

  lemma NotPositiveProduct(a: real, b: real)
    requires a <= 0.0 && b > 0.0
    ensures a * b <= 0.0
  {
  }

  // ---- Earlier and later anchors ---------------------------------------------------------

  function KeepActions(actions: seq<CorporateAction>, date: int): seq<CorporateAction> {
    if actions == [] then []
    else if actions[0].exDate <= date then [actions[0]] + KeepActions(actions[1..], date)
    else KeepActions(actions[1..], date)
  }

  function KeepFactors(factors: seq<Factor>, date: int): seq<Factor> {
    if factors == [] then []
    else if factors[0].exDate <= date then [factors[0]] + KeepFactors(factors[1..], date)
    else KeepFactors(factors[1..], date)
  }

  lemma {:induction false} KnowableEarlier(actions: seq<CorporateAction>, early: int, late: int, cutoff: Option<int>)
    requires early <= late
    ensures Knowable(actions, early, cutoff) == KeepActions(Knowable(actions, late, cutoff), early)
  {
    if actions != [] {
      KnowableEarlier(actions[1..], early, late, cutoff);
      var rest := Knowable(actions[1..], late, cutoff);
      assert [] + rest == rest;
      assert ([actions[0]] + rest)[1..] == rest;
    }
  }

  lemma {:induction false} InsertKeep(a: CorporateAction, sorted: seq<CorporateAction>, date: int)
    requires SortedActions(sorted)
    ensures KeepActions(Insert(a, sorted), date)
         == if a.exDate <= date then Insert(a, KeepActions(sorted, date)) else KeepActions(sorted, date)
  {
    if sorted != [] && a.exDate > sorted[0].exDate {
      InsertKeep(a, sorted[1..], date);
      var rest := Insert(a, sorted[1..]);
      assert ([sorted[0]] + rest)[1..] == rest;
      assert ([sorted[0]] + KeepActions(sorted[1..], date))[1..] == KeepActions(sorted[1..], date);
    } else {
      assert ([a] + sorted)[1..] == sorted;
      KeptAreIn(sorted, date);
    }
  }

  lemma {:induction false} KeptAreIn(actions: seq<CorporateAction>, date: int)
    ensures forall a :: a in KeepActions(actions, date) <==> a in actions && a.exDate <= date
  {
    if actions != [] {
      KeptAreIn(actions[1..], date);
    }
  }

  lemma {:induction false} SortKeep(actions: seq<CorporateAction>, date: int)
    ensures Sort(KeepActions(actions, date)) == KeepActions(Sort(actions), date)
  {
    if actions != [] {
      SortKeep(actions[1..], date);
      SortIsStable(actions[1..], date);
      InsertKeep(actions[0], Sort(actions[1..]), date);
      assert ([actions[0]] + KeepActions(actions[1..], date))[1..] == KeepActions(actions[1..], date);
    }
  }

  lemma {:induction false} FactorsOfKeep(bars: seq<Bar>, actions: seq<CorporateAction>, date: int)
    ensures FactorsOf(bars, KeepActions(actions, date)) == KeepFactors(FactorsOf(bars, actions), date)
  {
    if actions != [] {
      FactorsOfKeep(bars, actions[1..], date);
      var head, tail := FactorOf(bars, actions[0]), FactorsOf(bars, actions[1..]);
      var kept := KeepActions(actions[1..], date);
      assert ([actions[0]] + kept)[1..] == kept;
      assert head == [] ==> head + tail == tail;
      assert head != [] ==> (head + tail)[1..] == tail;
    }
  }

  // What was known earlier is what is known now of the actions up to then.
  lemma FactorsEarlier(bars: seq<Bar>, actions: seq<CorporateAction>, early: int, late: int, cutoff: Option<int>)
    requires early <= late
    ensures Factors(bars, actions, early, cutoff) == KeepFactors(Factors(bars, actions, late, cutoff), early)
  {
    var known := Knowable(actions, late, cutoff);
    KnowableEarlier(actions, early, late, cutoff);
    SortKeep(known, early);
    FactorsOfKeep(bars, Sort(known), early);
  }

  lemma {:induction false} CountBeforePrefix(bars: seq<Bar>, m: nat, date: int)
    requires SortedBars(bars) && m < |bars| && date <= bars[m].date
    ensures CountBefore(bars[..m + 1], date) == CountBefore(bars, date) <= m
  {
    var prefix := bars[..m + 1];
    if bars[0].date < date {
      assert prefix[1..] == bars[1..][..m];
      CountBeforePrefix(bars[1..], m - 1, date);
    }
  }

  lemma {:induction false} FactorsOfPrefix(bars: seq<Bar>, m: nat, actions: seq<CorporateAction>)
    requires SortedBars(bars) && m < |bars|
    requires forall a :: a in actions ==> a.exDate <= bars[m].date
    ensures FactorsOf(bars[..m + 1], actions) == FactorsOf(bars, actions)
  {
    if actions != [] {
      FactorsOfPrefix(bars, m, actions[1..]);
      CountBeforePrefix(bars, m, actions[0].exDate);
    }
  }

  // A ratio depends only on closes before its ex-date, so bars after the anchor add nothing.
  lemma FactorsPrefix(bars: seq<Bar>, m: nat, actions: seq<CorporateAction>, late: int, cutoff: Option<int>)
    requires SortedBars(bars) && m < |bars| && bars[m].date <= late
    ensures Factors(bars[..m + 1], actions, bars[m].date, cutoff)
         == KeepFactors(Factors(bars, actions, late, cutoff), bars[m].date)
  {
    var known := Knowable(actions, bars[m].date, cutoff);
    KnowableEarlier(actions, bars[m].date, late, cutoff);
    KeptAreIn(Knowable(actions, late, cutoff), bars[m].date);
    SortContents(known);
    FactorsOfPrefix(bars, m, Sort(known));
    FactorsEarlier(bars, actions, bars[m].date, late, cutoff);
  }

  lemma {:induction false} SortContents(actions: seq<CorporateAction>)
    ensures forall a :: a in Sort(actions) ==> a in actions
  {
    if actions != [] {
      SortContents(actions[1..]);
      SortIsStable(actions[1..], 0);
      InsertSorts(actions[0], Sort(actions[1..]));
    }
  }

  lemma AfterSplits(factors: seq<Factor>, date: int, mid: int)
    requires date <= mid
    ensures After(factors, date) == After(KeepFactors(factors, mid), date) * After(factors, mid)
  {
    AfterIsProduct(factors, date, mid);
  }

  lemma AfterStep(f: Factor, rest: seq<Factor>, date: int)
    ensures After([f] + rest, date) == if f.exDate > date then Mul(f.ratio, After(rest, date)) else After(rest, date)
  {
    assert ([f] + rest)[1..] == rest;
  }

  lemma {:induction false} AfterIsProduct(factors: seq<Factor>, date: int, mid: int)
    requires date <= mid
    ensures After(factors, date) == Mul(After(KeepFactors(factors, mid), date), After(factors, mid))
  {
    if factors != [] {
      var f, rest := factors[0], factors[1..];
      var kept := KeepFactors(rest, mid);
      assert KeepFactors(factors, mid) == if f.exDate <= mid then [f] + kept else kept;
      hide After, KeepFactors, Mul;
      AfterIsProduct(rest, date, mid);
      assert factors == [f] + rest;
      AfterStep(f, rest, date);
      AfterStep(f, rest, mid);
      AfterStep(f, kept, date);
      TakeOneFactor(f.ratio, After(kept, date), After(rest, mid));
    }
  }

  lemma TakeOneFactor(r: real, early: real, late: real)
    ensures Mul(r, Mul(early, late)) == Mul(Mul(r, early), late) == Mul(early, Mul(r, late))
  {
  }

  // Forward adjustment at a later anchor is the earlier one times the ratios between the
  // two anchors, the same for every bar up to the earlier anchor.
  lemma QfqReanchored(bars: seq<Bar>, m: nat, actions: seq<CorporateAction>, late: int, cutoff: Option<int>, k: nat)
    requires SortedBars(bars) && k <= m < |bars| && bars[m].date <= late
    ensures PricesOf(Qfq(bars, actions, late, cutoff)[k])
         == Times(PricesOf(Qfq(bars[..m + 1], actions, bars[m].date, cutoff)[k]),
                  After(Factors(bars, actions, late, cutoff), bars[m].date))
  {
    hide After, Factors, Qfq;
    var all, anchor := Factors(bars, actions, late, cutoff), bars[m].date;
    QfqPrices(bars, actions, late, cutoff, k);
    QfqPrices(bars[..m + 1], actions, anchor, cutoff, k);
    FactorsPrefix(bars, m, actions, late, cutoff);
    AfterSplits(all, bars[k].date, anchor);
    TimesTimes(PricesOf(bars[k]), After(KeepFactors(all, anchor), bars[k].date), After(all, anchor),
               After(all, bars[k].date));
  }

  lemma TimesTimes(p: Prices, a: real, b: real, ab: real)
    requires ab == a * b
    ensures Times(Times(p, a), b) == Times(p, ab)
  {
    MulAssociates(p.open, a, b);
    MulAssociates(p.close, a, b);
    MulAssociates(p.high, a, b);
    MulAssociates(p.low, a, b);
  }

  // ---- Backward adjustment ---------------------------------------------------------------

  function Hfq(bars: seq<Bar>, actions: seq<CorporateAction>, cutoff: Option<int>): (out: seq<Bar>)
    ensures |out| == |bars|
  {
    if bars == [] then []
    else
      var qfq := Qfq(bars, actions, bars[|bars| - 1].date, cutoff);
      if qfq[0].close <= 0.0 || bars[0].close <= 0.0 then qfq
      else ScaleEach(qfq, bars[0].close / qfq[0].close)
  }

  function ScaleEach(bars: seq<Bar>, scale: real): (out: seq<Bar>)
    ensures |out| == |bars|
  {
    if bars == [] then [] else [ScaleBar(bars[0], scale, None, true)] + ScaleEach(bars[1..], scale)
  }

  lemma {:induction false} ScaleEachAt(bars: seq<Bar>, scale: real, k: nat)
    requires k < |bars|
    ensures var out := ScaleEach(bars, scale)[k];
            && IsScaled(bars[k], scale, out) && PricesOf(out) == Times(PricesOf(bars[k]), scale)
            && out.pct == bars[k].pct
  {
    if k > 0 {
      hide ScaleBar, IsScaled, Times;
      ScaleEachAt(bars[1..], scale, k - 1);
    } else {
      ScaleBarPrices(bars[0], scale, None, true);
      hide IsScaled, Times;
    }
  }

  method ComputeHfq(bars: seq<Bar>, actions: seq<CorporateAction>, cutoff: Option<int>) returns (adjusted: Adjusted)
    ensures adjusted.bars == Hfq(bars, actions, cutoff)
    ensures adjusted.warnings == if bars == [] then [] else Warnings(bars, actions, bars[|bars| - 1].date, cutoff)
  {
    hide Qfq, Warnings;
    if bars == [] {
      return Adjusted([], []);
    }
    var anchor := bars[|bars| - 1].date;
    var forward := ComputeQfq(bars, actions, anchor, cutoff);
    var qfq := forward.bars;
    var t0QfqClose, t0RawClose := qfq[0].close, bars[0].close;
    if t0QfqClose <= 0.0 || t0RawClose <= 0.0 {
      return forward;
    }
    var scale := t0RawClose / t0QfqClose;
    var out := [];
    for i := 0 to |qfq|
      invariant |out| == i
      invariant out + ScaleEach(qfq[i..], scale) == ScaleEach(qfq, scale)
    {
      var prevClose := if i == 0 then None else Some(out[i - 1].close);
      var b := ScaleBar(qfq[i], scale, prevClose, true);
      assert b == ScaleBar(qfq[i], scale, None, true);
      assert qfq[i..] == [qfq[i]] + qfq[i + 1..];
      Associate(out, [b], ScaleEach(qfq[i + 1..], scale));
      out := out + [b];
    }
    return Adjusted(out, forward.warnings);
  }

  // Changes are those of the forward-adjusted series.
  lemma HfqPct(bars: seq<Bar>, actions: seq<CorporateAction>, cutoff: Option<int>, k: nat)
    requires k < |bars|
    ensures Hfq(bars, actions, cutoff)[k].pct == Qfq(bars, actions, bars[|bars| - 1].date, cutoff)[k].pct
  {
    hide Qfq;
    var qfq := Qfq(bars, actions, bars[|bars| - 1].date, cutoff);
    if qfq[0].close > 0.0 && bars[0].close > 0.0 {
      ScaleEachAt(qfq, bars[0].close / qfq[0].close, k);
    }
  }

  // With a positive first close, each bar is divided by the ratios that took effect from
  // the first bar up to it; the first bar keeps its raw prices.
  lemma HfqPrices(bars: seq<Bar>, actions: seq<CorporateAction>, cutoff: Option<int>, k: nat)
    requires k < |bars| && bars[0].close > 0.0
    ensures var factors := Factors(bars, actions, bars[|bars| - 1].date, cutoff);
            && After(factors, bars[0].date) > 0.0
            && var out := Hfq(bars, actions, cutoff);
               var ratio := After(factors, bars[k].date) / After(factors, bars[0].date);
               && IsScaled(bars[k], ratio, out[k]) && PricesOf(out[k]) == Times(PricesOf(bars[k]), ratio)
               && PricesOf(out[0]) == PricesOf(bars[0])
  {
    hide After, Factors, IsScaled, Times, Hfq, PricesOf;
    var anchor := bars[|bars| - 1].date;
    var factors := Factors(bars, actions, anchor, cutoff);
    FactorsAreSorted(bars, actions, anchor, cutoff);
    AfterPositive(factors, bars[0].date);
    HfqScales(bars, actions, cutoff, 0, After(factors, bars[0].date), After(factors, bars[0].date));
    HfqScales(bars, actions, cutoff, k, After(factors, bars[0].date), After(factors, bars[k].date));
    ScaledBySame(bars[0], After(factors, bars[0].date));
  }

  lemma ScaledBySame(bar: Bar, base: real)
    requires base > 0.0
    ensures Times(PricesOf(bar), base / base) == PricesOf(bar)
  {
    assert base / base == 1.0;
  }

  lemma HfqScales(
      bars: seq<Bar>, actions: seq<CorporateAction>, cutoff: Option<int>, k: nat, base: real, f: real)
    requires k < |bars| && bars[0].close > 0.0 && base > 0.0
    requires base == After(Factors(bars, actions, bars[|bars| - 1].date, cutoff), bars[0].date)
    requires f == After(Factors(bars, actions, bars[|bars| - 1].date, cutoff), bars[k].date)
    ensures var out := Hfq(bars, actions, cutoff);
            IsScaled(bars[k], f / base, out[k]) && PricesOf(out[k]) == Times(PricesOf(bars[k]), f / base)
  {
    hide After, Factors, Qfq;
    var anchor := bars[|bars| - 1].date;
    QfqPrices(bars, actions, anchor, cutoff, 0);
    QfqPrices(bars, actions, anchor, cutoff, k);
    var qfq := Qfq(bars, actions, anchor, cutoff);
    assert qfq[0].close == bars[0].close * base;
    PositiveProduct(bars[0].close, base);
    var scale := bars[0].close / qfq[0].close;
    ScaleOfBase(bars[0].close, base, f, scale);
    ScaleEachAt(qfq, scale, k);
    var out := Hfq(bars, actions, cutoff);
    assert IsScaled(qfq[k], scale, out[k]) && PricesOf(out[k]) == Times(PricesOf(qfq[k]), scale);
    hide IsScaled, Times, Hfq;
    TimesTimes(PricesOf(bars[k]), f, scale, f / base);
    ScaledTwice(bars[k], qfq[k], out[k], f, scale, f / base);
  }

  lemma ScaledTwice(bar: Bar, once: Bar, twice: Bar, a: real, b: real, ab: real)
    requires ab == a * b && IsScaled(bar, a, once) && IsScaled(once, b, twice)
    ensures IsScaled(bar, ab, twice)
  {
    MulAssociates(bar.open, a, b);
    MulAssociates(bar.close, a, b);
    MulAssociates(bar.high, a, b);
    MulAssociates(bar.low, a, b);
  }

  lemma ScaleOfBase(close: real, base: real, f: real, scale: real)
    requires close > 0.0 && base > 0.0 && scale == close / (close * base)
    ensures f / base == f * scale
  {
    PositiveProduct(close, base);
    CancelRatio(1.0, base, close);
    assert scale == 1.0 / base;
    Quotient(f, base, f * scale);
  }

  // Appending bars never rewrites backward-adjusted history.
  lemma HfqAppendStable(bars: seq<Bar>, m: nat, actions: seq<CorporateAction>, cutoff: Option<int>, k: nat)
    requires SortedBars(bars) && k <= m < |bars| && bars[0].close > 0.0
    ensures PricesOf(Hfq(bars[..m + 1], actions, cutoff)[k]) == PricesOf(Hfq(bars, actions, cutoff)[k])
  {
    hide After, Factors, Hfq, Times, KeepFactors;
    var late, mid := bars[|bars| - 1].date, bars[m].date;
    var all := Factors(bars, actions, late, cutoff);
    var kept := KeepFactors(all, mid);
    FactorsPrefix(bars, m, actions, late, cutoff);
    HfqPrices(bars, actions, cutoff, k);
    HfqPrices(bars[..m + 1], actions, cutoff, k);
    AfterSplits(all, bars[0].date, mid);
    AfterSplits(all, bars[k].date, mid);
    FactorsAreSorted(bars, actions, late, cutoff);
    AfterPositive(all, mid);
    SameRatio(After(kept, bars[k].date), After(kept, bars[0].date), After(all, mid),
              After(all, bars[k].date), After(all, bars[0].date));
  }

  lemma SameRatio(a: real, b: real, f: real, af: real, bf: real)
    requires b != 0.0 && f != 0.0 && af == a * f && bf == b * f
    ensures bf != 0.0 && af / bf == a / b
  {
    CancelRatio(a, b, f);
  }

  // With a first close that is not positive the history is rewritten instead: every
  // earlier price is multiplied by the ratios that came after it.
  lemma HfqDirtyBase(bars: seq<Bar>, m: nat, actions: seq<CorporateAction>, cutoff: Option<int>, k: nat)
    requires SortedBars(bars) && k <= m < |bars| && bars[0].close <= 0.0
    ensures PricesOf(Hfq(bars, actions, cutoff)[k])
         == Times(PricesOf(Hfq(bars[..m + 1], actions, cutoff)[k]),
                  After(Factors(bars, actions, bars[|bars| - 1].date, cutoff), bars[m].date))
  {
    QfqReanchored(bars, m, actions, bars[|bars| - 1].date, cutoff, k);
  }

  // Three bars, the first closed at 0, and a dividend of half the close before the third.
  function DirtyBars(): (bars: seq<Bar>)
    ensures |bars| == 3
  {
    [Bar(0, 1.0, 0.0, 1.0, 0.0, 0.0, None, None), Bar(1, 10.0, 10.0, 10.0, 10.0, 0.0, None, None),
     Bar(2, 5.0, 5.0, 5.0, 5.0, 0.0, None, None)]
  }

  function Dividend(): CorporateAction {
    Action(2, None, 5.0, 0.0, 0.0, None)
  }

  lemma DirtyFactors()
    ensures Factors(DirtyBars(), [Dividend()], 2, None) == [Factor(2, 0.5)]
    ensures Factors(DirtyBars()[..2], [Dividend()], 1, None) == []
  {
    var bars, action := DirtyBars(), Dividend();
    assert [action][1..] == [];
    assert Knowable([action], 2, None) == [action] && Knowable([action], 1, None) == [];
    assert Sort([action]) == [action];
    assert FactorOf(bars, action) == [Factor(2, 0.5)] by {
      assert bars[1..][1..] == [bars[2]] && CountBefore([bars[2]], 2) == 0;
      assert CountBefore(bars[1..], 2) == 1;
      assert ExPrice(action, 10.0) == 5.0;
    }
    hide FactorOf;
    assert FactorsOf(bars, [action]) == FactorOf(bars, action) + FactorsOf(bars, []);
  }

  // It can happen: the bar opened at 1 is adjusted to 1 until the dividend's bar arrives,
  // and to 0.5 from then on.
  lemma HfqRewritesHistory()
    ensures Hfq(DirtyBars()[..2], [Dividend()], None)[0].open == 1.0
    ensures Hfq(DirtyBars(), [Dividend()], None)[0].open == 0.5
  {
    var bars := DirtyBars();
    DirtyFactors();
    QfqPrices(bars, [Dividend()], 2, None, 0);
    QfqPrices(bars[..2], [Dividend()], 1, None, 0);
    assert [Factor(2, 0.5)][1..] == [];
    assert After([Factor(2, 0.5)], 0) == 0.5;
    hide Factors, Qfq;
  }
}
