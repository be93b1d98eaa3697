// What three of the calculation language's operators mean (crates/compute/src/lib.rs):
// cumulative returns undo returns, an exponential average stays within the values it
// averages, and the deepest drawdown is the worst fall between any two positions.

module Indicators {
  import opened Expressions
  import opened Operators
  import opened Windows
  import opened Wrappers
  import Moments

  // ---- Cumulative returns -------------------------------------------------------------------

  ghost predicate AllPositive(xs: Series) {
    forall i :: 0 <= i < |xs| ==> xs[i].Some? && xs[i].value > 0.0
  }

  function ReturnsOf(k: Kernel, xs: Series): (out: Series)
    ensures |out| == |xs|
  {
    seq(|xs|, i requires 0 <= i < |xs| => ChangeAt(k, Returns, xs, i))
  }

  // Compounding the returns of positive prices gives back the growth since the first price.
  lemma CumulativeUndoesReturns(k: Kernel, xs: Series, i: nat)
    requires AllPositive(xs) && i < |xs|
    ensures var out := OnSeries(k, CumulativeReturn, OnSeries(k, Returns, xs));
            |out| == |xs| && out[i] == if i == 0 then None else Some(xs[i].value / xs[0].value - 1.0)
  {
    var rs := ReturnsOf(k, xs);
    assert OnSeries(k, Returns, xs) == rs;
    if i > 0 {
      CompoundFrom(k, xs, 1, i);
      assert Growth(xs[0], xs[0]) == xs[0].value / xs[0].value == 1.0;
    }
    assert rs[0].None?;
  }

  lemma {:induction false} CompoundFrom(k: Kernel, xs: Series, j: nat, i: nat)
    requires AllPositive(xs) && 0 < j <= i < |xs|
    ensures CumulativeFrom(ReturnsOf(k, xs)[j..], Growth(xs[0], xs[j - 1]))[i - j] == Some(Growth(xs[0], xs[i]) - 1.0)
    decreases i - j
  {
    hide Compounded, Growth;
    var rest := ReturnsOf(k, xs)[j..];
    Compound(k, xs[0], xs[j - 1], xs[j]);
    assert rest[0] == ChangeAt(k, Returns, xs, j) == StepChange(k, Returns, xs[j - 1].value, xs[j].value);
    assert rest[1..] == ReturnsOf(k, xs)[j + 1..];
    if j < i {
      CompoundFrom(k, xs, j + 1, i);
    }
  }

  function Growth(base: Option<real>, x: Option<real>): real {
    if base.Some? && x.Some? && base.value != 0.0 then x.value / base.value else 0.0
  }

  lemma Compound(k: Kernel, base: Option<real>, before: Option<real>, now: Option<real>)
    requires base.Some? && before.Some? && now.Some? && base.value > 0.0 && before.value > 0.0 && now.value > 0.0
    ensures var r := StepChange(k, Returns, before.value, now.value);
            r.Some? && r.value > -1.0 && Compounded(Growth(base, before), r.value) == Growth(base, now)
  {
    Cancel(now.value / before.value, before.value / base.value, base.value, before.value, now.value);
  }

  lemma Cancel(r: real, w: real, base: real, before: real, now: real)
    requires base > 0.0 && before > 0.0 && now > 0.0 && r == now / before && w == before / base
    ensures r > 0.0 && w * (1.0 + (r - 1.0)) == now / base
  {
    assert r * before == now && w * base == before;
    assert w * r * base == now;
  }

  // ---- Exponential averages -----------------------------------------------------------------

  ghost predicate Within(xs: Series, lo: real, hi: real) {
    forall i :: 0 <= i < |xs| && xs[i].Some? ==> lo <= xs[i].value <= hi
  }

  // The average has a value exactly where the series does, within the series' range.
  lemma EmaStaysWithin(k: Kernel, xs: Series, window: nat, lo: real, hi: real)
    requires ValidWindow(window) && Within(xs, lo, hi)
    ensures var out := OnSeries(k, Ema(window), xs);
            Within(out, lo, hi) && forall i :: 0 <= i < |xs| ==> (out[i].Some? <==> xs[i].Some?)
  {
    var n := window as real + 1.0;
    assert 0.0 < 2.0 / n <= 1.0;
    EmaFromWithin(xs, 2.0 / n, None, lo, hi);
  }

  lemma {:induction false} EmaFromWithin(xs: Series, alpha: real, current: Option<real>, lo: real, hi: real)
    requires 0.0 < alpha <= 1.0 && Within(xs, lo, hi) && (current.Some? ==> lo <= current.value <= hi)
    ensures var out := EmaFrom(xs, alpha, current);
            Within(out, lo, hi) && forall i :: 0 <= i < |xs| ==> (out[i].Some? <==> xs[i].Some?)
  {
    hide Smoothed;
    if xs != [] {
      var rest := xs[1..];
      assert forall i :: 0 < i < |xs| ==> xs[i] == rest[i - 1];
      if xs[0].None? {
        EmaFromWithin(rest, alpha, current, lo, hi);
      } else {
        var next := if current.None? then xs[0].value else Smoothed(alpha, xs[0].value, current.value);
        if current.Some? {
          Mix(alpha, xs[0].value, current.value, lo, hi);
        }
        EmaFromWithin(rest, alpha, Some(next), lo, hi);
      }
    }
  }

  lemma Mix(alpha: real, a: real, b: real, lo: real, hi: real)
    requires 0.0 < alpha <= 1.0 && lo <= a <= hi && lo <= b <= hi
    ensures lo <= Smoothed(alpha, a, b) <= hi
  {
    hide Smoothed, Part;
    var gap := if a < b then b - a else a - b;
    PartOfGap(alpha, gap);
    FromAverage(alpha, a, b);
  }

  function Part(alpha: real, gap: real): real { alpha * gap }

  lemma PartOfGap(alpha: real, gap: real)
    requires 0.0 < alpha <= 1.0 && gap >= 0.0
    ensures 0.0 <= Part(alpha, gap) <= gap
  {
    Moments.ScaleOrder(0.0, alpha, gap);
    Moments.ScaleOrder(alpha, 1.0, gap);
  }

  lemma FromAverage(alpha: real, a: real, b: real)
    ensures Smoothed(alpha, a, b) == b + Part(alpha, a - b) == b - Part(alpha, b - a)
  {
  }

  // ---- Drawdown -------------------------------------------------------------------------------

  ghost predicate Positive(xs: seq<real>) {
    forall i :: 0 <= i < |xs| ==> xs[i] > 0.0
  }

  // `d` is the least fall, from an earlier to a later position, of the whole series.
  ghost predicate IsDeepest(xs: seq<real>, d: real)
    requires Positive(xs)
  {
    && (forall i, j :: 0 <= i <= j < |xs| ==> d <= Fall(xs[i], xs[j]))
    && exists i, j :: 0 <= i <= j < |xs| && d == Fall(xs[i], xs[j])
  }

  lemma MaxDrawdownIsDeepest(k: Kernel, xs: seq<real>)
    requires xs != [] && Positive(xs)
    ensures var d := Reduced(k, MaxDrawdown, xs); d.Some? && IsDeepest(xs, d.value)
  {
    hide DrawdownFrom, Fall, IsDeepest;
    assert [] + xs == xs;
    DrawdownIsDeepest([], xs, None, 0.0);
  }

  // Invariant of the walk: the greatest value done is the peak, and `worst` is the deepest
  // fall done.
  ghost predicate Walked(done: seq<real>, peak: Option<real>, worst: real) {
    && Positive(done) && (done == [] <==> peak.None?)
    && (done == [] ==> worst == 0.0)
    && (done != [] ==> peak.value in done && IsDeepest(done, worst))
    && forall i :: 0 <= i < |done| ==> done[i] <= peak.value
  }

  lemma {:induction false} DrawdownIsDeepest(done: seq<real>, xs: seq<real>, peak: Option<real>, worst: real)
    requires Walked(done, peak, worst) && Positive(xs)
    ensures var d := DrawdownFrom(xs, peak, worst, done != []);
            done + xs != [] ==> d.Some? && Positive(done + xs) && IsDeepest(done + xs, d.value)
    decreases |xs|
  {
    hide Fall, IsDeepest;
    if xs == [] {
      assert done + xs == done;
    } else {
      var x := xs[0];
      var top := if peak.Some? && peak.value > x then peak.value else x;
      var next := if Fall(top, x) < worst then Fall(top, x) else worst;
      WalkOn(done, x, peak, worst, top, next);
      assert done + [x] + xs[1..] == done + xs;
      DrawdownIsDeepest(done + [x], xs[1..], Some(top), next);
    }
  }

  lemma WalkOn(done: seq<real>, x: real, peak: Option<real>, worst: real, top: real, next: real)
    requires Walked(done, peak, worst) && x > 0.0
    requires top == if peak.Some? && peak.value > x then peak.value else x
    requires top > 0.0 && next == if Fall(top, x) < worst then Fall(top, x) else worst
    ensures Walked(done + [x], Some(top), next)
  {
    hide Fall;
    var all, n := done + [x], |done|;
    assert all[n] == x && top in all;
    NoFall(x);
    forall i, j | 0 <= i <= j < |all| ensures next <= Fall(all[i], all[j]) {
      if j == n {
        SmallerFall(x, all[i], top);
      }
    }
    if next == worst && done != [] {
      var i, j :| 0 <= i <= j < |done| && worst == Fall(done[i], done[j]);
      assert all[i] == done[i] && all[j] == done[j];
    } else {
      var p :| 0 <= p <= n && all[p] == top;
      assert next == Fall(all[p], all[n]);
    }
  }

  lemma NoFall(x: real)
    requires x > 0.0
    ensures Fall(x, x) == 0.0
  {
  }

  // The higher the start, the deeper the fall.
  lemma SmallerFall(x: real, low: real, high: real)
    requires x > 0.0 && 0.0 < low <= high
    ensures Fall(high, x) <= Fall(low, x)
  {
    Quotients(x, low, high, x / low, x / high);
  }

  lemma Quotients(x: real, low: real, high: real, a: real, b: real)
    requires x > 0.0 && 0.0 < low <= high && a == x / low && b == x / high
    ensures b <= a
  {
    assert a * low == x && b * high == x;
    assert b > 0.0;
    Moments.ScaleOrder(low, high, b);
    if a < b {
      Moments.ScaleStrict(a, b, low);
      assert false;
    }
  }
}
