// The daily Chan-theory pipeline (crates/chanlun/src/daily.rs): klines are merged by
// containment, fractals are read off the merged series, strokes connect fractals and
// zhongshus are overlaps of neighbouring strokes.

module ChanKlines {

  datatype Kline = Kline(date: string, high: real, low: real)

  // A direction is 1, -1, or 0 while it is still open, in the first segment.
  datatype MergedKline = MergedKline(
    dateStart: string, dateEnd: string, high: real, low: real, direction: int, rawCount: nat)

  function Max(a: real, b: real): real { if a < b then b else a }

  function Min(a: real, b: real): real { if a < b then a else b }

  // Inside the segment, or wrapping it.
  predicate Contained(cur: MergedKline, k: Kline) {
    (k.high <= cur.high && k.low >= cur.low) || (k.high >= cur.high && k.low <= cur.low)
  }

  function Opening(k: Kline, direction: int): MergedKline {
    MergedKline(k.date, k.date, k.high, k.low, direction, 1)
  }

  function Absorb(cur: MergedKline, k: Kline): MergedKline {
    cur.(dateEnd := k.date,
         high := if cur.direction == -1 then Min(k.high, cur.high) else Max(k.high, cur.high),
         low := if cur.direction == 1 then Max(k.low, cur.low) else Min(k.low, cur.low),
         rawCount := cur.rawCount + 1)
  }

  function MergeFrom(raw: seq<Kline>, i: nat, cur: MergedKline): (merged: seq<MergedKline>)
    requires i <= |raw|
    ensures merged != []
    decreases |raw| - i
  {
    if i == |raw| then [cur]
    else if Contained(cur, raw[i]) then MergeFrom(raw, i + 1, Absorb(cur, raw[i]))
    else [cur] + MergeFrom(raw, i + 1, Opening(raw[i], if raw[i].high > cur.high then 1 else -1))
  }

  function Merge(raw: seq<Kline>): seq<MergedKline> {
    if raw == [] then [] else MergeFrom(raw, 1, Opening(raw[0], 0))
  }

  method MergeDailyKlines(raw: seq<Kline>) returns (merged: seq<MergedKline>)
    ensures merged == Merge(raw)
  {
    hide Contained, Max, Min;
    merged := [];
    if |raw| == 0 {
      return;
    }
    var cur := Opening(raw[0], 0);
    for i := 1 to |raw|
      invariant merged + MergeFrom(raw, i, cur) == Merge(raw)
    {
      var k := raw[i];
      if !Contained(cur, k) {
        merged := merged + [cur];
        cur := Opening(k, if k.high > cur.high then 1 else -1);
      } else {
        var high := if cur.direction == -1 then Min(k.high, cur.high) else Max(k.high, cur.high);
        var low := if cur.direction == 1 then Max(k.low, cur.low) else Min(k.low, cur.low);
        cur := MergedKline(cur.dateStart, k.date, high, low, cur.direction, cur.rawCount + 1);
      }
    }
    merged := merged + [cur];
  }

  // ---- What merging produces ------------------------------------------------------

  ghost predicate Extreme(raw: seq<Kline>, a: nat, b: nat, highest: bool, x: real, of: Kline -> real)
    requires b <= |raw|
  {
    && (exists i :: a <= i < b && of(raw[i]) == x)
    && (forall i :: a <= i < b ==> if highest then of(raw[i]) <= x else of(raw[i]) >= x)
  }

  // `m` stands for raw klines a..b: an up segment keeps the highest high and the
  // highest low, a down segment the lowest of both, the first one the full range.
  ghost predicate IsSegment(raw: seq<Kline>, a: nat, b: nat, m: MergedKline) {
    && a < b <= |raw|
    && m.dateStart == raw[a].date
    && m.dateEnd == raw[b - 1].date
    && m.rawCount == b - a
    && Extreme(raw, a, b, m.direction != -1, m.high, (k: Kline) => k.high)
    && Extreme(raw, a, b, m.direction == 1, m.low, (k: Kline) => k.low)
  }

  // Both ends of the kline's range lie strictly above those of the segment, or strictly below.
  ghost predicate Beyond(cur: MergedKline, k: Kline) {
    (k.high > cur.high && k.low > cur.low) || (k.high < cur.high && k.low < cur.low)
  }

  // No kline after the first was beyond what the segment was before it.
  ghost predicate Grown(raw: seq<Kline>, a: nat, b: nat, direction: int) {
    forall i {:trigger raw[i]} :: a < i < b <= |raw| ==>
      exists m :: IsSegment(raw, a, i, m) && m.direction == direction && !Beyond(m, raw[i])
  }

  // Both ends of the range move, strictly and the same way.
  predicate Above(low: MergedKline, high: MergedKline) {
    high.high > low.high && high.low > low.low
  }

  ghost predicate Joined(prev: MergedKline, next: MergedKline) {
    (next.direction == 1 && Above(prev, next)) || (next.direction == -1 && Above(next, prev))
  }

  ghost predicate Stepping(merged: seq<MergedKline>) {
    forall k :: 0 <= k < |merged| - 1 ==> Joined(merged[k], merged[k + 1])
  }

  // The segments cover raw[cuts[0]..] in order, without gap or overlap.
  ghost predicate Partition(raw: seq<Kline>, merged: seq<MergedKline>, cuts: seq<nat>) {
    && |cuts| == |merged| + 1
    && cuts[|merged|] == |raw|
    && (forall k :: 0 <= k < |merged| ==>
          IsSegment(raw, cuts[k], cuts[k + 1], merged[k]) && Grown(raw, cuts[k], cuts[k + 1], merged[k].direction))
    && (forall k :: 0 <= k < |merged| - 1 ==> cuts[k + 1] < |raw| && Beyond(merged[k], raw[cuts[k + 1]]))
  }

  lemma AbsorbSegment(raw: seq<Kline>, a: nat, i: nat, cur: MergedKline)
    requires i < |raw| && IsSegment(raw, a, i, cur)
    ensures IsSegment(raw, a, i + 1, Absorb(cur, raw[i]))
  {
    var next := Absorb(cur, raw[i]);
    var h :| a <= h < i && raw[h].high == cur.high;
    var l :| a <= l < i && raw[l].low == cur.low;
    assert raw[h].high == next.high || raw[i].high == next.high;
    assert raw[l].low == next.low || raw[i].low == next.low;
  }

  lemma AbsorbGrown(raw: seq<Kline>, a: nat, i: nat, cur: MergedKline)
    requires i < |raw| && IsSegment(raw, a, i, cur) && Grown(raw, a, i, cur.direction) && !Beyond(cur, raw[i])
    ensures Grown(raw, a, i + 1, cur.direction)
  {
  }

  lemma OpeningSegment(raw: seq<Kline>, i: nat, direction: int)
    requires i < |raw|
    ensures IsSegment(raw, i, i + 1, Opening(raw[i], direction)) && Grown(raw, i, i + 1, direction)
  {
    var m := Opening(raw[i], direction);
    assert raw[i].high == m.high && raw[i].low == m.low;
  }

  // A kline outside the segment opens one strictly beyond it, and absorbing later
  // klines only moves it further away.
  lemma {:induction false} MergeFromPartitions(
      raw: seq<Kline>, a: nat, i: nat, cur: MergedKline) returns (cuts: seq<nat>)
    requires i <= |raw| && IsSegment(raw, a, i, cur) && Grown(raw, a, i, cur.direction)
    ensures var merged := MergeFrom(raw, i, cur);
            Partition(raw, merged, cuts) && cuts[0] == a && Stepping(merged) && merged[0].direction == cur.direction
    ensures var first := MergeFrom(raw, i, cur)[0];
            && (cur.direction == 1 ==> first.high >= cur.high && first.low >= cur.low)
            && (cur.direction == -1 ==> first.high <= cur.high && first.low <= cur.low)
    decreases |raw| - i
  {
    hide IsSegment, Grown;
    if i == |raw| {
      cuts := [a, i];
    } else if Contained(cur, raw[i]) {
      AbsorbSegment(raw, a, i, cur);
      AbsorbGrown(raw, a, i, cur);
      cuts := MergeFromPartitions(raw, a, i + 1, Absorb(cur, raw[i]));
    } else {
      var next := Opening(raw[i], if raw[i].high > cur.high then 1 else -1);
      OpeningSegment(raw, i, next.direction);
      var rest := MergeFromPartitions(raw, i, i + 1, next);
      cuts := [a] + rest;
      PrependSegment(raw, a, cur, MergeFrom(raw, i + 1, next), rest);
    }
  }

  lemma PrependSegment(raw: seq<Kline>, a: nat, cur: MergedKline, merged: seq<MergedKline>, cuts: seq<nat>)
    requires merged != [] && Partition(raw, merged, cuts) && Stepping(merged)
    requires |cuts| > 0 && IsSegment(raw, a, cuts[0], cur) && Grown(raw, a, cuts[0], cur.direction)
    requires cuts[0] < |raw| && Beyond(cur, raw[cuts[0]]) && Joined(cur, merged[0])
    ensures Partition(raw, [cur] + merged, [a] + cuts)
    ensures Stepping([cur] + merged)
  {
    hide IsSegment, Grown, Beyond, Joined;
    var all, bounds := [cur] + merged, [a] + cuts;
    forall k | 0 <= k < |all|
      ensures IsSegment(raw, bounds[k], bounds[k + 1], all[k]) && Grown(raw, bounds[k], bounds[k + 1], all[k].direction)
    {
      assert k > 0 ==> all[k] == merged[k - 1] && bounds[k] == cuts[k - 1];
    }
    forall k | 0 < k < |all|
      ensures bounds[k] < |raw| && Beyond(all[k - 1], raw[bounds[k]]) && Joined(all[k - 1], all[k])
    {
      assert k > 1 ==> all[k - 1] == merged[k - 2] && all[k] == merged[k - 1];
    }
  }

  // Merged klines partition the raw series in order, each carries the extremes its
  // direction calls for, and neighbours are strictly above or below one another.
  lemma MergeIsPartition(raw: seq<Kline>) returns (cuts: seq<nat>)
    requires raw != []
    ensures Partition(raw, Merge(raw), cuts) && cuts[0] == 0
    ensures Stepping(Merge(raw)) && Merge(raw)[0].direction == 0
  {
    OpeningSegment(raw, 0, 0);
    cuts := MergeFromPartitions(raw, 0, 1, Opening(raw[0], 0));
  }

  lemma MergedRanges(raw: seq<Kline>)
    requires forall k | k in raw :: k.low <= k.high
    ensures Stepping(Merge(raw))
    ensures forall m | m in Merge(raw) :: m.low <= m.high
  {
    if raw != [] {
      var cuts := MergeIsPartition(raw);
      var merged := Merge(raw);
      forall k | 0 <= k < |merged| ensures merged[k].low <= merged[k].high {
        var m := merged[k];
        assert IsSegment(raw, cuts[k], cuts[k + 1], m);
        var h :| cuts[k] <= h < cuts[k + 1] && raw[h].high == m.high;
        var l :| cuts[k] <= l < cuts[k + 1] && raw[l].low == m.low;
        assert raw[h] in raw && raw[l] in raw;
      }
    }
  }
}

module ChanFractals {
  import opened ChanKlines
  import opened Sequences

  datatype Kind = Top | Bottom

  // `index` is a position in the merged series.
  datatype Fractal = Fractal(index: nat, kind: Kind, price: real, date: string)

  predicate IsTop(merged: seq<MergedKline>, i: nat)
    requires 0 < i < |merged| - 1
  {
    merged[i].high > merged[i - 1].high && merged[i].high > merged[i + 1].high
  }

  predicate IsBottom(merged: seq<MergedKline>, i: nat)
    requires 0 < i < |merged| - 1
  {
    merged[i].low < merged[i - 1].low && merged[i].low < merged[i + 1].low
  }

  // Should a kline qualify twice, it is a top.
  function FractalsAt(merged: seq<MergedKline>, i: nat): seq<Fractal>
    requires 0 < i < |merged| - 1
  {
    if IsTop(merged, i) then [Fractal(i, Top, merged[i].high, merged[i].dateEnd)]
    else if IsBottom(merged, i) then [Fractal(i, Bottom, merged[i].low, merged[i].dateEnd)]
    else []
  }

  function FractalsFrom(merged: seq<MergedKline>, i: nat): seq<Fractal>
    requires 0 < i
    decreases |merged| - i
  {
    if i >= |merged| - 1 then [] else FractalsAt(merged, i) + FractalsFrom(merged, i + 1)
  }

  function Fractals(merged: seq<MergedKline>): seq<Fractal> {
    FractalsFrom(merged, 1)
  }

  method FindDailyFractals(merged: seq<MergedKline>) returns (fractals: seq<Fractal>)
    ensures fractals == Fractals(merged)
  {
    fractals := [];
    var n := |merged|;
    var i := 1;
    while i < n - 1
      invariant 1 <= i
      invariant fractals + FractalsFrom(merged, i) == Fractals(merged)
    {
      ghost var before := fractals;
      var left, cur, right := merged[i - 1], merged[i], merged[i + 1];
      if cur.high > left.high && cur.high > right.high {
        fractals := fractals + [Fractal(i, Top, cur.high, cur.dateEnd)];
      } else if cur.low < left.low && cur.low < right.low {
        fractals := fractals + [Fractal(i, Bottom, cur.low, cur.dateEnd)];
      }
      assert fractals == before + FractalsAt(merged, i);
      Associate(before, FractalsAt(merged, i), FractalsFrom(merged, i + 1));
      i := i + 1;
    }
  }

  // Fractals in order of position.
  ghost predicate Ordered(fractals: seq<Fractal>) {
    forall p :: 0 <= p < |fractals| - 1 ==> fractals[p].index < fractals[p + 1].index
  }

  // Of any klines, merged or not: what is reported is, of every kline between two others, a
  // top if its high is above both of theirs and otherwise a bottom if its low is below both,
  // with that price and the kline's last date.
  ghost predicate IsReported(merged: seq<MergedKline>, f: Fractal) {
    0 < f.index < |merged| - 1
    && var left, cur, right := merged[f.index - 1], merged[f.index], merged[f.index + 1];
       if cur.high > left.high && cur.high > right.high then f == Fractal(f.index, Top, cur.high, cur.dateEnd)
       else cur.low < left.low && cur.low < right.low && f == Fractal(f.index, Bottom, cur.low, cur.dateEnd)
  }

  lemma FractalsAreReported(merged: seq<MergedKline>, f: Fractal)
    ensures f in Fractals(merged) <==> IsReported(merged, f)
    ensures Ordered(Fractals(merged))
  {
    ReportedFrom(merged, 1, f);
    InOrderFrom(merged, 1);
  }

  lemma {:induction false} ReportedFrom(merged: seq<MergedKline>, i: nat, f: Fractal)
    requires 0 < i
    ensures f in FractalsFrom(merged, i) <==> i <= f.index && IsReported(merged, f)
    decreases |merged| - i
  {
    if i < |merged| - 1 {
      ReportedFrom(merged, i + 1, f);
    }
  }

  lemma {:induction false} InOrderFrom(merged: seq<MergedKline>, i: nat)
    requires 0 < i
    ensures var fs := FractalsFrom(merged, i); Ordered(fs) && (fs != [] ==> fs[0].index >= i)
    decreases |merged| - i
  {
    if i < |merged| - 1 {
      InOrderFrom(merged, i + 1);
    }
  }

  // On a merged series a kline is a top exactly where rising turns to falling, a
  // bottom exactly where falling turns to rising, and never both.
  lemma FractalsAreTurns(merged: seq<MergedKline>, i: nat)
    requires Stepping(merged) && 0 < i < |merged| - 1
    ensures IsTop(merged, i) <==> Above(merged[i - 1], merged[i]) && merged[i + 1].direction == -1
    ensures IsBottom(merged, i) <==> Above(merged[i], merged[i - 1]) && merged[i + 1].direction == 1
    ensures !(IsTop(merged, i) && IsBottom(merged, i))
  {
    assert Joined(merged[i - 1], merged[i]) && Joined(merged[i], merged[i + 1]);
  }

  // Types alternate, and each move from one fractal to the next really goes up from
  // a bottom and down from a top.
  ghost predicate Swinging(fractals: seq<Fractal>) {
    forall p :: 0 <= p < |fractals| - 1 ==>
      if fractals[p].kind == Bottom then fractals[p + 1].kind == Top && fractals[p].price < fractals[p + 1].price
      else fractals[p + 1].kind == Bottom && fractals[p].price > fractals[p + 1].price
  }

  // The next turn after a rise is a top at least as high as where the rise stands,
  // and after a fall a bottom at least as low.
  ghost predicate TurnsFrom(merged: seq<MergedKline>, i: nat, fractals: seq<Fractal>)
    requires 0 < i < |merged|
  {
    fractals != [] ==>
      && fractals[0].index >= i
      && if Above(merged[i - 1], merged[i])
         then fractals[0].kind == Top && fractals[0].price >= merged[i].high
         else fractals[0].kind == Bottom && fractals[0].price <= merged[i].low
  }

  lemma {:induction false} FractalsSwingFrom(merged: seq<MergedKline>, i: nat)
    requires Stepping(merged) && 0 < i < |merged|
    requires forall m | m in merged :: m.low <= m.high
    ensures var fractals := FractalsFrom(merged, i);
            Ordered(fractals) && Swinging(fractals) && TurnsFrom(merged, i, fractals)
    decreases |merged| - i
  {
    if i < |merged| - 1 {
      FractalsSwingFrom(merged, i + 1);
      FractalsAreTurns(merged, i);
      assert Joined(merged[i - 1], merged[i]) && Joined(merged[i], merged[i + 1]);
      assert merged[i] in merged;
    }
  }

  lemma FractalsSwing(raw: seq<Kline>)
    requires forall k | k in raw :: k.low <= k.high
    ensures Ordered(Fractals(Merge(raw))) && Swinging(Fractals(Merge(raw)))
  {
    MergedRanges(raw);
    if |Merge(raw)| > 1 {
      FractalsSwingFrom(Merge(raw), 1);
    }
  }
}

module ChanStrokes {
  import opened Wrappers
  import opened ChanKlines
  import opened ChanFractals

  // A stroke knows which fractals it joins by `startIdx` and `endIdx`.
  datatype Stroke = Stroke(
    up: bool, startPrice: real, endPrice: real, startDate: string, endDate: string, startIdx: nat, endIdx: nat)

  const MIN_GAP := 4

  function MakeStroke(fs: seq<Fractal>, start: nat, end: nat): Stroke
    requires start < |fs| && end < |fs|
  {
    Stroke(fs[start].kind == Bottom, fs[start].price, fs[end].price, fs[start].date, fs[end].date, start, end)
  }

  // A higher top, or a lower bottom.
  predicate MoreExtreme(f: Fractal, start: Fractal) {
    (start.kind == Top && f.price > start.price) || (start.kind == Bottom && f.price < start.price)
  }

  predicate Far(f: Fractal, start: Fractal) {
    start.index + MIN_GAP <= f.index
  }

  // The loop, one iteration a call. Closing a stroke looks at fractal `j` again, with
  // the pending endpoint gone.
  function StrokesFrom(fs: seq<Fractal>, start: nat, end: Option<nat>, j: nat): seq<Stroke>
    requires start < |fs| && (end.Some? ==> end.value < |fs|)
    decreases |fs| - j, if end.Some? then 1 else 0
  {
    if j >= |fs| then
      if end.Some? then [MakeStroke(fs, start, end.value)] else []
    else if fs[j].kind == fs[start].kind then
      if end.Some? then [MakeStroke(fs, start, end.value)] + StrokesFrom(fs, end.value, None, j)
      else StrokesFrom(fs, if MoreExtreme(fs[j], fs[start]) then j else start, None, j + 1)
    else StrokesFrom(fs, start, if Far(fs[j], fs[start]) then Some(j) else end, j + 1)
  }

  function Strokes(fs: seq<Fractal>): seq<Stroke> {
    if fs == [] then [] else StrokesFrom(fs, 0, None, 1)
  }

  method FindDailyStrokes(fs: seq<Fractal>) returns (strokes: seq<Stroke>)
    ensures strokes == Strokes(fs)
  {
    strokes := [];
    var n := |fs|;
    if n == 0 {
      return;
    }
    var start, startPos := fs[0], 0;
    var up := start.kind != Top;
    var end: Option<Fractal>, endPos := None, 0;
    var j := 1;
    while j < n
      invariant 0 <= startPos < n && start == fs[startPos] && (up <==> start.kind == Bottom)
      invariant 0 <= endPos < n && (end.Some? ==> end.value == fs[endPos] && end.value.kind != start.kind)
      invariant 1 <= j
      invariant strokes + StrokesFrom(fs, startPos, if end.Some? then Some(endPos) else None, j) == Strokes(fs)
      decreases n - j, if end.Some? then 1 else 0
    {
      var f := fs[j];
      if f.kind == start.kind {
        if end.Some? {
          var e := end.value;
          strokes := strokes + [Stroke(up, start.price, e.price, start.date, e.date, startPos, endPos)];
          end := None;
          start, startPos := e, endPos;
          up := !up;
        } else {
          if (!up && f.price > start.price) || (up && f.price < start.price) {
            start, startPos := f, j;
          }
          j := j + 1;
        }
      } else {
        if f.index as int - start.index as int >= MIN_GAP {
          end, endPos := Some(f), j;
        }
        j := j + 1;
      }
    }
    if end.Some? {
      var e := end.value;
      strokes := strokes + [Stroke(up, start.price, e.price, start.date, e.date, startPos, endPos)];
    }
  }

  // ---- What a stroke list is --------------------------------------------------------

  // `s` is the most extreme fractal of the type of fs[from] in from..to, the first one
  // if several are equally extreme.
  ghost predicate IsBest(fs: seq<Fractal>, from: nat, to: nat, s: nat) {
    && from <= s < to <= |fs|
    && fs[s].kind == fs[from].kind
    && (forall q :: from <= q < to && fs[q].kind == fs[from].kind ==>
          if fs[from].kind == Top then fs[q].price <= fs[s].price else fs[q].price >= fs[s].price)
    && (forall q :: from <= q < s && fs[q].kind == fs[from].kind ==> fs[q].price != fs[s].price)
  }

  // A fractal of the other type, four merged klines or more from the best start before it,
  // ends a stroke.
  ghost predicate CanEnd(fs: seq<Fractal>, from: nat, q: nat, s: nat) {
    from < q < |fs| && fs[q].kind != fs[from].kind && IsBest(fs, from, q, s) && fs[q].index - fs[s].index >= 4
  }

  ghost predicate NoEnd(fs: seq<Fractal>, from: nat, to: nat) {
    forall q: nat, s: nat :: q < to ==> !CanEnd(fs, from, q, s)
  }

  // The stroke after one that ended at `from` runs from the most extreme fractal since
  // then to the first fractal that can end it.
  ghost predicate IsStroke(fs: seq<Fractal>, from: nat, stroke: Stroke) {
    && stroke.startIdx < |fs| && stroke.endIdx < |fs|
    && CanEnd(fs, from, stroke.endIdx, stroke.startIdx)
    && NoEnd(fs, from, stroke.endIdx)
    && var start, end := fs[stroke.startIdx], fs[stroke.endIdx];
       && stroke.up == (start.kind == Bottom)
       && stroke.startPrice == start.price && stroke.endPrice == end.price
       && stroke.startDate == start.date && stroke.endDate == end.date
  }

  ghost predicate IsChain(fs: seq<Fractal>, from: nat, strokes: seq<Stroke>)
    decreases |strokes|
  {
    if strokes == [] then NoEnd(fs, from, |fs|)
    else IsStroke(fs, from, strokes[0]) && IsChain(fs, strokes[0].endIdx, strokes[1..])
  }

  lemma BestIsUnique(fs: seq<Fractal>, from: nat, to: nat, s: nat, t: nat)
    requires IsBest(fs, from, to, s) && IsBest(fs, from, to, t)
    ensures s == t
  {
  }

  // The definition leaves no choice.
  lemma {:induction false} ChainIsUnique(fs: seq<Fractal>, from: nat, a: seq<Stroke>, b: seq<Stroke>)
    requires IsChain(fs, from, a) && IsChain(fs, from, b)
    ensures a == b
    decreases |a|
  {
    hide IsBest;
    if a != [] && b != [] {
      var e := a[0].endIdx;
      assert b[0].endIdx == e;
      BestIsUnique(fs, from, e, a[0].startIdx, b[0].startIdx);
      ChainIsUnique(fs, e, a[1..], b[1..]);
      assert a == [a[0]] + a[1..] && b == [b[0]] + b[1..];
    }
  }

  lemma ExtendBest(fs: seq<Fractal>, from: nat, j: nat, start: nat)
    requires Swinging(fs) && IsBest(fs, from, j, start) && j < |fs|
    ensures IsBest(fs, from, j + 1,
                   if fs[j].kind == fs[from].kind && MoreExtreme(fs[j], fs[start]) then j else start)
  {
  }

  lemma ExtendNoEnd(fs: seq<Fractal>, from: nat, j: nat, start: nat)
    requires IsBest(fs, from, j, start) && j < |fs| && NoEnd(fs, from, j) && from < j
    requires fs[j].kind == fs[from].kind || !Far(fs[j], fs[start])
    ensures NoEnd(fs, from, j + 1)
  {
    forall q: nat, s: nat | q < j + 1 ensures !CanEnd(fs, from, q, s) {
      if q == j && IsBest(fs, from, q, s) {
        BestIsUnique(fs, from, j, s, start);
      }
    }
  }

  // On alternating fractals the loop builds exactly the chain; `from` is where the last
  // stroke ended. A pending endpoint is always the fractal just before `j`, because the
  // next one, of the other type, closes the stroke.
  lemma {:induction false} StrokesFromIsChain(fs: seq<Fractal>, from: nat, start: nat, end: Option<nat>, j: nat)
    requires Swinging(fs) && j <= |fs|
    requires end.None? ==> IsBest(fs, from, j, start) && NoEnd(fs, from, j)
    requires end.Some? ==> end.value + 1 == j && CanEnd(fs, from, end.value, start) && NoEnd(fs, from, end.value)
    ensures IsChain(fs, from, StrokesFrom(fs, start, end, j))
    decreases |fs| - j, if end.Some? then 1 else 0
  {
    hide IsBest, NoEnd;
    if end.Some? {
      var e := end.value;
      BestKind(fs, from, e, start);
      SoloBest(fs, e);
      if j < |fs| {
        StrokesFromIsChain(fs, e, e, None, j);
        PrependStroke(fs, from, start, e, StrokesFrom(fs, e, None, j));
        assert StrokesFrom(fs, start, end, j) == [MakeStroke(fs, start, e)] + StrokesFrom(fs, e, None, j);
      } else {
        PrependStroke(fs, from, start, e, []);
      }
    } else if j < |fs| {
      BestKind(fs, from, j, start);
      ExtendBest(fs, from, j, start);
      if fs[j].kind == fs[start].kind {
        ExtendNoEnd(fs, from, j, start);
        StrokesFromIsChain(fs, from, if MoreExtreme(fs[j], fs[start]) then j else start, None, j + 1);
      } else if Far(fs[j], fs[start]) {
        StrokesFromIsChain(fs, from, start, Some(j), j + 1);
      } else {
        ExtendNoEnd(fs, from, j, start);
        StrokesFromIsChain(fs, from, start, None, j + 1);
      }
    }
  }

  lemma BestKind(fs: seq<Fractal>, from: nat, j: nat, start: nat)
    requires IsBest(fs, from, j, start)
    ensures from < j && start < j <= |fs| && fs[start].kind == fs[from].kind
  {
  }

  lemma PrependStroke(fs: seq<Fractal>, from: nat, start: nat, e: nat, rest: seq<Stroke>)
    requires start < |fs| && CanEnd(fs, from, e, start) && NoEnd(fs, from, e) && IsChain(fs, e, rest)
    ensures IsChain(fs, from, [MakeStroke(fs, start, e)] + rest)
  {
    var first := MakeStroke(fs, start, e);
    assert ([first] + rest)[1..] == rest;
    assert IsStroke(fs, from, first);
  }

  lemma SoloBest(fs: seq<Fractal>, e: nat)
    requires e < |fs|
    ensures IsBest(fs, e, e + 1, e) && NoEnd(fs, e, e + 1)
  {
  }

  // ---- The composed pipeline ----------------------------------------------------------

  ghost predicate Moves(stroke: Stroke) {
    if stroke.up then stroke.startPrice < stroke.endPrice else stroke.startPrice > stroke.endPrice
  }

  // The fractal just before a stroke's end is of its start's type, so no more extreme than
  // the start, and the last swing leaves it in the stroke's direction.
  lemma StrokeMoves(fs: seq<Fractal>, from: nat, stroke: Stroke)
    requires Swinging(fs) && IsStroke(fs, from, stroke)
    ensures Moves(stroke)
    ensures from <= stroke.startIdx < stroke.endIdx
    ensures fs[stroke.endIdx].index - fs[stroke.startIdx].index >= 4
    ensures fs[stroke.endIdx].kind != fs[stroke.startIdx].kind == fs[from].kind
  {
    var e := stroke.endIdx;
    assert !MoreExtreme(fs[e - 1], fs[stroke.startIdx]);
  }

  lemma {:induction false} ChainMoves(fs: seq<Fractal>, from: nat, strokes: seq<Stroke>, k: nat)
    requires Swinging(fs) && IsChain(fs, from, strokes) && k < |strokes|
    ensures Moves(strokes[k]) && strokes[k].startIdx < strokes[k].endIdx < |fs|
    ensures fs[strokes[k].endIdx].index - fs[strokes[k].startIdx].index >= 4
    ensures IsBest(fs, if k == 0 then from else strokes[k - 1].endIdx, strokes[k].endIdx, strokes[k].startIdx)
    ensures k == 0 ==> strokes[0].up == (fs[from].kind == Bottom)
    ensures k > 0 ==> strokes[k].up != strokes[k - 1].up && strokes[k - 1].endIdx <= strokes[k].startIdx
    decreases |strokes|
  {
    StrokeMoves(fs, from, strokes[0]);
    if k > 0 {
      ChainMoves(fs, strokes[0].endIdx, strokes[1..], k - 1);
    }
  }

  // Merge, fractals and strokes composed: for any klines whose low does not exceed their
  // high, every stroke moves strictly the way it says, spans at least four merged klines,
  // starts at the most extreme fractal since the last stroke's end, and turns the last
  // stroke around.
  lemma PipelineStrokes(raw: seq<Kline>, k: nat)
    requires forall x | x in raw :: x.low <= x.high
    requires k < |Strokes(Fractals(Merge(raw)))|
    ensures var fs := Fractals(Merge(raw)); var strokes := Strokes(fs);
            && Moves(strokes[k]) && strokes[k].startIdx < strokes[k].endIdx < |fs|
            && fs[strokes[k].endIdx].index - fs[strokes[k].startIdx].index >= 4
            && IsBest(fs, if k == 0 then 0 else strokes[k - 1].endIdx, strokes[k].endIdx, strokes[k].startIdx)
            && (k > 0 ==> strokes[k].up != strokes[k - 1].up && strokes[k - 1].endIdx <= strokes[k].startIdx)
  {
    FractalsSwing(raw);
    var fs := Fractals(Merge(raw));
    SoloBest(fs, 0);
    StrokesFromIsChain(fs, 0, 0, None, 1);
    ChainMoves(fs, 0, Strokes(fs), k);
  }
}

module ChanZhongshus {
  import opened ChanKlines
  import opened ChanStrokes

  datatype Break = Unbroken | BrokenUp | BrokenDown

  // `is_broken` and `break_direction` of the program are one field here.
  datatype Zhongshu = Zhongshu(
    startDate: string, endDate: string, zg: real, zd: real, zz: real,
    strokeStartIdx: nat, strokeEndIdx: nat, broken: Break)

  predicate Through(s: Stroke, price: real) {
    s.startPrice <= price <= s.endPrice || s.endPrice <= price <= s.startPrice
  }

  // The two strokes share more than a point.
  ghost predicate Overlap(a: Stroke, b: Stroke) {
    exists p, q :: p != q && Through(a, p) && Through(b, p) && Through(a, q) && Through(b, q)
  }

  predicate Breaks(s: Stroke, z: Zhongshu) {
    (s.up && s.endPrice > z.zg) || (!s.up && s.endPrice < z.zd)
  }

  // `z` is the zone shared by strokes i and i + 1: a price lies in it exactly when both
  // strokes pass through it.
  ghost predicate IsZone(strokes: seq<Stroke>, i: nat, z: Zhongshu) {
    && i + 2 < |strokes|
    && z.strokeStartIdx == i && z.strokeEndIdx == i + 1
    && z.startDate == strokes[i].startDate
    && z.zd < z.zz < z.zg && z.zz - z.zd == z.zg - z.zz
    && forall p :: Through(strokes[i], p) && Through(strokes[i + 1], p) <==> z.zd <= p <= z.zg
  }

  // `z` is broken by the first later stroke that leaves it, and ends where that one starts.
  ghost predicate BreakKnown(strokes: seq<Stroke>, z: Zhongshu)
    requires z.strokeEndIdx < |strokes|
  {
    match z.broken
    case Unbroken =>
      && z.endDate == strokes[z.strokeEndIdx].endDate
      && forall j :: z.strokeEndIdx < j < |strokes| ==> !Breaks(strokes[j], z)
    case _ =>
      exists j :: && z.strokeEndIdx < j < |strokes| && Breaks(strokes[j], z)
                  && (forall i :: z.strokeEndIdx < i < j ==> !Breaks(strokes[i], z))
                  && z.endDate == strokes[j].startDate
                  && z.broken == if strokes[j].up then BrokenUp else BrokenDown
  }

  // Zones up to stroke `n`, leftmost first, never sharing a stroke, none missed: an
  // overlapping pair is a zone unless its first stroke already belongs to one.
  ghost predicate Greedy(strokes: seq<Stroke>, zs: seq<Zhongshu>, n: nat) {
    && (forall k :: 0 <= k < |zs| ==> IsZone(strokes, zs[k].strokeStartIdx, zs[k]) && zs[k].strokeEndIdx < n)
    && (forall k :: 0 <= k < |zs| - 1 ==> zs[k].strokeEndIdx < zs[k + 1].strokeStartIdx)
    && (forall i {:trigger strokes[i]} :: 0 <= i < n && i + 2 < |strokes| && Overlap(strokes[i], strokes[i + 1]) ==>
          exists k :: 0 <= k < |zs| && zs[k].strokeStartIdx <= i <= zs[k].strokeEndIdx)
  }

  method FindZhongshus(strokes: seq<Stroke>) returns (zs: seq<Zhongshu>)
    ensures Greedy(strokes, zs, |strokes|)
    ensures forall k :: 0 <= k < |zs| ==> BreakKnown(strokes, zs[k])
  {
    zs := Zones(strokes);
    var n := 0;
    while n < |zs|
      invariant 0 <= n <= |zs|
      invariant Greedy(strokes, zs, |strokes|)
      invariant forall k :: 0 <= k < |zs| ==> zs[k].strokeEndIdx < |strokes|
      invariant forall k :: 0 <= k < n ==> BreakKnown(strokes, zs[k])
      invariant forall k :: n <= k < |zs| ==>
        zs[k].broken == Unbroken && zs[k].endDate == strokes[zs[k].strokeEndIdx].endDate
    {
      var z := DetectBreak(strokes, zs[n]);
      ReplaceZone(strokes, zs, n, z);
      zs := zs[n := z];
      n := n + 1;
    }
  }

  lemma SameZone(strokes: seq<Stroke>, i: nat, z: Zhongshu, w: Zhongshu)
    requires IsZone(strokes, i, z) && w == z.(broken := w.broken, endDate := w.endDate)
    ensures IsZone(strokes, i, w)
  {
  }

  lemma ReplaceZone(strokes: seq<Stroke>, zs: seq<Zhongshu>, n: nat, z: Zhongshu)
    requires Greedy(strokes, zs, |strokes|) && n < |zs|
    requires z == zs[n].(broken := z.broken, endDate := z.endDate)
    ensures Greedy(strokes, zs[n := z], |strokes|)
  {
    hide Overlap, IsZone;
    var ws := zs[n := z];
    SameZone(strokes, zs[n].strokeStartIdx, zs[n], z);
    forall i {:trigger strokes[i]} | 0 <= i < |strokes| && i + 2 < |strokes| && Overlap(strokes[i], strokes[i + 1])
      ensures exists k :: 0 <= k < |ws| && ws[k].strokeStartIdx <= i <= ws[k].strokeEndIdx
    {
      var k :| 0 <= k < |zs| && zs[k].strokeStartIdx <= i <= zs[k].strokeEndIdx;
      assert ws[k].strokeStartIdx <= i <= ws[k].strokeEndIdx;
    }
  }

  method Zones(strokes: seq<Stroke>) returns (zs: seq<Zhongshu>)
    ensures Greedy(strokes, zs, |strokes|)
    ensures forall k :: 0 <= k < |zs| ==>
              zs[k].strokeEndIdx < |strokes| && zs[k].broken == Unbroken &&
              zs[k].endDate == strokes[zs[k].strokeEndIdx].endDate
  {
    zs := [];
    var i := 0;
    while i + 2 < |strokes|
      invariant 0 <= i
      invariant Greedy(strokes, zs, i)
      invariant forall k :: 0 <= k < |zs| ==>
        zs[k].strokeEndIdx < |strokes| && zs[k].broken == Unbroken &&
        zs[k].endDate == strokes[zs[k].strokeEndIdx].endDate
    {
      var a, b := strokes[i], strokes[i + 1];
      hide Greedy, Overlap, Through;
      var zd := Max(Min(a.startPrice, a.endPrice), Min(b.startPrice, b.endPrice));
      var zg := Min(Max(a.startPrice, a.endPrice), Max(b.startPrice, b.endPrice));
      OverlapMeans(a, b, zd, zg);
      if zd < zg {
        var z := Zhongshu(a.startDate, b.endDate, zg, zd, (zg + zd) / 2.0, i, i + 1, Unbroken);
        AppendZone(strokes, zs, i, z);
        zs := zs + [z];
        i := i + 2;
      } else {
        SkipStroke(strokes, zs, i);
        i := i + 1;
      }
    }
    NothingLeft(strokes, zs, i);
  }

  // Both strokes pass through exactly the prices from the higher low to the lower high.
  lemma OverlapMeans(a: Stroke, b: Stroke, zd: real, zg: real)
    requires zd == Max(Min(a.startPrice, a.endPrice), Min(b.startPrice, b.endPrice))
    requires zg == Min(Max(a.startPrice, a.endPrice), Max(b.startPrice, b.endPrice))
    ensures Overlap(a, b) <==> zd < zg
    ensures forall p :: Through(a, p) && Through(b, p) <==> zd <= p <= zg
  {
    if zd < zg {
      assert Through(a, zd) && Through(b, zd) && Through(a, zg) && Through(b, zg);
    }
  }

  lemma SkipStroke(strokes: seq<Stroke>, zs: seq<Zhongshu>, i: nat)
    requires i + 1 < |strokes| && Greedy(strokes, zs, i) && !Overlap(strokes[i], strokes[i + 1])
    ensures Greedy(strokes, zs, i + 1)
  {
    hide IsZone, Overlap;
  }

  lemma NothingLeft(strokes: seq<Stroke>, zs: seq<Zhongshu>, i: nat)
    requires i + 2 >= |strokes| && Greedy(strokes, zs, i)
    ensures Greedy(strokes, zs, |strokes|)
  {
    hide Overlap;
  }

  lemma AppendZone(strokes: seq<Stroke>, zs: seq<Zhongshu>, i: nat, z: Zhongshu)
    requires Greedy(strokes, zs, i) && IsZone(strokes, i, z)
    ensures Greedy(strokes, zs + [z], i + 2)
  {
    var ws := zs + [z];
    forall j {:trigger strokes[j]} | 0 <= j < i + 2 && j + 2 < |strokes| && Overlap(strokes[j], strokes[j + 1])
      ensures exists k :: 0 <= k < |ws| && ws[k].strokeStartIdx <= j <= ws[k].strokeEndIdx
    {
      if j < i {
        var k :| 0 <= k < |zs| && zs[k].strokeStartIdx <= j <= zs[k].strokeEndIdx;
        assert ws[k].strokeStartIdx <= j <= ws[k].strokeEndIdx;
      } else {
        assert ws[|zs|].strokeStartIdx <= j <= ws[|zs|].strokeEndIdx;
      }
    }
  }

  method DetectBreak(strokes: seq<Stroke>, zone: Zhongshu) returns (z: Zhongshu)
    requires zone.broken == Unbroken && zone.strokeEndIdx < |strokes|
    requires zone.endDate == strokes[zone.strokeEndIdx].endDate
    ensures z == zone.(broken := z.broken, endDate := z.endDate)
    ensures BreakKnown(strokes, z)
  {
    z := zone;
    for j := zone.strokeEndIdx + 1 to |strokes|
      invariant z == zone
      invariant forall i :: z.strokeEndIdx < i < j ==> !Breaks(strokes[i], z)
    {
      var s := strokes[j];
      assert Breaks(s, z) == Breaks(s, z.(broken := BrokenUp, endDate := s.startDate));
      if s.up && s.endPrice > z.zg {
        z := z.(broken := BrokenUp, endDate := s.startDate);
        assert Breaks(strokes[j], z);
        assert forall i :: z.strokeEndIdx < i < j ==> Breaks(strokes[i], z) == Breaks(strokes[i], zone);
        return;
      }
      if !s.up && s.endPrice < z.zd {
        z := z.(broken := BrokenDown, endDate := s.startDate);
        assert Breaks(strokes[j], z);
        assert forall i :: z.strokeEndIdx < i < j ==> Breaks(strokes[i], z) == Breaks(strokes[i], zone);
        return;
      }
    }
  }
}
