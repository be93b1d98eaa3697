// The streaming filter that keeps private reasoning out of visible model output
// (crates/agent-runtime/src/minimax.rs). Text arrives in arbitrary fragments; the
// filter holds back just enough of it to recognise a marker split across fragments.
// The markers are ASCII, so byte offsets of the program and character offsets here
// select the same substrings.

module VisibilityFilters {
  import opened Sequences
  import opened Text

  const OPEN := "<think>"
  const CLOSE := "</think>"

  // The marker that ends the current mode.
  function Marker(inside: bool): string {
    if inside then CLOSE else OPEN
  }

  // ---- The whole-text definition ------------------------------------------------

  // Visible part of `text` when reading starts inside, or outside, a reasoning span:
  // outside, everything up to the next opening marker; inside, nothing.
  function Reading(inside: bool, text: string): string
    decreases |text|
  {
    var i := Find(text, Marker(inside));
    if i < 0 then Unless(inside, text)
    else Unless(inside, text[..i]) + Reading(!inside, text[i + |Marker(inside)|..])
  }

  function Unless(inside: bool, text: string): string {
    if inside then "" else text
  }

  function Visible(text: string): string {
    Reading(false, text)
  }

  // ---- The streaming filter -------------------------------------------------------

  // A non-empty proper prefix of the marker ends the text.
  ghost predicate Dangling(text: string, marker: string, length: int) {
    1 <= length < |marker| && length <= |text| && text[|text| - length..] == marker[..length]
  }

  ghost predicate LongestDangling(text: string, marker: string, keep: nat) {
    && (keep == 0 || Dangling(text, marker, keep))
    && keep <= |text|
    && forall length :: Dangling(text, marker, length) ==> length <= keep
  }

  // A text with nothing left to decide: it is a proper prefix of the marker awaited.
  ghost predicate Settled(inside: bool, pending: string) {
    |pending| < |Marker(inside)| && pending == Marker(inside)[..|pending|]
  }

  // Having emitted `visible` and holding `pending` is as good as having read `text`,
  // whatever is read next.
  ghost predicate Tracks(inside0: bool, text: string, visible: string, inside: bool, pending: string) {
    forall future {:trigger Reading(inside, pending + future)} {:trigger Reading(inside0, text + future)} ::
      Reading(inside0, text + future) == visible + Reading(inside, pending + future)
  }

  method SuffixPrefixLen(text: string, marker: string) returns (keep: nat)
    requires marker != ""
    ensures LongestDangling(text, marker, keep)
  {
    keep := |marker| - 1;
    while keep > 0
      invariant keep < |marker|
      invariant forall length :: Dangling(text, marker, length) ==> length <= keep
    {
      if keep <= |text| && text[|text| - keep..] == marker[..keep] {
        return;
      }
      keep := keep - 1;
    }
  }

  class VisibilityFilter {
    var pending: string
    var insideReasoning: bool

    constructor ()
      ensures pending == "" && !insideReasoning
    {
      pending, insideReasoning := "", false;
    }

    // What was emitted and what is still held together decide exactly what the text
    // read so far decides, and no more is held than a possible beginning of a marker.
    method Push(text: string) returns (visible: string)
      modifies this
      ensures Settled(insideReasoning, pending)
      ensures Tracks(old(insideReasoning), old(pending) + text, visible, insideReasoning, pending)
    {
      hide Tracks, Reading;
      pending := pending + text;
      visible := "";
      ghost var inside0, text0 := insideReasoning, pending;
      StartTracks(inside0, text0);
      while true
        invariant Tracks(inside0, text0, visible, insideReasoning, pending)
        decreases |pending|
      {
        var marker := Marker(insideReasoning);
        var at := Find(pending, marker);
        if at >= 0 {
          FoundTracks(inside0, text0, visible, insideReasoning, pending);
          ghost var emitted := visible + Unless(insideReasoning, pending[..at]);
          if !insideReasoning {
            visible := visible + pending[..at];
          }
          assert visible == emitted;
          pending := pending[at + |marker|..];
          insideReasoning := !insideReasoning;
        } else {
          var keep := SuffixPrefixLen(pending, marker);
          HeldTracks(inside0, text0, visible, insideReasoning, pending, keep);
          HeldSettles(insideReasoning, pending, keep);
          var emit := |pending| - keep;
          ghost var emitted := visible + Unless(insideReasoning, pending[..emit]);
          if !insideReasoning {
            visible := visible + pending[..emit];
          }
          assert visible == emitted;
          pending := pending[emit..];
          assert Tracks(inside0, text0, visible, insideReasoning, pending);
          break;
        }
      }
    }

    method Finish() returns (visible: string)
      requires Settled(insideReasoning, pending)
      modifies this
      ensures visible == Reading(old(insideReasoning), old(pending))
      ensures pending == "" && insideReasoning == old(insideReasoning)
    {
      if insideReasoning {
        pending := "";
        visible := "";
      } else {
        visible := pending;
        pending := "";
      }
    }
  }

  lemma StartTracks(inside: bool, text: string)
    ensures Tracks(inside, text, "", inside, text)
  {
    forall future ensures Reading(inside, text + future) == "" + Reading(inside, text + future) {
      Associate("", "", Reading(inside, text + future));
    }
  }

  lemma HeldSettles(inside: bool, pending: string, keep: nat)
    requires LongestDangling(pending, Marker(inside), keep)
    ensures Settled(inside, pending[|pending| - keep..])
  {
  }

  lemma FoundTracks(inside0: bool, text0: string, visible: string, inside: bool, pending: string)
    requires Tracks(inside0, text0, visible, inside, pending)
    requires Find(pending, Marker(inside)) >= 0
    ensures var at := Find(pending, Marker(inside));
            Tracks(inside0, text0, visible + Unless(inside, pending[..at]), !inside, pending[at + |Marker(inside)|..])
  {
    var at := Find(pending, Marker(inside));
    var emitted, rest := Unless(inside, pending[..at]), pending[at + |Marker(inside)|..];
    forall future
      ensures Reading(inside0, text0 + future) == (visible + emitted) + Reading(!inside, rest + future)
    {
      FoundStep(inside, pending, future);
      assert Reading(inside0, text0 + future) == visible + Reading(inside, pending + future);
      Associate(visible, emitted, Reading(!inside, rest + future));
    }
  }

  lemma HeldTracks(inside0: bool, text0: string, visible: string, inside: bool, pending: string, keep: nat)
    requires Tracks(inside0, text0, visible, inside, pending)
    requires Find(pending, Marker(inside)) < 0 && LongestDangling(pending, Marker(inside), keep)
    ensures var emit := |pending| - keep;
            Tracks(inside0, text0, visible + Unless(inside, pending[..emit]), inside, pending[emit..])
  {
    var emit := |pending| - keep;
    var emitted, rest := Unless(inside, pending[..emit]), pending[emit..];
    forall future
      ensures Reading(inside0, text0 + future) == (visible + emitted) + Reading(inside, rest + future)
    {
      HeldStep(inside, pending, keep, future);
      assert Reading(inside0, text0 + future) == visible + Reading(inside, pending + future);
      Associate(visible, emitted, Reading(inside, rest + future));
    }
  }

  // A marker in hand is consumed, whatever follows.
  lemma FoundStep(inside: bool, text: string, future: string)
    requires Find(text, Marker(inside)) >= 0
    ensures var at := Find(text, Marker(inside));
            Reading(inside, text + future)
            == Unless(inside, text[..at]) + Reading(!inside, text[at + |Marker(inside)|..] + future)
  {
    var m := Marker(inside);
    var at := Find(text, m);
    FindLeftmost(text, m);
    forall k ensures OccursAt(text + future, m, k) ==> 0 <= at <= k {
      if k <= at {
        OccursInPrefix(text, future, m, k);
      }
    }
    OccursInPrefix(text, future, m, at);
    FindIs(text + future, m, at);
    assert (text + future)[at + |m|..] == text[at + |m|..] + future;
    assert (text + future)[..at] == text[..at];
  }

  // An occurrence that straddles the end of `text` starts inside a dangling prefix.
  lemma StraddleDangles(text: string, future: string, marker: string, k: int)
    requires 0 <= k < |text| < k + |marker|
    ensures OccursAt(text + future, marker, k) ==> Dangling(text, marker, |text| - k)
  {
    if OccursAt(text + future, marker, k) {
      SliceOccurs(text + future, marker, k);
      assert text[k..] == (text + future)[k..k + |marker|][..|text| - k];
    }
  }

  // With no marker in hand, the part before the longest dangling prefix starts none.
  lemma NoneBeforeHeld(text: string, marker: string, keep: nat, future: string, k: int)
    requires Find(text, marker) < 0 && marker != "" && LongestDangling(text, marker, keep)
    requires k < |text| - keep
    ensures !OccursAt(text + future, marker, k)
  {
    FindLeftmost(text, marker);
    if k + |marker| <= |text| {
      OccursInPrefix(text, future, marker, k);
    } else if k >= 0 {
      StraddleDangles(text, future, marker, k);
    }
  }

  // With no marker in hand, all but the dangling prefix is decided.
  lemma HeldStep(inside: bool, text: string, keep: nat, future: string)
    requires Find(text, Marker(inside)) < 0 && LongestDangling(text, Marker(inside), keep)
    ensures Reading(inside, text + future)
            == Unless(inside, text[..|text| - keep]) + Reading(inside, text[|text| - keep..] + future)
  {
    hide OccursAt, Reading;
    var m, emit := Marker(inside), |text| - keep;
    var gone, rest := text[..emit], text[emit..] + future;
    assert text + future == gone + rest;
    forall k | k < emit ensures !OccursAt(gone + rest, m, k) {
      NoneBeforeHeld(text, m, keep, future, k);
    }
    ShiftedReading(inside, gone, rest);
  }

  lemma ShiftedFind(gone: string, rest: string, m: string)
    requires forall k | k < |gone| :: !OccursAt(gone + rest, m, k)
    ensures Find(gone + rest, m) == if Find(rest, m) < 0 then -1 else |gone| + Find(rest, m)
  {
    hide Find, OccursAt;
    var j := Find(rest, m);
    FindLeftmost(rest, m);
    forall k ensures OccursAt(gone + rest, m, k) ==> j >= 0 && |gone| + j <= k {
      if k >= |gone| {
        OccursInSuffix(gone, rest, m, k - |gone|);
      }
    }
    if j >= 0 {
      OccursInSuffix(gone, rest, m, j);
      FindIs(gone + rest, m, |gone| + j);
    } else {
      FindIs(gone + rest, m, -1);
    }
  }

  lemma ShiftedReading(inside: bool, gone: string, rest: string)
    requires forall k | k < |gone| :: !OccursAt(gone + rest, Marker(inside), k)
    ensures Reading(inside, gone + rest) == Unless(inside, gone) + Reading(inside, rest)
  {
    hide Find, OccursAt;
    var m, j := Marker(inside), Find(rest, Marker(inside));
    ShiftedFind(gone, rest, m);
    if j >= 0 {
      assert (gone + rest)[..|gone| + j] == gone + rest[..j];
      assert (gone + rest)[|gone| + j + |m|..] == rest[j + |m|..];
      Associate(Unless(inside, gone), Unless(inside, rest[..j]), Reading(!inside, rest[j + |m|..]));
    }
  }

  // ---- Whole streams -------------------------------------------------------------

  // However the text is split, the emitted fragments join to its visible part.
  method FilterStream(fragments: seq<string>) returns (visible: string)
    ensures visible == Visible(Concat(fragments))
  {
    var filter := new VisibilityFilter();
    visible := "";
    assert "" + Concat(fragments) == Concat(fragments);
    for i := 0 to |fragments|
      invariant Settled(filter.insideReasoning, filter.pending)
      invariant Visible(Concat(fragments))
             == visible + Reading(filter.insideReasoning, filter.pending + Concat(fragments[i..]))
    {
      ghost var inside0, held, future := filter.insideReasoning, filter.pending, Concat(fragments[i + 1..]);
      assert fragments[i..][1..] == fragments[i + 1..];
      Associate(held, fragments[i], future);
      var out := filter.Push(fragments[i]);
      Associate(visible, out, Reading(filter.insideReasoning, filter.pending + future));
      assert Reading(inside0, (held + fragments[i]) + future)
          == out + Reading(filter.insideReasoning, filter.pending + future);
      visible := visible + out;
    }
    assert filter.pending + Concat(fragments[|fragments|..]) == filter.pending;
    var tail := filter.Finish();
    visible := visible + tail;
  }

  // ---- What the whole-text definition means ---------------------------------------

  // A piece of visible text followed by one complete reasoning span.
  datatype Block = Block(shown: string, private: string)

  function Render(blocks: seq<Block>, tail: string): string {
    if blocks == [] then tail
    else blocks[0].shown + (OPEN + (blocks[0].private + (CLOSE + Render(blocks[1..], tail))))
  }

  function Shown(blocks: seq<Block>): string {
    if blocks == [] then "" else blocks[0].shown + Shown(blocks[1..])
  }

  // After the complete spans: visible text, then possibly a span that never closes.
  datatype Tail = Ended(shown: string) | Unclosed(shown: string, private: string)
  {
    function Text(): string {
      if Ended? then shown else shown + (OPEN + private)
    }
  }

  // Visible pieces hold no opening marker and private pieces no closing marker.
  ghost predicate Unmarked(blocks: seq<Block>, tail: Tail) {
    && (forall i :: 0 <= i < |blocks| ==> !Contains(blocks[i].shown, OPEN) && !Contains(blocks[i].private, CLOSE))
    && !Contains(tail.shown, OPEN)
    && (tail.Unclosed? ==> !Contains(tail.private, CLOSE))
  }

  // A marker starts with a character it does not contain again, so it cannot
  // straddle the end of marker-free text.
  lemma FindAfter(text: string, marker: string, rest: string)
    requires marker != "" && !Contains(text, marker)
    requires forall k :: 0 < k < |marker| ==> marker[k] != marker[0]
    ensures Find(text + (marker + rest), marker) == |text|
    ensures (text + (marker + rest))[|text| + |marker|..] == rest
    ensures (text + (marker + rest))[..|text|] == text
  {
    var whole := text + (marker + rest);
    OccursInSuffix(text, marker + rest, marker, 0);
    assert whole[|text|] == marker[0];
    forall k | k < |text| ensures !OccursAt(whole, marker, k) {
      if k + |marker| <= |text| {
        OccursInPrefix(text, marker + rest, marker, k);
      } else if k >= 0 {
        var d := |text| - k;
        assert whole[k + d] != marker[d];
      }
    }
    FindIs(whole, marker, |text|);
  }

  lemma ReadingAfter(inside: bool, text: string, rest: string)
    requires !Contains(text, Marker(inside))
    ensures Reading(inside, text + (Marker(inside) + rest)) == Unless(inside, text) + Reading(!inside, rest)
  {
    FindAfter(text, Marker(inside), rest);
  }

  lemma ReadingPlain(inside: bool, text: string)
    requires !Contains(text, Marker(inside))
    ensures Reading(inside, text) == Unless(inside, text)
  {
    FindNothing(text, Marker(inside));
  }

  lemma ReadingBlock(b: Block, rest: string)
    requires !Contains(b.shown, OPEN) && !Contains(b.private, CLOSE)
    ensures Visible(b.shown + (OPEN + (b.private + (CLOSE + rest)))) == b.shown + Visible(rest)
  {
    var inner := b.private + (CLOSE + rest);
    assert Reading(true, inner) == Visible(rest) by {
      ReadingAfter(true, b.private, rest);
    }
    assert Visible(b.shown + (OPEN + inner)) == b.shown + Reading(true, inner) by {
      ReadingAfter(false, b.shown, inner);
    }
  }

  // Exactly the text outside the reasoning spans is shown; a final span that is
  // never closed is dropped whole.
  lemma {:induction false} VisibleOfRendered(blocks: seq<Block>, tail: Tail)
    requires Unmarked(blocks, tail)
    ensures Visible(Render(blocks, tail.Text())) == Shown(blocks) + tail.shown
  {
    if blocks == [] {
      if tail.Ended? {
        ReadingPlain(false, tail.shown);
      } else {
        ReadingAfter(false, tail.shown, tail.private);
        ReadingPlain(true, tail.private);
      }
    } else {
      var b, rest := blocks[0], Render(blocks[1..], tail.Text());
      VisibleOfRendered(blocks[1..], tail);
      ReadingBlock(b, rest);
      Associate(b.shown, Shown(blocks[1..]), tail.shown);
    }
  }

  // Every text has the shape the previous lemma reads.
  lemma {:induction false} EveryTextIsRendered(text: string) returns (blocks: seq<Block>, tail: Tail)
    ensures Unmarked(blocks, tail)
    ensures text == Render(blocks, tail.Text())
    decreases |text|
  {
    hide Find, OccursAt, Contains;
    var i := Find(text, OPEN);
    if i < 0 {
      NotFound(text, OPEN);
      blocks, tail := [], Ended(text);
    } else {
      var inner := text[i + |OPEN|..];
      SplitAtFound(text, OPEN);
      var j := Find(inner, CLOSE);
      if j < 0 {
        NotFound(inner, CLOSE);
        blocks, tail := [], Unclosed(text[..i], inner);
      } else {
        SplitAtFound(inner, CLOSE);
        var block, rest := Block(text[..i], inner[..j]), inner[j + |CLOSE|..];
        var more;
        more, tail := EveryTextIsRendered(rest);
        blocks := [block] + more;
        assert blocks[1..] == more;
      }
    }
  }

  lemma NotFound(text: string, marker: string)
    requires Find(text, marker) < 0 && marker != ""
    ensures !Contains(text, marker)
  {
    NothingBeforeFind(text, marker, |text|);
    assert text[..|text|] == text;
  }

  lemma SplitAtFound(text: string, marker: string)
    requires Find(text, marker) >= 0 && marker != ""
    ensures var i := Find(text, marker);
            && i + |marker| <= |text| && !Contains(text[..i], marker)
            && text == text[..i] + (marker + text[i + |marker|..])
  {
    var i := Find(text, marker);
    NothingBeforeFind(text, marker, i);
    SliceOccurs(text, marker, i);
  }
}
