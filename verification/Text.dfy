// Strings as sequences of characters: substring search.

module Text {

  // `marker` occurs in `text` at position `i`.
  ghost predicate OccursAt(text: string, marker: string, i: int) {
    && 0 <= i
    && i + |marker| <= |text|
    && forall d :: 0 <= d < |marker| ==> text[i + d] == marker[d]
  }

  ghost predicate Contains(text: string, marker: string) {
    exists i :: OccursAt(text, marker, i)
  }

  // Leftmost occurrence of `marker`, or -1.
  function Find(text: string, marker: string): (i: int)
    ensures -1 <= i
    ensures i >= 0 ==> i + |marker| <= |text| && OccursAt(text, marker, i)
  {
    FindFrom(text, marker, 0)
  }

  function FindFrom(text: string, marker: string, from: nat): (i: int)
    requires from <= |text|
    ensures -1 <= i
    ensures i >= 0 ==> from <= i && i + |marker| <= |text| && OccursAt(text, marker, i)
    decreases |text| - from
  {
    if |text| - from < |marker| then -1
    else if Matches(text, marker, from) then from
    else if from == |text| then -1
    else FindFrom(text, marker, from + 1)
  }

  predicate Matches(text: string, marker: string, i: nat)
    requires i + |marker| <= |text|
  {
    forall d :: 0 <= d < |marker| ==> text[i + d] == marker[d]
  }

  lemma OccursInPrefix(text: string, rest: string, marker: string, k: int)
    requires k + |marker| <= |text|
    ensures OccursAt(text + rest, marker, k) <==> OccursAt(text, marker, k)
  {
  }

  lemma OccursInSuffix(text: string, rest: string, marker: string, k: int)
    requires k >= 0
    ensures OccursAt(text + rest, marker, |text| + k) <==> OccursAt(rest, marker, k)
  {
    if k + |marker| <= |rest| {
      assert (text + rest)[|text| + k..|text| + k + |marker|] == rest[k..k + |marker|];
      SliceOccurs(rest, marker, k);
      SliceOccurs(text + rest, marker, |text| + k);
    }
  }

  lemma SliceOccurs(text: string, marker: string, k: nat)
    requires k + |marker| <= |text|
    ensures OccursAt(text, marker, k) <==> text[k..k + |marker|] == marker
  {
    if text[k..k + |marker|] == marker {
      forall d | 0 <= d < |marker| ensures text[k + d] == marker[d] {
        assert text[k..k + |marker|][d] == marker[d];
      }
    }
  }

  // Find misses nothing: no occurrence lies before its result, and it reports one if there is one.
  lemma {:induction false} FindFromLeftmost(text: string, marker: string, from: nat, k: int)
    requires from <= k && OccursAt(text, marker, k)
    ensures 0 <= FindFrom(text, marker, from) <= k
    decreases |text| - from
  {
    if from < k {
      FindFromLeftmost(text, marker, from + 1, k);
    }
  }

  lemma FindIs(text: string, marker: string, i: int)
    requires i >= 0 ==> OccursAt(text, marker, i)
    requires forall k :: OccursAt(text, marker, k) ==> 0 <= i <= k
    ensures Find(text, marker) == if i < 0 then -1 else i
  {
    if i >= 0 {
      FindFromLeftmost(text, marker, 0, i);
    }
  }

  lemma FindLeftmost(text: string, marker: string)
    ensures forall k :: OccursAt(text, marker, k) ==> 0 <= Find(text, marker) <= k
  {
    forall k | OccursAt(text, marker, k) ensures 0 <= Find(text, marker) <= k {
      FindFromLeftmost(text, marker, 0, k);
    }
  }

  lemma FindNothing(text: string, marker: string)
    requires !Contains(text, marker)
    ensures Find(text, marker) == -1
  {
    FindIs(text, marker, -1);
  }

  lemma NothingBeforeFind(text: string, marker: string, i: nat)
    requires i <= |text| && marker != "" && (i == Find(text, marker) || Find(text, marker) < 0)
    ensures !Contains(text[..i], marker)
  {
    FindLeftmost(text, marker);
    forall k ensures !OccursAt(text[..i], marker, k) {
      if 0 <= k && k + |marker| <= i {
        assert text[..i] + text[i..] == text;
        OccursInPrefix(text[..i], text[i..], marker, k);
      }
    }
  }

  function Concat(parts: seq<string>): string {
    if parts == [] then "" else parts[0] + Concat(parts[1..])
  }
}
