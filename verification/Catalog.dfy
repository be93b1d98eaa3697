// The evidence catalog (crates/agent-runtime/src/catalog.rs): which object a fact belongs
// to, and which registrations of an identifier disagree.

module Attributions {
  import opened Pointers
  import opened Wrappers

  const REGISTRY := "evidence_registry"

  datatype Attribution = Attribution(
    symbol: Option<string>, documentTitle: Option<string>, publishedAt: Option<string>, unit: Option<string>)

  const EMPTY := Attribution(None, None, None, None)

  // ---- What an object asserts -------------------------------------------------------------

  function Get(fields: seq<Field>, key: string): Option<Json> {
    if fields == [] then None
    else if fields[0].key == key then Some(fields[0].value)
    else Get(fields[1..], key)
  }

  // Unicode white space.
  predicate IsSpace(c: char) {
    var n := c as int;
    9 <= n <= 13 || n == 0x20 || n == 0x85 || n == 0xA0 || n == 0x1680 || 0x2000 <= n <= 0x200A
    || n == 0x2028 || n == 0x2029 || n == 0x202F || n == 0x205F || n == 0x3000
  }

  function Trim(s: string): string {
    if s == "" then ""
    else if IsSpace(s[0]) then Trim(s[1..])
    else if IsSpace(s[|s| - 1]) then Trim(s[..|s| - 1])
    else s
  }

  // The first of the keys that holds a usable text.
  function FirstText(fields: seq<Field>, keys: seq<string>, max: nat): Option<string> {
    if keys == [] then None
    else
      var value := Get(fields, keys[0]);
      if value.Some? && value.value.Text? && 0 < |Trim(value.value.s)| <= max then Some(Trim(value.value.s))
      else FirstText(fields, keys[1..], max)
  }

  // A symbol is exactly six digits.
  function SymbolOf(fields: seq<Field>): Option<string> {
    match Get(fields, "symbol")
    case Some(Text(s)) =>
      if |s| == 6 && (forall i :: 0 <= i < 6 ==> '0' <= s[i] <= '9') then Some(s) else None
    case _ => None
  }

  function OrElse(own: Option<string>, inherited: Option<string>): Option<string> {
    if own.Some? then own else inherited
  }

  function Extended(inherited: Attribution, fields: seq<Field>): Attribution {
    Attribution(
      OrElse(SymbolOf(fields), inherited.symbol),
      OrElse(FirstText(fields, ["title", "headline"], 200), inherited.documentTitle),
      OrElse(FirstText(fields, ["published_at", "publish_time", "pub_time"], 40), inherited.publishedAt),
      OrElse(FirstText(fields, ["unit", "currency"], 20), inherited.unit))
  }

  // ---- The sparse index -------------------------------------------------------------------

  type PathIndex = map<string, Attribution>

  // Records an object only where it adds something.
  function Collect(value: Json, path: string, inherited: Attribution, out: PathIndex): PathIndex
    decreases value
  {
    match value
    case Object(fields) =>
      var own := Extended(inherited, fields);
      CollectFields(value, 0, path, own, if own != inherited && own != EMPTY then out[path := own] else out)
    case Array(items) => CollectItems(value, 0, path, inherited, out)
    case _ => out
  }

  function CollectFields(node: Json, n: nat, path: string, own: Attribution, out: PathIndex): PathIndex
    requires node.Object? && n <= |node.fields|
    decreases node, |node.fields| - n
  {
    if n == |node.fields| then out
    else
      var field := node.fields[n];
      CollectFields(node, n + 1, path, own,
                    if field.key == REGISTRY then out else Collect(field.value, Child(path, Key(field.key)), own, out))
  }

  function CollectItems(node: Json, n: nat, path: string, inherited: Attribution, out: PathIndex): PathIndex
    requires node.Array? && n <= |node.items|
    decreases node, |node.items| - n
  {
    if n == |node.items| then out
    else CollectItems(node, n + 1, path, inherited, Collect(node.items[n], Child(path, Index(n)), inherited, out))
  }

  // The index of a result; the root carries what the call itself established.
  function IndexOf(result: Json, root: Attribution): PathIndex {
    Collect(result, "", root, if root != EMPTY then map["" := root] else map[])
  }

  function At(index: PathIndex, path: string): Option<Attribution> {
    if path in index then Some(index[path]) else None
  }

  // Longest recorded prefix.
  function Lookup(path: string, index: PathIndex): Option<Attribution>
    decreases |path|
  {
    if path in index then Some(index[path])
    else if LastSlash(path) < 0 then At(index, "")
    else Lookup(path[..LastSlash(path)], index)
  }

  method AttributionFor(path: string, index: PathIndex) returns (found: Option<Attribution>)
    ensures found == Lookup(path, index)
  {
    var candidate := path;
    while true
      invariant Lookup(candidate, index) == Lookup(path, index)
      decreases |candidate|
    {
      if candidate in index {
        return Some(index[candidate]);
      }
      var cut := LastSlash(candidate);
      if cut < 0 {
        return At(index, "");
      }
      candidate := candidate[..cut];
    }
  }

  // ---- Inheritance down the tree ------------------------------------------------------------

  // Keys of an object are distinct, all the way down.
  ghost predicate DistinctKeys(value: Json)
    decreases value
  {
    match value
    case Object(fields) =>
      && (forall i, j :: 0 <= i < j < |fields| ==> fields[i].key != fields[j].key)
      && (forall i :: 0 <= i < |fields| ==> DistinctKeys(fields[i].value))
    case Array(items) => forall i :: 0 <= i < |items| ==> DistinctKeys(items[i])
    case _ => true
  }

  // The part one step down, unless it is a registry.
  function Part(value: Json, step: Step): Option<Json> {
    match step
    case Key(key) => if value.Object? && key != REGISTRY then Get(value.fields, key) else None
    case Index(i) => if value.Array? && i < |value.items| then Some(value.items[i]) else None
  }

  function Own(value: Json, above: Attribution): Attribution {
    if value.Object? then Extended(above, value.fields) else above
  }

  // Attribution handed down to a part: each object on the way, the part included, extends
  // what it inherits. None if the steps lead nowhere.
  function Inherited(value: Json, steps: seq<Step>, above: Attribution): Option<Attribution>
    decreases |steps|
  {
    if steps == [] then Some(Own(value, above))
    else
      match Part(value, steps[0])
      case None => None
      case Some(part) => Inherited(part, steps[1..], Own(value, above))
  }

  // ---- The index agrees with inheritance ----------------------------------------------------

  // Two indexes agree on everything outside, or everything inside, the subtree at `path`.
  ghost predicate SameOutside(path: string, a: PathIndex, b: PathIndex) {
    forall key :: !Under(path, key) ==> At(a, key) == At(b, key)
  }

  ghost predicate SameInside(path: string, a: PathIndex, b: PathIndex) {
    forall key :: Under(path, key) ==> At(a, key) == At(b, key)
  }

  ghost predicate VacantInside(path: string, index: PathIndex) {
    forall key :: Under(path, key) ==> key !in index
  }

  lemma OutsideChild(path: string, step: Step, a: PathIndex, b: PathIndex)
    requires SameOutside(Child(path, step), a, b)
    ensures SameOutside(path, a, b)
    ensures At(a, path) == At(b, path)
  {
    forall key | !Under(path, key) ensures At(a, key) == At(b, key) {
      if Under(Child(path, step), key) {
        ChildrenAreUnder(path, step, key);
      }
    }
    if Under(Child(path, step), path) {
      ChildrenAreUnder(path, step, path);
    }
  }

  // Collecting a subtree writes only inside it.
  lemma {:induction false} CollectStaysInside(value: Json, path: string, inherited: Attribution, out: PathIndex)
    ensures SameOutside(path, Collect(value, path, inherited, out), out)
    decreases value
  {
    match value
    case Object(fields) =>
      var own := Extended(inherited, fields);
      FieldsStayInside(value, 0, path, own, if own != inherited && own != EMPTY then out[path := own] else out);
    case Array(items) =>
      ItemsStayInside(value, 0, path, inherited, out);
    case _ =>
  }

  lemma {:induction false} FieldsStayInside(node: Json, n: nat, path: string, own: Attribution, out: PathIndex)
    requires node.Object? && n <= |node.fields|
    ensures SameOutside(path, CollectFields(node, n, path, own, out), out)
    ensures At(CollectFields(node, n, path, own, out), path) == At(out, path)
    decreases node, |node.fields| - n
  {
    if n < |node.fields| {
      var field := node.fields[n];
      var step := Key(field.key);
      var next := if field.key == REGISTRY then out else Collect(field.value, Child(path, step), own, out);
      if field.key != REGISTRY {
        CollectStaysInside(field.value, Child(path, step), own, out);
        OutsideChild(path, step, next, out);
      }
      FieldsStayInside(node, n + 1, path, own, next);
    }
  }

  lemma {:induction false} ItemsStayInside(node: Json, n: nat, path: string, inherited: Attribution, out: PathIndex)
    requires node.Array? && n <= |node.items|
    ensures SameOutside(path, CollectItems(node, n, path, inherited, out), out)
    ensures At(CollectItems(node, n, path, inherited, out), path) == At(out, path)
    decreases node, |node.items| - n
  {
    if n < |node.items| {
      var next := Collect(node.items[n], Child(path, Index(n)), inherited, out);
      CollectStaysInside(node.items[n], Child(path, Index(n)), inherited, out);
      OutsideChild(path, Index(n), next, out);
      ItemsStayInside(node, n + 1, path, inherited, next);
    }
  }

  // Deepest record on the way down the steps from `path`.
  function Seek(index: PathIndex, path: string, steps: seq<Step>): Option<Attribution>
    decreases |steps|
  {
    if steps == [] then At(index, path)
    else
      var below := Seek(index, Child(path, steps[0]), steps[1..]);
      if below.Some? then below else At(index, path)
  }

  lemma {:induction false} SeekInside(a: PathIndex, b: PathIndex, path: string, steps: seq<Step>)
    requires SameInside(path, a, b)
    ensures Seek(a, path, steps) == Seek(b, path, steps)
    decreases |steps|
  {
    if steps != [] {
      forall key | Under(Child(path, steps[0]), key) ensures At(a, key) == At(b, key) {
        ChildrenAreUnder(path, steps[0], key);
      }
      SeekInside(a, b, Child(path, steps[0]), steps[1..]);
    }
  }

  // A record found is what the part inherits; none found means it inherits what came in.
  ghost predicate Tells(found: Option<Attribution>, truth: Attribution, above: Attribution) {
    if found.Some? then found.value == truth else truth == above
  }

  // Before a value is collected at `path`, nothing is recorded below it, and at it at most
  // what it inherits.
  ghost predicate Ready(path: string, inherited: Attribution, out: PathIndex) {
    && (forall key :: Under(path, key) && key != path ==> key !in out)
    && (path in out ==> out[path] == inherited)
  }

  lemma ReadyBelow(path: string, step: Step, inherited: Attribution, out: PathIndex)
    requires forall key :: Under(path, key) && key != path ==> key !in out
    ensures VacantInside(Child(path, step), out)
  {
    forall key | Under(Child(path, step), key) ensures key !in out {
      ChildrenAreUnder(path, step, key);
    }
  }

  // Collecting one child leaves the subtree of another as it was.
  lemma SiblingKept(value: Json, path: string, a: Step, b: Step, inherited: Attribution, out: PathIndex)
    requires a != b && (a.Key? <==> b.Key?)
    ensures SameInside(Child(path, b), Collect(value, Child(path, a), inherited, out), out)
  {
    CollectStaysInside(value, Child(path, a), inherited, out);
    forall key | Under(Child(path, b), key)
      ensures At(Collect(value, Child(path, a), inherited, out), key) == At(out, key)
    {
      SiblingsAreApart(path, b, a, key);
    }
  }

  lemma {:induction false} LaterFieldsKeep(
      node: Json, n: nat, path: string, own: Attribution, out: PathIndex, step: Step)
    requires node.Object? && n <= |node.fields| && step.Key?
    requires forall i :: n <= i < |node.fields| ==> node.fields[i].key != step.key
    ensures SameInside(Child(path, step), CollectFields(node, n, path, own, out), out)
    decreases |node.fields| - n
  {
    if n < |node.fields| {
      var field := node.fields[n];
      if field.key == REGISTRY {
        LaterFieldsKeep(node, n + 1, path, own, out, step);
      } else {
        SiblingKept(field.value, path, Key(field.key), step, own, out);
        LaterFieldsKeep(node, n + 1, path, own, Collect(field.value, Child(path, Key(field.key)), own, out), step);
      }
    }
  }

  lemma {:induction false} LaterItemsKeep(
      node: Json, n: nat, path: string, inherited: Attribution, out: PathIndex, step: Step)
    requires node.Array? && n <= |node.items| && step.Index? && step.index < n
    ensures SameInside(Child(path, step), CollectItems(node, n, path, inherited, out), out)
    decreases |node.items| - n
  {
    if n < |node.items| {
      SiblingKept(node.items[n], path, Index(n), step, inherited, out);
      LaterItemsKeep(node, n + 1, path, inherited, Collect(node.items[n], Child(path, Index(n)), inherited, out), step);
    }
  }

  lemma {:induction false} GetIndex(fields: seq<Field>, key: string) returns (m: nat)
    requires Get(fields, key).Some?
    ensures m < |fields| && fields[m].key == key && fields[m].value == Get(fields, key).value
  {
    if fields[0].key == key {
      m := 0;
    } else {
      m := GetIndex(fields[1..], key);
      m := m + 1;
    }
  }

  lemma FieldsAreApart(node: Json, m: nat)
    requires node.Object? && DistinctKeys(node) && m < |node.fields|
    ensures DistinctKeys(node.fields[m].value)
    ensures forall i :: 0 <= i < |node.fields| && i != m ==> node.fields[i].key != node.fields[m].key
  {
  }

  lemma VacantIsReady(path: string, inherited: Attribution, out: PathIndex)
    requires VacantInside(path, out)
    ensures Ready(path, inherited, out)
  {
    assert Under(path, path);
  }

  // The record found below a child is right once all children are collected.
  lemma {:induction false} FieldsTell(
      node: Json, n: nat, m: nat, path: string, own: Attribution, out: PathIndex, steps: seq<Step>)
    requires node.Object? && DistinctKeys(node) && n <= m < |node.fields| && node.fields[m].key != REGISTRY
    requires Inherited(node.fields[m].value, steps, own).Some?
    requires VacantInside(Child(path, Key(node.fields[m].key)), out)
    ensures Tells(Seek(CollectFields(node, n, path, own, out), Child(path, Key(node.fields[m].key)), steps),
                  Inherited(node.fields[m].value, steps, own).value, own)
    decreases node, |node.fields| - n
  {
    hide DistinctKeys, Inherited, Seek, Collect, Child, VacantInside, Tells;
    var field, step := node.fields[n], Key(node.fields[m].key);
    var child := Child(path, step);
    FieldsAreApart(node, m);
    if n == m {
      VacantIsReady(child, own, out);
      CollectTells(field.value, child, own, out, steps);
      var next := Collect(field.value, child, own, out);
      LaterFieldsKeep(node, n + 1, path, own, next, step);
      SeekInside(CollectFields(node, n + 1, path, own, next), next, child, steps);
    } else if field.key == REGISTRY {
      FieldsTell(node, n + 1, m, path, own, out, steps);
    } else {
      SiblingKept(field.value, path, Key(field.key), step, own, out);
      var next := Collect(field.value, Child(path, Key(field.key)), own, out);
      StillVacant(child, out, next);
      FieldsTell(node, n + 1, m, path, own, next, steps);
    }
  }

  lemma StillVacant(path: string, a: PathIndex, b: PathIndex)
    requires VacantInside(path, a) && SameInside(path, b, a)
    ensures VacantInside(path, b)
  {
    forall key | Under(path, key) ensures key !in b {
      assert At(b, key) == At(a, key);
    }
  }

  lemma {:induction false} ItemsTell(
      node: Json, n: nat, m: nat, path: string, inherited: Attribution, out: PathIndex, steps: seq<Step>)
    requires node.Array? && DistinctKeys(node) && n <= m < |node.items|
    requires Inherited(node.items[m], steps, inherited).Some?
    requires VacantInside(Child(path, Index(m)), out)
    ensures Tells(Seek(CollectItems(node, n, path, inherited, out), Child(path, Index(m)), steps),
                  Inherited(node.items[m], steps, inherited).value, inherited)
    decreases node, |node.items| - n
  {
    hide Inherited, Seek, Collect, Child, VacantInside, Tells;
    var child := Child(path, Index(m));
    var next := Collect(node.items[n], Child(path, Index(n)), inherited, out);
    if n == m {
      VacantIsReady(child, inherited, out);
      CollectTells(node.items[n], child, inherited, out, steps);
      LaterItemsKeep(node, n + 1, path, inherited, next, Index(m));
      SeekInside(CollectItems(node, n + 1, path, inherited, next), next, child, steps);
    } else {
      SiblingKept(node.items[n], path, Index(n), Index(m), inherited, out);
      StillVacant(child, out, next);
      ItemsTell(node, n + 1, m, path, inherited, next, steps);
    }
  }

  // Extending never takes anything away, so an empty result had nothing to inherit.
  lemma EmptyInherits(inherited: Attribution, fields: seq<Field>)
    ensures Extended(inherited, fields) == EMPTY ==> inherited == EMPTY
  {
  }

  lemma {:induction false} CollectTells(
      value: Json, path: string, inherited: Attribution, out: PathIndex, steps: seq<Step>)
    requires DistinctKeys(value) && Ready(path, inherited, out) && Inherited(value, steps, inherited).Some?
    ensures Tells(Seek(Collect(value, path, inherited, out), path, steps),
                  Inherited(value, steps, inherited).value, inherited)
    decreases value
  {
    hide Extended, Under, Child;
    match value
    case Object(fields) =>
      var own := Extended(inherited, fields);
      var noted := if own != inherited && own != EMPTY then out[path := own] else out;
      EmptyInherits(inherited, fields);
      FieldsStayInside(value, 0, path, own, noted);
      if steps != [] {
        var m := GetIndex(fields, steps[0].key);
        ReadyBelow(path, steps[0], own, noted);
        FieldsTell(value, 0, m, path, own, noted, steps[1..]);
      }
    case Array(items) =>
      ItemsStayInside(value, 0, path, inherited, out);
      if steps != [] {
        ReadyBelow(path, steps[0], inherited, out);
        ItemsTell(value, 0, steps[0].index, path, inherited, out, steps[1..]);
      }
    case _ =>
  }

  // ---- Looking up by path -------------------------------------------------------------------

  // Cutting at the last '/' walks up the same records that Seek walks down.
  lemma {:induction false} LookupIsSeek(index: PathIndex, before: seq<Step>, steps: seq<Step>)
    ensures var found := Seek(index, Path(before), steps);
            Lookup(Path(before + steps), index)
            == if found.Some? then found
               else if before == [] then None
               else Lookup(Path(before[..|before| - 1]), index)
    decreases |steps|
  {
    if steps == [] {
      assert before + steps == before;
      if before != [] {
        ParentPath(Path(before[..|before| - 1]), before[|before| - 1]);
      }
    } else {
      var next := before + [steps[0]];
      assert next + steps[1..] == before + steps;
      assert next[..|next| - 1] == before;
      LookupIsSeek(index, next, steps[1..]);
      LookupIsSeek(index, before, []);
      assert before + [] == before;
    }
  }

  // Nothing empty is recorded, and nothing recorded is dropped.
  ghost predicate Grows(out: PathIndex, next: PathIndex) {
    && out.Keys <= next.Keys
    && ((forall key :: key in out ==> out[key] != EMPTY) ==> forall key :: key in next ==> next[key] != EMPTY)
  }

  lemma {:induction false} CollectGrows(value: Json, path: string, inherited: Attribution, out: PathIndex)
    ensures Grows(out, Collect(value, path, inherited, out))
    decreases value
  {
    match value
    case Object(fields) =>
      var own := Extended(inherited, fields);
      FieldsGrow(value, 0, path, own, if own != inherited && own != EMPTY then out[path := own] else out);
    case Array(items) =>
      ItemsGrow(value, 0, path, inherited, out);
    case _ =>
  }

  lemma {:induction false} FieldsGrow(node: Json, n: nat, path: string, own: Attribution, out: PathIndex)
    requires node.Object? && n <= |node.fields|
    ensures Grows(out, CollectFields(node, n, path, own, out))
    decreases node, |node.fields| - n
  {
    if n < |node.fields| {
      var field := node.fields[n];
      if field.key == REGISTRY {
        FieldsGrow(node, n + 1, path, own, out);
      } else {
        CollectGrows(field.value, Child(path, Key(field.key)), own, out);
        FieldsGrow(node, n + 1, path, own, Collect(field.value, Child(path, Key(field.key)), own, out));
      }
    }
  }

  lemma {:induction false} ItemsGrow(node: Json, n: nat, path: string, inherited: Attribution, out: PathIndex)
    requires node.Array? && n <= |node.items|
    ensures Grows(out, CollectItems(node, n, path, inherited, out))
    decreases node, |node.items| - n
  {
    if n < |node.items| {
      CollectGrows(node.items[n], Child(path, Index(n)), inherited, out);
      ItemsGrow(node, n + 1, path, inherited, Collect(node.items[n], Child(path, Index(n)), inherited, out));
    }
  }

  lemma {:induction false} SeekIsRecord(index: PathIndex, path: string, steps: seq<Step>)
    requires forall key :: key in index ==> index[key] != EMPTY
    ensures Seek(index, path, steps) != Some(EMPTY)
    ensures path in index ==> Seek(index, path, steps).Some?
    decreases |steps|
  {
    if steps != [] {
      SeekIsRecord(index, Child(path, steps[0]), steps[1..]);
    }
  }

  // For every part of every result, outside the registries, the longest recorded prefix of
  // its path gives exactly what the part inherits from the root down, or nothing when that
  // is nothing.
  lemma SparseIndexIsInheritance(result: Json, root: Attribution, steps: seq<Step>)
    requires DistinctKeys(result) && Inherited(result, steps, root).Some?
    ensures var truth := Inherited(result, steps, root).value;
            Lookup(Path(steps), IndexOf(result, root)) == if truth == EMPTY then None else Some(truth)
  {
    hide Collect, Inherited, DistinctKeys, Lookup;
    var start: PathIndex := if root != EMPTY then map["" := root] else map[];
    CollectTells(result, "", root, start, steps);
    LookupIsSeek(IndexOf(result, root), [], steps);
    assert [] + steps == steps;
    CollectGrows(result, "", root, start);
    SeekIsRecord(IndexOf(result, root), "", steps);
  }
}

module Conflicts {
  import opened Attributions
  import opened Pointers
  import opened Wrappers

  const MAX_CATALOG_ENTRIES := 40000

  datatype RawFact = RawFact(
    evidenceId: string, path: string, value: Json, source: string,
    observedAt: Option<string>, sourceVersionId: Option<string>, qualityBlocking: bool)

  datatype Descriptor = Descriptor(
    evidenceId: string, source: string, symbol: Option<string>, field: string, value: Json, unit: Option<string>,
    observedAt: Option<string>, publishedAt: Option<string>, documentTitle: Option<string>,
    qualityBlocking: bool, conflicting: bool)

  // ---- Facts --------------------------------------------------------------------------------

  // The rows of every registry, registries themselves not searched. Decoding a row is a
  // parameter.
  function CollectFacts(value: Json, decode: Json -> Option<RawFact>): seq<RawFact>
    decreases value
  {
    match value
    case Object(fields) => Rows(Registry(fields), decode) + FieldFacts(value, 0, decode)
    case Array(items) => ItemFacts(value, 0, decode)
    case _ => []
  }

  function Registry(fields: seq<Field>): seq<Json> {
    match Get(fields, REGISTRY)
    case Some(Object(registry)) =>
      (match Get(registry, "facts") case Some(Array(rows)) => rows case _ => [])
    case _ => []
  }

  function Rows(rows: seq<Json>, decode: Json -> Option<RawFact>): seq<RawFact> {
    if rows == [] then []
    else (match decode(rows[0]) case Some(fact) => [fact] case None => []) + Rows(rows[1..], decode)
  }

  function FieldFacts(node: Json, n: nat, decode: Json -> Option<RawFact>): seq<RawFact>
    requires node.Object? && n <= |node.fields|
    decreases node, |node.fields| - n
  {
    if n == |node.fields| then []
    else
      (if node.fields[n].key == REGISTRY then [] else CollectFacts(node.fields[n].value, decode))
      + FieldFacts(node, n + 1, decode)
  }

  function ItemFacts(node: Json, n: nat, decode: Json -> Option<RawFact>): seq<RawFact>
    requires node.Array? && n <= |node.items|
    decreases node, |node.items| - n
  {
    if n == |node.items| then [] else CollectFacts(node.items[n], decode) + ItemFacts(node, n + 1, decode)
  }

  // Length in UTF-8 bytes.
  function ByteLength(s: string): nat {
    if s == "" then 0
    else
      var c := s[0] as int;
      (if c < 0x80 then 1 else if c < 0x800 then 2 else if c < 0x10000 then 3 else 4) + ByteLength(s[1..])
  }

  predicate WellFormed(fact: RawFact) {
    "evf_" <= fact.evidenceId && ByteLength(fact.evidenceId) <= 80
  }

  // A different retrieval time is not a disagreement.
  predicate Disagree(a: RawFact, b: RawFact) {
    a.value != b.value || a.source != b.source || a.path != b.path
    || a.qualityBlocking != b.qualityBlocking || a.sourceVersionId != b.sourceVersionId
  }

  predicate Before(a: string, b: string) {
    b != "" && (a == "" || a[0] < b[0] || (a[0] == b[0] && Before(a[1..], b[1..])))
  }

  // No time comes before any time.
  predicate Newer(a: Option<string>, b: Option<string>) {
    a.Some? && (b.None? || Before(b.value, a.value))
  }

  // ---- Ingestion ----------------------------------------------------------------------------

  datatype State = State(
    descriptors: map<string, Descriptor>, raw: map<string, RawFact>, variants: map<string, RawFact>, dropped: nat)

  const EMPTY_STATE := State(map[], map[], map[], 0)

  function Describe(fact: RawFact, attribution: Option<Attribution>): Descriptor {
    var a := if attribution.Some? then attribution.value else EMPTY;
    Descriptor(fact.evidenceId, fact.source, a.symbol, fact.path, fact.value, a.unit, fact.observedAt,
               a.publishedAt, a.documentTitle, fact.qualityBlocking, false)
  }

  function Flag(descriptors: map<string, Descriptor>, id: string): map<string, Descriptor> {
    if id in descriptors then descriptors[id := descriptors[id].(conflicting := true)] else descriptors
  }

  function Refresh(descriptors: map<string, Descriptor>, fact: RawFact): map<string, Descriptor> {
    if fact.evidenceId in descriptors
    then descriptors[fact.evidenceId := descriptors[fact.evidenceId].(observedAt := fact.observedAt)]
    else descriptors
  }

  // One fact. A first disagreement is kept beside the first registration, an agreeing newer
  // fact replaces it, and new identifiers stop at the retention bound.
  function Ingest(s: State, fact: RawFact, index: PathIndex): State {
    var id := fact.evidenceId;
    if !WellFormed(fact) then s
    else if id in s.raw then
      if Disagree(s.raw[id], fact) then
        s.(descriptors := Flag(s.descriptors, id),
           variants := if id in s.variants then s.variants else s.variants[id := fact])
      else if Newer(fact.observedAt, s.raw[id].observedAt) then
        s.(descriptors := Refresh(s.descriptors, fact), raw := s.raw[id := fact])
      else s
    else if |s.descriptors| >= MAX_CATALOG_ENTRIES then s.(dropped := s.dropped + 1)
    else s.(descriptors := s.descriptors[id := Describe(fact, Lookup(fact.path, index))], raw := s.raw[id := fact])
  }

  function IngestAll(s: State, facts: seq<RawFact>, index: PathIndex): State {
    if facts == [] then s else Ingest(IngestAll(s, facts[..|facts| - 1], index), facts[|facts| - 1], index)
  }

  function RootOf(fallbackSymbol: Option<string>): Attribution {
    EMPTY.(symbol := fallbackSymbol)
  }

  class EvidenceCatalog {
    var descriptors: map<string, Descriptor>
    var raw: map<string, RawFact>
    var conflictingVariants: map<string, RawFact>
    var dropped: nat

    constructor ()
      ensures Contents() == EMPTY_STATE
    {
      descriptors, raw, conflictingVariants, dropped := map[], map[], map[], 0;
    }

    ghost function Contents(): State
      reads this
    {
      State(descriptors, raw, conflictingVariants, dropped)
    }

    method IngestResult(result: Json, decode: Json -> Option<RawFact>, fallbackSymbol: Option<string>)
      modifies this
      ensures Contents() == IngestAll(old(Contents()), CollectFacts(result, decode),
                                      IndexOf(result, RootOf(fallbackSymbol)))
    {
      hide CollectFacts, IndexOf, Ingest;
      var index, facts := IndexOf(result, RootOf(fallbackSymbol)), CollectFacts(result, decode);
      for i := 0 to |facts|
        invariant Contents() == IngestAll(old(Contents()), facts[..i], index)
      {
        assert facts[..i + 1][..i] == facts[..i];
        IngestFact(facts[i], index);
      }
      assert facts[..|facts|] == facts;
    }

    method IngestFact(fact: RawFact, index: PathIndex)
      modifies this
      ensures Contents() == Ingest(old(Contents()), fact, index)
    {
      hide Lookup;
      var id := fact.evidenceId;
      if !WellFormed(fact) {
        return;
      }
      if id in raw {
        if Disagree(raw[id], fact) {
          if id in descriptors {
            descriptors := descriptors[id := descriptors[id].(conflicting := true)];
          }
          if id !in conflictingVariants {
            conflictingVariants := conflictingVariants[id := fact];
          }
        } else if Newer(fact.observedAt, raw[id].observedAt) {
          if id in descriptors {
            descriptors := descriptors[id := descriptors[id].(observedAt := fact.observedAt)];
          }
          raw := raw[id := fact];
        }
      } else if |descriptors| >= MAX_CATALOG_ENTRIES {
        dropped := dropped + 1;
      } else {
        var attribution := AttributionFor(fact.path, index);
        descriptors := descriptors[id := Describe(fact, attribution)];
        raw := raw[id := fact];
      }
    }

    // The registered forms of the cited identifiers, in order, a conflicting one twice.
    method VerifierFacts(cited: seq<string>) returns (facts: seq<RawFact>)
      ensures facts == FactsFor(Contents(), cited)
    {
      facts := [];
      for i := 0 to |cited|
        invariant facts == FactsFor(Contents(), cited[..i])
      {
        assert cited[..i + 1][..i] == cited[..i];
        if cited[i] in raw {
          facts := facts + [raw[cited[i]]];
        }
        if cited[i] in conflictingVariants {
          facts := facts + [conflictingVariants[cited[i]]];
        }
      }
      assert cited[..|cited|] == cited;
    }
  }

  function FactsOf(s: State, id: string): seq<RawFact> {
    (if id in s.raw then [s.raw[id]] else []) + (if id in s.variants then [s.variants[id]] else [])
  }

  function FactsFor(s: State, cited: seq<string>): seq<RawFact> {
    if cited == [] then [] else FactsFor(s, cited[..|cited| - 1]) + FactsOf(s, cited[|cited| - 1])
  }

  // ---- What a catalog holds -------------------------------------------------------------------

  // A run of tool results: facts, each with the index of the result it came in.
  type History = seq<(RawFact, PathIndex)>

  function Replay(history: History): State {
    if history == [] then EMPTY_STATE
    else
      var last := history[|history| - 1];
      Ingest(Replay(history[..|history| - 1]), last.0, last.1)
  }

  function Tagged(facts: seq<RawFact>, index: PathIndex): History {
    seq(|facts|, i requires 0 <= i < |facts| => (facts[i], index))
  }

  // Ingesting result after result replays the facts of all of them, each against the index
  // of its own result.
  lemma {:induction false} IngestAllReplays(history: History, facts: seq<RawFact>, index: PathIndex)
    ensures IngestAll(Replay(history), facts, index) == Replay(history + Tagged(facts, index))
    decreases |facts|
  {
    hide Ingest;
    var all := history + Tagged(facts, index);
    if facts == [] {
      assert all == history;
    } else {
      var n := |facts| - 1;
      IngestAllReplays(history, facts[..n], index);
      assert all[..|all| - 1] == history + Tagged(facts[..n], index);
      assert all[|all| - 1] == (facts[n], index);
    }
  }

  // `fact` was ingested with a usable identifier.
  ghost predicate Seen(history: History, fact: RawFact) {
    WellFormed(fact) && exists i :: 0 <= i < |history| && history[i].0 == fact
  }

  lemma {:induction false} BeforeIsTransitive(a: string, b: string, c: string)
    requires Before(a, b) && Before(b, c)
    ensures Before(a, c)
  {
    if a != "" && a[0] == b[0] == c[0] {
      BeforeIsTransitive(a[1..], b[1..], c[1..]);
    }
  }

  // The descriptor carries all that the registration says.
  ghost predicate Shows(d: Descriptor, fact: RawFact) {
    && d.evidenceId == fact.evidenceId && d.source == fact.source && d.field == fact.path && d.value == fact.value
    && d.observedAt == fact.observedAt && d.qualityBlocking == fact.qualityBlocking
  }

  // The maps of a catalog agree with each other about an identifier.
  ghost predicate TidyAt(s: State, id: string) {
    && (id in s.raw ==>
          && id in s.descriptors && s.raw[id].evidenceId == id
          && Shows(s.descriptors[id], s.raw[id])
          && (s.descriptors[id].conflicting <==> id in s.variants))
    && (id in s.variants ==>
          id in s.raw && s.variants[id].evidenceId == id && Disagree(s.raw[id], s.variants[id]))
  }

  ghost predicate Tidy(s: State) {
    && s.raw.Keys == s.descriptors.Keys && |s.descriptors| <= MAX_CATALOG_ENTRIES
    && forall id :: TidyAt(s, id)
  }

  // All that is held was ingested.
  ghost predicate Sourced(s: State, history: History) {
    && (forall id :: id in s.raw ==> Seen(history, s.raw[id]))
    && (forall id :: id in s.variants ==> Seen(history, s.variants[id]))
  }

  // Every ingested fact is accounted for: it disagrees and is flagged, agrees and is no
  // newer than what is held, or came when the catalog was full.
  ghost predicate Accounted(s: State, fact: RawFact) {
    var id := fact.evidenceId;
    if id !in s.raw then |s.descriptors| == MAX_CATALOG_ENTRIES
    else if Disagree(s.raw[id], fact) then id in s.variants
    else !Newer(fact.observedAt, s.raw[id].observedAt)
  }

  ghost predicate Faithful(s: State, history: History) {
    Tidy(s) && Sourced(s, history) && forall fact :: Seen(history, fact) ==> Accounted(s, fact)
  }

  lemma SeenMore(history: History, last: (RawFact, PathIndex), fact: RawFact)
    ensures Seen(history + [last], fact) <==> Seen(history, fact) || (WellFormed(fact) && fact == last.0)
  {
    hide WellFormed;
    var more := history + [last];
    if WellFormed(fact) {
      if Seen(history, fact) {
        var i :| 0 <= i < |history| && history[i].0 == fact;
        assert more[i].0 == fact;
      }
      if fact == last.0 {
        assert more[|history|].0 == fact;
      }
    }
  }

  lemma IngestTidyAt(s: State, fact: RawFact, index: PathIndex, id: string)
    requires s.raw.Keys == s.descriptors.Keys && TidyAt(s, id)
    ensures TidyAt(Ingest(s, fact, index), id)
  {
    hide WellFormed, Disagree, Newer, Lookup;
    if fact.evidenceId == id && id in s.raw && !Disagree(s.raw[id], fact) {
      SameValue(s.raw[id], fact);
      if id in s.variants {
        DisagreeFacts(s.raw[id], fact, s.variants[id]);
      }
    }
  }

  lemma IngestIsTidy(s: State, fact: RawFact, index: PathIndex)
    requires Tidy(s)
    ensures Tidy(Ingest(s, fact, index))
  {
    hide WellFormed, Disagree, Newer, Lookup, TidyAt;
    forall id ensures TidyAt(Ingest(s, fact, index), id) {
      IngestTidyAt(s, fact, index, id);
    }
  }

  lemma IngestIsSourced(s: State, history: History, fact: RawFact, index: PathIndex)
    requires Sourced(s, history)
    ensures Sourced(Ingest(s, fact, index), history + [(fact, index)])
  {
    hide WellFormed, Disagree, Newer, Lookup, Seen;
    forall f { SeenMore(history, (fact, index), f); }
  }

  // Taking in one fact keeps the others accounted for.
  lemma OthersStayAccounted(s: State, fact: RawFact, index: PathIndex, other: RawFact)
    requires Tidy(s) && Accounted(s, other)
    ensures Accounted(Ingest(s, fact, index), other)
  {
    hide WellFormed, Disagree, Newer, Lookup;
    if fact.evidenceId == other.evidenceId && fact.evidenceId in s.raw {
      var held := s.raw[fact.evidenceId];
      if !Disagree(held, fact) && Newer(fact.observedAt, held.observedAt) {
        DisagreeFacts(held, fact, other);
        if !Newer(other.observedAt, held.observedAt) {
          NewerFacts(held.observedAt, fact.observedAt, other.observedAt);
        }
      }
    }
  }

  lemma TakenIsAccounted(s: State, fact: RawFact, index: PathIndex)
    requires Tidy(s) && WellFormed(fact)
    ensures Accounted(Ingest(s, fact, index), fact)
  {
    hide WellFormed, Disagree, Newer, Lookup;
    DisagreeFacts(fact, fact, fact);
  }

  lemma IngestIsFaithful(s: State, history: History, fact: RawFact, index: PathIndex)
    requires Faithful(s, history)
    ensures Faithful(Ingest(s, fact, index), history + [(fact, index)])
  {
    hide Tidy, Sourced, Accounted, Ingest, WellFormed, Seen;
    IngestIsTidy(s, fact, index);
    IngestIsSourced(s, history, fact, index);
    forall f | Seen(history + [(fact, index)], f) ensures Accounted(Ingest(s, fact, index), f) {
      SeenMore(history, (fact, index), f);
      if Seen(history, f) {
        OthersStayAccounted(s, fact, index, f);
      } else {
        TakenIsAccounted(s, fact, index);
      }
    }
  }

  lemma SameValue(a: RawFact, b: RawFact)
    requires !Disagree(a, b)
    ensures a.value == b.value && a.source == b.source && a.path == b.path && a.qualityBlocking == b.qualityBlocking
  {
  }

  // Agreement is an equivalence.
  lemma DisagreeFacts(a: RawFact, b: RawFact, c: RawFact)
    ensures !Disagree(a, a) && !Newer(a.observedAt, a.observedAt)
    ensures !Disagree(a, b) ==> (Disagree(b, c) <==> Disagree(a, c))
    ensures Disagree(b, c) ==> Disagree(a, b) || Disagree(a, c)
  {
    NotBeforeItself(if a.observedAt.Some? then a.observedAt.value else "");
  }

  lemma {:induction false} NotBeforeItself(a: string)
    ensures !Before(a, a)
  {
    if a != "" {
      NotBeforeItself(a[1..]);
    }
  }

  lemma NewerFacts(earlier: Option<string>, later: Option<string>, other: Option<string>)
    requires Newer(later, earlier) && !Newer(other, earlier)
    ensures !Newer(other, later)
  {
    if other.Some? && earlier.Some? && Before(later.value, other.value) {
      BeforeIsTransitive(earlier.value, later.value, other.value);
    }
  }

  lemma {:induction false} ReplayIsFaithful(history: History)
    ensures Faithful(Replay(history), history)
  {
    hide Faithful, Ingest;
    if history == [] {
      EmptyIsFaithful();
    } else {
      var init, last := history[..|history| - 1], history[|history| - 1];
      ReplayIsFaithful(init);
      IngestIsFaithful(Replay(init), init, last.0, last.1);
      assert history == init + [(last.0, last.1)];
    }
  }

  lemma EmptyIsFaithful()
    ensures Faithful(EMPTY_STATE, [])
  {
  }

  // What a catalog holds of one identifier.
  lemma ReplayHolds(history: History, id: string)
    ensures var s := Replay(history);
            && s.raw.Keys == s.descriptors.Keys && |s.descriptors| <= MAX_CATALOG_ENTRIES && TidyAt(s, id)
            && (id in s.raw ==> Seen(history, s.raw[id]))
            && (id in s.variants ==> Seen(history, s.variants[id]))
            && forall f :: Seen(history, f) && f.evidenceId == id ==> Accounted(s, f)
  {
    hide Seen, Replay, TidyAt, Accounted;
    ReplayIsFaithful(history);
    assert TidyAt(Replay(history), id);
  }

  predicate Flagged(s: State, id: string) {
    id in s.descriptors && s.descriptors[id].conflicting
  }

  // Facts that differ in more than when they were observed.
  ghost predicate TwoDisagree(history: History, id: string) {
    exists f, g :: && Seen(history, f) && Seen(history, g) && f.evidenceId == g.evidenceId == id
                   && g != f.(observedAt := g.observedAt)
  }

  lemma AgreeOrDiffer(f: RawFact, g: RawFact)
    requires f.evidenceId == g.evidenceId
    ensures Disagree(f, g) <==> g != f.(observedAt := g.observedAt)
  {
  }

  // A registered identifier is flagged exactly when two of the facts ingested under it
  // differ in more than their times; the flagged ones are those with a kept variant.
  lemma FlaggedIffDisagree(history: History, id: string)
    ensures var s := Replay(history);
            && (Flagged(s, id) <==> id in s.raw && TwoDisagree(history, id))
            && (Flagged(s, id) <==> id in s.variants)
            && s.raw.Keys == s.descriptors.Keys
  {
    hide Seen, Disagree, Newer, Replay, TwoDisagree, Accounted;
    ReplayHolds(history, id);
    var s := Replay(history);
    if id in s.raw && TwoDisagree(history, id) {
      DifferenceIsFlagged(history, id);
    }
    if id in s.variants {
      VariantDiffers(history, s.raw[id], s.variants[id]);
    }
  }

  lemma DifferenceIsFlagged(history: History, id: string)
    requires TwoDisagree(history, id) && id in Replay(history).raw
    ensures id in Replay(history).variants
  {
    hide Seen, Disagree, Newer, Replay, TidyAt;
    var s := Replay(history);
    var f, g :| && Seen(history, f) && Seen(history, g) && f.evidenceId == g.evidenceId == id
                && g != f.(observedAt := g.observedAt);
    ReplayHolds(history, id);
    AgreeOrDiffer(f, g);
    DisagreeFacts(s.raw[id], f, g);
    assert Accounted(s, f) && Accounted(s, g);
  }

  lemma VariantDiffers(history: History, fact: RawFact, variant: RawFact)
    requires Seen(history, fact) && Seen(history, variant) && fact.evidenceId == variant.evidenceId
    requires Disagree(fact, variant)
    ensures TwoDisagree(history, fact.evidenceId)
  {
    AgreeOrDiffer(fact, variant);
  }

  // ---- Below the retention bound ------------------------------------------------------------

  function Ids(history: History): set<string> {
    set i | 0 <= i < |history| && WellFormed(history[i].0) :: history[i].0.evidenceId
  }

  lemma {:induction false} SubsetSize(a: set<string>, b: set<string>)
    requires a <= b
    ensures |a| <= |b|
    decreases a
  {
    if a != {} {
      var x :| x in a;
      SubsetSize(a - {x}, b - {x});
    }
  }

  // As long as no more identifiers arrive than are retained, every one is registered.
  lemma AllRegistered(history: History)
    requires |Ids(history)| <= MAX_CATALOG_ENTRIES
    ensures Replay(history).raw.Keys == Ids(history)
  {
    hide Replay, WellFormed, Disagree, Newer, Ids;
    var s := Replay(history);
    ReplayHolds(history, "");
    forall id | id in s.raw ensures id in Ids(history) {
      ReplayHolds(history, id);
      SeenId(history, s.raw[id]);
    }
    forall id | id in Ids(history) ensures id in s.raw {
      var fact := IdSeen(history, id);
      ReplayHolds(history, id);
      if id !in s.raw {
        forall other | other in s.raw ensures other in Ids(history) {
          ReplayHolds(history, other);
          SeenId(history, s.raw[other]);
        }
        SubsetSize(s.raw.Keys + {id}, Ids(history));
      }
    }
  }

  lemma SeenId(history: History, fact: RawFact)
    requires Seen(history, fact)
    ensures fact.evidenceId in Ids(history)
  {
    hide WellFormed;
  }

  lemma IdSeen(history: History, id: string) returns (fact: RawFact)
    requires id in Ids(history)
    ensures Seen(history, fact) && fact.evidenceId == id
  {
    hide WellFormed;
    var i :| 0 <= i < |history| && WellFormed(history[i].0) && history[i].0.evidenceId == id;
    fact := history[i].0;
  }

  // Conflict detection does not depend on order: below the retention bound, any two orders
  // of ingestion of the same facts, however grouped into results and repeated, register and
  // flag the same identifiers.
  lemma ConflictsAreConfluent(a: History, b: History)
    requires forall fact :: Seen(a, fact) <==> Seen(b, fact)
    requires |Ids(a)| <= MAX_CATALOG_ENTRIES && |Ids(b)| <= MAX_CATALOG_ENTRIES
    ensures Replay(a).raw.Keys == Replay(b).raw.Keys
    ensures forall id :: Flagged(Replay(a), id) <==> Flagged(Replay(b), id)
    ensures forall id :: id in Replay(a).raw ==> (Flagged(Replay(a), id) <==> TwoDisagree(a, id))
    ensures forall id :: !Flagged(Replay(a), id) ==> FactsOf(Replay(a), id) == FactsOf(Replay(b), id)
  {
    hide Replay, WellFormed, Disagree, Seen, FactsOf;
    AllRegistered(a);
    AllRegistered(b);
    SameIds(a, b);
    SameIds(b, a);
    forall id
      ensures Flagged(Replay(a), id) <==> Flagged(Replay(b), id)
      ensures id in Replay(a).raw ==> (Flagged(Replay(a), id) <==> TwoDisagree(a, id))
      ensures !Flagged(Replay(a), id) ==> FactsOf(Replay(a), id) == FactsOf(Replay(b), id)
    {
      FlaggedIffDisagree(a, id);
      FlaggedIffDisagree(b, id);
      if !Flagged(Replay(a), id) && id in Replay(a).raw {
        NoFresher(a, b, id);
        NoFresher(b, a, id);
        SameFact(Replay(a).raw[id], Replay(b).raw[id]);
      }
      if !Flagged(Replay(a), id) {
        SameFactsOf(Replay(a), Replay(b), id);
      }
    }
  }

  // What one order keeps of an unflagged identifier agrees with what another keeps, and is
  // no fresher.
  lemma NoFresher(a: History, b: History, id: string)
    requires forall fact :: Seen(a, fact) ==> Seen(b, fact)
    requires id in Replay(a).raw && id in Replay(b).raw && !Flagged(Replay(b), id)
    ensures var x, y := Replay(a).raw[id], Replay(b).raw[id];
            x.evidenceId == id && !Disagree(y, x) && !Newer(x.observedAt, y.observedAt)
  {
    hide Replay, Seen, Disagree, Newer;
    ReplayHolds(a, id);
    ReplayHolds(b, id);
    FlaggedIffDisagree(b, id);
    assert Seen(b, Replay(a).raw[id]);
  }

  lemma {:induction false} BeforeIsTotal(a: string, b: string)
    ensures Before(a, b) || Before(b, a) || a == b
  {
    if a != "" && b != "" && a[0] == b[0] {
      BeforeIsTotal(a[1..], b[1..]);
      assert a == [a[0]] + a[1..] && b == [b[0]] + b[1..];
    }
  }

  lemma SameFact(x: RawFact, y: RawFact)
    requires x.evidenceId == y.evidenceId && !Disagree(y, x)
    requires !Newer(x.observedAt, y.observedAt) && !Newer(y.observedAt, x.observedAt)
    ensures x == y
  {
    if x.observedAt.Some? && y.observedAt.Some? {
      BeforeIsTotal(x.observedAt.value, y.observedAt.value);
    }
  }

  lemma SameFactsOf(s: State, t: State, id: string)
    requires id !in s.variants && id !in t.variants && (id in s.raw <==> id in t.raw)
    requires id in s.raw ==> s.raw[id] == t.raw[id]
    ensures FactsOf(s, id) == FactsOf(t, id)
  {
  }

  lemma SameIds(a: History, b: History)
    requires forall fact :: Seen(a, fact) ==> Seen(b, fact)
    ensures Ids(a) <= Ids(b)
  {
    hide Seen, Ids;
    forall id | id in Ids(a) ensures id in Ids(b) {
      var fact := IdSeen(a, id);
      SeenId(b, fact);
    }
  }

  // The registration kept is the freshest of those it agrees with.
  lemma KeepsFreshest(history: History, fact: RawFact)
    requires Seen(history, fact)
    ensures var s := Replay(history);
            var id := fact.evidenceId;
            id in s.raw && !Disagree(s.raw[id], fact) ==>
              && !Newer(fact.observedAt, s.raw[id].observedAt)
              && id in s.descriptors && s.descriptors[id].observedAt == s.raw[id].observedAt
  {
    hide Seen, Disagree, Newer, Replay;
    ReplayHolds(history, fact.evidenceId);
  }

  // The verifier gets two registrations of a cited identifier exactly when it is flagged,
  // and then they disagree, so it can reach the same conclusion from them alone.
  lemma VerifierSeesConflicts(history: History, id: string)
    ensures var s := Replay(history);
            var facts := FactsOf(s, id);
            && (|facts| == 2 <==> Flagged(s, id))
            && (|facts| == 2 ==> Disagree(facts[0], facts[1]))
            && (|facts| == 1 <==> id in s.raw && !Flagged(s, id))
            && (forall f :: f in facts ==> f.evidenceId == id && Seen(history, f))
  {
    hide Seen, Disagree, Newer, Replay;
    ReplayHolds(history, id);
  }

  // The facts of a list registered under one identifier, in order.
  function Under(facts: seq<RawFact>, id: string): seq<RawFact> {
    if facts == [] then []
    else Under(facts[..|facts| - 1], id) + if facts[|facts| - 1].evidenceId == id then [facts[|facts| - 1]] else []
  }

  lemma {:induction false} UnderAppends(a: seq<RawFact>, b: seq<RawFact>, id: string)
    ensures Under(a + b, id) == Under(a, id) + Under(b, id)
  {
    if b == [] {
      assert a + b == a;
    } else {
      var init := b[..|b| - 1];
      UnderAppends(a, init, id);
      assert (a + b)[..|a + b| - 1] == a + init;
    }
  }

  lemma {:induction false} UnderAll(facts: seq<RawFact>, own: string, id: string)
    requires forall f :: f in facts ==> f.evidenceId == own
    ensures Under(facts, id) == if own == id then facts else []
  {
    if facts != [] {
      UnderAll(facts[..|facts| - 1], own, id);
      assert facts[|facts| - 1] in facts;
    }
  }

  lemma LastCited(cited: seq<string>, id: string)
    requires cited != [] && forall i, j :: 0 <= i < j < |cited| ==> cited[i] != cited[j]
    ensures var n := |cited| - 1;
            (id in cited <==> id in cited[..n] || id == cited[n]) && !(id in cited[..n] && id == cited[n])
  {
  }

  lemma SentForOne(history: History, own: string, id: string)
    ensures var s := Replay(history);
            Under(FactsOf(s, own), id) == if own == id then FactsOf(s, id) else []
  {
    hide Replay, FactsOf, Under, Disagree;
    VerifierSeesConflicts(history, own);
    UnderAll(FactsOf(Replay(history), own), own, id);
  }

  // What is sent for a set of citations holds, of each identifier, exactly its registered
  // forms if it was cited and nothing otherwise.
  lemma {:induction false} SentExactlyCited(history: History, cited: seq<string>, id: string)
    requires forall i, j :: 0 <= i < j < |cited| ==> cited[i] != cited[j]
    ensures var s := Replay(history);
            Under(FactsFor(s, cited), id) == if id in cited then FactsOf(s, id) else []
  {
    if cited != [] {
      var s, n := Replay(history), |cited| - 1;
      assert FactsFor(s, cited) == FactsFor(s, cited[..n]) + FactsOf(s, cited[n]);
      hide Replay, FactsOf, FactsFor, Under;
      SentExactlyCited(history, cited[..n], id);
      SentForOne(history, cited[n], id);
      UnderAppends(FactsFor(s, cited[..n]), FactsOf(s, cited[n]), id);
      LastCited(cited, id);
    }
  }
}
