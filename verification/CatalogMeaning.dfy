// What the evidence catalog attributes and collects (crates/agent-runtime/src/catalog.rs), in
// terms of the JSON a tool returned.

module Assertions {
  import opened Attributions
  import opened Pointers
  import opened Wrappers

  // ---- What an object asserts about what lies below it ----------------------------------------

  ghost predicate Distinct(fields: seq<Field>) {
    forall i, j :: 0 <= i < j < |fields| ==> fields[i].key != fields[j].key
  }

  lemma {:induction false} GetHolds(fields: seq<Field>, key: string, value: Json)
    requires Distinct(fields)
    ensures Get(fields, key) == Some(value) <==> Field(key, value) in fields
  {
    if fields != [] {
      GetHolds(fields[1..], key, value);
      assert fields == [fields[0]] + fields[1..];
      if fields[0].key == key {
        assert Field(key, value) !in fields[1..] by {
          assert forall i :: 0 < i < |fields| ==> fields[i].key != key;
        }
      }
    }
  }

  // `t` is what stands between a and b in `s`: outside there is white space only, and it
  // neither begins nor ends with any.
  ghost predicate TrimmedAt(s: string, t: string, a: nat, b: nat) {
    && a <= b <= |s| && t == s[a..b]
    && (forall i :: 0 <= i < a || b <= i < |s| ==> IsSpace(s[i]))
    && (t != "" ==> !IsSpace(t[0]) && !IsSpace(t[|t| - 1]))
  }

  ghost predicate IsTrimmed(s: string, t: string) {
    exists a: nat, b: nat :: TrimmedAt(s, t, a, b)
  }

  lemma {:induction false} TrimIsTrimmed(s: string) returns (a: nat, b: nat)
    ensures TrimmedAt(s, Trim(s), a, b)
    decreases |s|
  {
    hide IsSpace;
    a, b := 0, |s|;
    if s != "" && IsSpace(s[0]) {
      a, b := TrimIsTrimmed(s[1..]);
      assert forall i :: 0 < i < |s| ==> s[i] == s[1..][i - 1];
      assert s[1..][a..b] == s[a + 1..b + 1];
      a, b := a + 1, b + 1;
    } else if s != "" && IsSpace(s[|s| - 1]) {
      a, b := TrimIsTrimmed(s[..|s| - 1]);
      assert forall i :: 0 <= i < |s| - 1 ==> s[i] == s[..|s| - 1][i];
      assert s[..|s| - 1][a..b] == s[a..b];
    }
  }

  lemma {:induction false} TrimmedIsTrim(s: string, t: string, a: nat, b: nat)
    requires TrimmedAt(s, t, a, b) && t != ""
    ensures Trim(s) == t
    decreases |s|
  {
    hide IsSpace;
    if IsSpace(s[0]) {
      assert s[1..][a - 1..b - 1] == s[a..b];
      assert forall i :: 0 < i < |s| ==> s[i] == s[1..][i - 1];
      TrimmedIsTrim(s[1..], t, a - 1, b - 1);
    } else if IsSpace(s[|s| - 1]) {
      assert t[|t| - 1] == s[b - 1];
      assert s[..|s| - 1][a..b] == s[a..b];
      TrimmedIsTrim(s[..|s| - 1], t, a, b);
    } else {
      assert a == 0 && b == |s|;
    }
  }

  // Under this key there is a text that, trimmed, is `t`: not blank, not too long.
  ghost predicate Usable(fields: seq<Field>, key: string, max: nat, t: string) {
    0 < |t| <= max && exists s :: Field(key, Text(s)) in fields && IsTrimmed(s, t)
  }

  // The first of the keys that has a usable text has this one.
  ghost predicate AssertsText(fields: seq<Field>, keys: seq<string>, max: nat, t: string) {
    exists k :: && 0 <= k < |keys| && Usable(fields, keys[k], max, t)
                && forall j, u :: 0 <= j < k ==> !Usable(fields, keys[j], max, u)
  }

  lemma UsableText(fields: seq<Field>, key: string, max: nat, t: string)
    requires Distinct(fields)
    ensures var value := Get(fields, key);
            Usable(fields, key, max, t)
            <==> value.Some? && value.value.Text? && 0 < |Trim(value.value.s)| <= max && Trim(value.value.s) == t
  {
    hide Get, IsTrimmed, Trim;
    var value := Get(fields, key);
    if Usable(fields, key, max, t) {
      var s :| Field(key, Text(s)) in fields && IsTrimmed(s, t);
      GetHolds(fields, key, Text(s));
      TrimOf(s, t);
    }
    if value.Some? && value.value.Text? {
      GetHolds(fields, key, value.value);
      var a, b := TrimIsTrimmed(value.value.s);
      assert IsTrimmed(value.value.s, Trim(value.value.s)) by {
        TrimsItself(value.value.s, a, b);
      }
      assert Field(key, Text(value.value.s)) in fields;
    }
  }

  lemma TrimsItself(s: string, a: nat, b: nat)
    requires TrimmedAt(s, Trim(s), a, b)
    ensures IsTrimmed(s, Trim(s))
  {
  }

  lemma TrimOf(s: string, t: string)
    requires IsTrimmed(s, t) && t != ""
    ensures Trim(s) == t
  {
    var a: nat, b: nat :| TrimmedAt(s, t, a, b);
    TrimmedIsTrim(s, t, a, b);
  }

  lemma {:induction false} FirstTextIsAsserted(fields: seq<Field>, keys: seq<string>, max: nat, t: string)
    requires Distinct(fields)
    ensures FirstText(fields, keys, max) == Some(t) <==> AssertsText(fields, keys, max, t)
  {
    hide Usable, Get, Trim;
    if keys != [] {
      FirstTextIsAsserted(fields, keys[1..], max, t);
      forall u { UsableText(fields, keys[0], max, u); }
      var value := Get(fields, keys[0]);
      if value.Some? && value.value.Text? && 0 < |Trim(value.value.s)| <= max {
        assert Usable(fields, keys[0], max, Trim(value.value.s));
      } else {
        LaterKeys(fields, keys, max, t);
      }
    }
  }

  lemma LaterKeys(fields: seq<Field>, keys: seq<string>, max: nat, t: string)
    requires keys != [] && forall u :: !Usable(fields, keys[0], max, u)
    ensures AssertsText(fields, keys, max, t) <==> AssertsText(fields, keys[1..], max, t)
  {
    hide Usable;
    if AssertsText(fields, keys[1..], max, t) {
      var k :| && 0 <= k < |keys[1..]| && Usable(fields, keys[1..][k], max, t)
               && forall j, u :: 0 <= j < k ==> !Usable(fields, keys[1..][j], max, u);
      assert forall j :: 0 < j < |keys| ==> keys[j] == keys[1..][j - 1];
      assert Usable(fields, keys[k + 1], max, t);
    }
    if AssertsText(fields, keys, max, t) {
      var k :| && 0 <= k < |keys| && Usable(fields, keys[k], max, t)
               && forall j, u :: 0 <= j < k ==> !Usable(fields, keys[j], max, u);
      assert forall j :: 0 <= j < |keys| - 1 ==> keys[1..][j] == keys[j + 1];
      assert Usable(fields, keys[1..][k - 1], max, t);
    }
  }

  // ---- The deepest object that says so ----------------------------------------------------------

  datatype Aspect = Symbol | DocumentTitle | PublishedAt | Unit

  function Of(a: Attribution, aspect: Aspect): Option<string> {
    match aspect
    case Symbol => a.symbol
    case DocumentTitle => a.documentTitle
    case PublishedAt => a.publishedAt
    case Unit => a.unit
  }

  // A symbol is six digits as they are; the other texts are trimmed and bounded.
  ghost predicate Asserts(value: Json, aspect: Aspect, t: string) {
    value.Object? &&
    match aspect
    case Symbol =>
      Field("symbol", Text(t)) in value.fields && |t| == 6 && forall c :: c in t ==> c in "0123456789"
    case DocumentTitle => AssertsText(value.fields, ["title", "headline"], 200, t)
    case PublishedAt => AssertsText(value.fields, ["published_at", "publish_time", "pub_time"], 40, t)
    case Unit => AssertsText(value.fields, ["unit", "currency"], 20, t)
  }

  lemma SymbolIsAsserted(fields: seq<Field>, t: string)
    requires Distinct(fields)
    ensures SymbolOf(fields) == Some(t) <==> Asserts(Object(fields), Symbol, t)
  {
    hide Get;
    GetHolds(fields, "symbol", Text(t));
    forall c ensures c in "0123456789" <==> '0' <= c <= '9' {
      DigitIn(c);
    }
    if |t| == 6 && forall c :: c in t ==> c in "0123456789" {
      forall i | 0 <= i < 6 ensures '0' <= t[i] <= '9' {
        assert t[i] in t;
      }
    }
  }

  lemma DigitIn(c: char)
    ensures c in "0123456789" <==> '0' <= c <= '9'
  {
    var digits := "0123456789";
    if '0' <= c <= '9' {
      assert digits[c as int - '0' as int] == c;
    }
  }

  // What the node itself makes of what came in.
  ghost predicate Makes(value: Json, aspect: Aspect, own: Option<string>, above: Option<string>) {
    if exists t :: Asserts(value, aspect, t) then own.Some? && Asserts(value, aspect, own.value) else own == above
  }

  // An object's own attribution is what it asserts, and else what it inherits.
  lemma OwnAssertsOrInherits(value: Json, above: Attribution, aspect: Aspect)
    requires DistinctKeys(value)
    ensures Makes(value, aspect, Of(Own(value, above), aspect), Of(above, aspect))
  {
    hide FirstText, SymbolOf, AssertsText;
    if value.Object? {
      var fields := value.fields;
      assert Distinct(fields);
      forall t
        ensures SymbolOf(fields) == Some(t) <==> Asserts(value, Symbol, t)
        ensures FirstText(fields, ["title", "headline"], 200) == Some(t) <==> Asserts(value, DocumentTitle, t)
        ensures FirstText(fields, ["published_at", "publish_time", "pub_time"], 40) == Some(t)
                <==> Asserts(value, PublishedAt, t)
        ensures FirstText(fields, ["unit", "currency"], 20) == Some(t) <==> Asserts(value, Unit, t)
      {
        SymbolIsAsserted(fields, t);
        FirstTextIsAsserted(fields, ["title", "headline"], 200, t);
        FirstTextIsAsserted(fields, ["published_at", "publish_time", "pub_time"], 40, t);
        FirstTextIsAsserted(fields, ["unit", "currency"], 20, t);
      }
      hide Asserts;
    }
  }

  // The part the steps lead to, registries aside.
  ghost function NodeAt(value: Json, steps: seq<Step>): Option<Json>
    decreases |steps|
  {
    if steps == [] then Some(value)
    else
      match Part(value, steps[0])
      case None => None
      case Some(part) => NodeAt(part, steps[1..])
  }

  ghost predicate AssertsNothing(node: Option<Json>, aspect: Aspect) {
    node.Some? ==> forall t :: !Asserts(node.value, aspect, t)
  }

  // What a part inherits of an aspect is asserted by the object `depth` steps down, and by
  // none below it on the way; or by none at all, and then it came in at the root.
  ghost predicate FromDeepest(
      value: Json, steps: seq<Step>, aspect: Aspect, depth: int, found: Option<string>, above: Option<string>)
  {
    && -1 <= depth <= |steps|
    && (forall n {:trigger steps[..n]} :: depth < n <= |steps| ==> AssertsNothing(NodeAt(value, steps[..n]), aspect))
    && if depth < 0 then found == above
       else
         var node := NodeAt(value, steps[..depth]);
         node.Some? && found.Some? && Asserts(node.value, aspect, found.value)
  }

  lemma PartIsDistinct(value: Json, step: Step)
    requires DistinctKeys(value) && Part(value, step).Some?
    ensures DistinctKeys(Part(value, step).value)
  {
    if value.Object? {
      var m := GetIndex(value.fields, step.key);
    }
  }

  lemma {:induction false} DeepestAsserts(value: Json, steps: seq<Step>, above: Attribution, aspect: Aspect)
    returns (depth: int)
    requires DistinctKeys(value) && Inherited(value, steps, above).Some?
    ensures FromDeepest(value, steps, aspect, depth, Of(Inherited(value, steps, above).value, aspect),
                        Of(above, aspect))
    decreases |steps|
  {
    hide Asserts, Own, Part, DistinctKeys, FromDeepest;
    OwnAssertsOrInherits(value, above, aspect);
    var own := Own(value, above);
    if steps == [] {
      depth := if exists t :: Asserts(value, aspect, t) then 0 else -1;
      DeepestHere(value, aspect, depth, Of(own, aspect), Of(above, aspect));
    } else {
      PartIsDistinct(value, steps[0]);
      var below := DeepestAsserts(Part(value, steps[0]).value, steps[1..], own, aspect);
      depth := if below >= 0 then below + 1 else if exists t :: Asserts(value, aspect, t) then 0 else -1;
      DeepestBelow(value, steps, aspect, below, depth, Of(Inherited(value, steps, above).value, aspect),
                   Of(own, aspect), Of(above, aspect));
    }
  }

  lemma DeepestHere(value: Json, aspect: Aspect, depth: int, own: Option<string>, above: Option<string>)
    requires Makes(value, aspect, own, above) && depth == if exists t :: Asserts(value, aspect, t) then 0 else -1
    ensures FromDeepest(value, [], aspect, depth, own, above)
  {
    hide Asserts;
    var steps: seq<Step> := [];
    assert steps[..0] == [];
  }

  lemma DeepestBelow(value: Json, steps: seq<Step>, aspect: Aspect, below: int, depth: int,
                     found: Option<string>, own: Option<string>, above: Option<string>)
    requires steps != [] && Part(value, steps[0]).Some? && Makes(value, aspect, own, above)
    requires FromDeepest(Part(value, steps[0]).value, steps[1..], aspect, below, found, own)
    requires depth == if below >= 0 then below + 1 else if exists t :: Asserts(value, aspect, t) then 0 else -1
    ensures FromDeepest(value, steps, aspect, depth, found, above)
  {
    hide Asserts, Part, AssertsNothing;
    var part, rest := Part(value, steps[0]).value, steps[1..];
    forall n | 0 < n <= |steps| ensures NodeAt(value, steps[..n]) == NodeAt(part, rest[..n - 1]) {
      assert steps[..n][1..] == rest[..n - 1];
    }
    assert steps[..0] == [] && NodeAt(value, []) == Some(value);
    hide NodeAt;
    forall n {:trigger steps[..n]} | depth < n <= |steps|
      ensures AssertsNothing(NodeAt(value, steps[..n]), aspect)
    {
      if n > 0 {
        assert AssertsNothing(NodeAt(part, rest[..n - 1]), aspect);
      } else {
        NothingAsserted(value, aspect);
      }
    }
  }

  lemma NothingAsserted(value: Json, aspect: Aspect)
    requires !exists t :: Asserts(value, aspect, t)
    ensures AssertsNothing(Some(value), aspect)
  {
  }

  // Looked up in the sparse index, a part of a result belongs to the deepest object around it
  // that says so; only the symbol of the call stands in where no object gives one.
  lemma FactsBelongToDeepest(result: Json, fallback: Option<string>, steps: seq<Step>, aspect: Aspect)
    returns (depth: int)
    requires DistinctKeys(result) && NodeAt(result, steps).Some?
    ensures var found := Lookup(Path(steps), IndexOf(result, Attribution(fallback, None, None, None)));
            FromDeepest(result, steps, aspect, depth, if found.Some? then Of(found.value, aspect) else None,
                        if aspect == Symbol then fallback else None)
  {
    hide FromDeepest, Inherited, Lookup, IndexOf, NodeAt;
    var root := Attribution(fallback, None, None, None);
    NodeInherits(result, steps, root);
    depth := DeepestAsserts(result, steps, root, aspect);
    SparseIndexIsInheritance(result, root, steps);
  }

  lemma {:induction false} NodeInherits(value: Json, steps: seq<Step>, above: Attribution)
    ensures NodeAt(value, steps).Some? <==> Inherited(value, steps, above).Some?
    decreases |steps|
  {
    if steps != [] && Part(value, steps[0]).Some? {
      NodeInherits(Part(value, steps[0]).value, steps[1..], Own(value, above));
    }
  }
}

module Registrations {
  import opened Attributions
  import opened Assertions
  import opened Conflicts
  import opened Pointers
  import opened Sequences
  import opened Wrappers

  // ---- Which rows are ingested ------------------------------------------------------------------

  // The row is one of the facts of the registry of an object outside the registries, and
  // decodes to this.
  ghost predicate RegisteredAt(value: Json, steps: seq<Step>, decode: Json -> Option<RawFact>, fact: RawFact) {
    var node := NodeAt(value, steps);
    node.Some? && node.value.Object? && RegisteredIn(node.value.fields, decode, fact)
  }

  ghost predicate RegisteredIn(fields: seq<Field>, decode: Json -> Option<RawFact>, fact: RawFact) {
    exists registry, rows ::
      && Field("evidence_registry", Object(registry)) in fields && Field("facts", Array(rows)) in registry
      && exists row :: row in rows && decode(row) == Some(fact)
  }

  lemma {:induction false} RowsDecode(rows: seq<Json>, decode: Json -> Option<RawFact>, fact: RawFact)
    ensures fact in Rows(rows, decode) <==> exists row :: row in rows && decode(row) == Some(fact)
  {
    if rows != [] {
      RowsDecode(rows[1..], decode, fact);
      assert rows == [rows[0]] + rows[1..];
      if exists row :: row in rows[1..] && decode(row) == Some(fact) {
        var row :| row in rows[1..] && decode(row) == Some(fact);
        assert row in rows;
      }
    }
  }

  lemma OwnRows(fields: seq<Field>, decode: Json -> Option<RawFact>, fact: RawFact)
    requires DistinctKeys(Object(fields))
    ensures fact in Rows(Registry(fields), decode) <==> RegisteredIn(fields, decode, fact)
  {
    hide Rows, Get;
    RowsDecode(Registry(fields), decode, fact);
    assert Distinct(fields);
    forall registry
      ensures Get(fields, REGISTRY) == Some(Object(registry)) <==> Field(REGISTRY, Object(registry)) in fields
    {
      GetHolds(fields, REGISTRY, Object(registry));
    }
    match Get(fields, REGISTRY) {
      case Some(Object(registry)) =>
        assert Field(REGISTRY, Object(registry)) in fields;
        var m := GetIndex(fields, REGISTRY);
        assert Distinct(registry);
        forall rows ensures Get(registry, "facts") == Some(Array(rows)) <==> Field("facts", Array(rows)) in registry {
          GetHolds(registry, "facts", Array(rows));
        }
      case _ =>
    }
  }

  // Below part m, which is no registry.
  ghost predicate RegisteredBelow(
      value: Json, m: nat, steps: seq<Step>, decode: Json -> Option<RawFact>, fact: RawFact)
  {
    match value
    case Object(fields) =>
      m < |fields| && fields[m].key != "evidence_registry" && RegisteredAt(fields[m].value, steps, decode, fact)
    case Array(items) => m < |items| && RegisteredAt(items[m], steps, decode, fact)
    case _ => false
  }

  // Exactly the rows of registries are ingested: of every object of the result, at any depth
  // but not inside a registry.
  lemma {:induction false} CollectsRegistered(value: Json, decode: Json -> Option<RawFact>, fact: RawFact)
    requires DistinctKeys(value)
    ensures fact in CollectFacts(value, decode) <==> exists steps :: RegisteredAt(value, steps, decode, fact)
    decreases value
  {
    hide RegisteredAt, RegisteredBelow, Rows, Registry;
    match value
    case Object(fields) =>
      FieldsRegistered(value, 0, decode, fact);
      OwnRows(fields, decode, fact);
      HereOrBelow(value, decode, fact);
    case Array(items) =>
      ItemsRegistered(value, 0, decode, fact);
      HereOrBelow(value, decode, fact);
    case _ =>
      HereOrBelow(value, decode, fact);
      assert forall m: nat, steps :: !RegisteredBelow(value, m, steps, decode, fact) by {
        NothingBelow(value, decode, fact);
      }
  }

  lemma NothingBelow(value: Json, decode: Json -> Option<RawFact>, fact: RawFact)
    requires !value.Object? && !value.Array?
    ensures forall m: nat, steps :: !RegisteredBelow(value, m, steps, decode, fact)
  {
  }

  lemma {:induction false} FieldsRegistered(node: Json, n: nat, decode: Json -> Option<RawFact>, fact: RawFact)
    requires node.Object? && DistinctKeys(node) && n <= |node.fields|
    ensures fact in FieldFacts(node, n, decode)
            <==> exists m: nat, steps :: n <= m && RegisteredBelow(node, m, steps, decode, fact)
    decreases node, |node.fields| - n
  {
    hide RegisteredAt, CollectFacts;
    if n < |node.fields| {
      FieldsAreApart(node, n);
      FieldsRegistered(node, n + 1, decode, fact);
      if node.fields[n].key != REGISTRY {
        CollectsRegistered(node.fields[n].value, decode, fact);
      }
      forall steps ensures RegisteredBelow(node, n, steps, decode, fact)
        <==> node.fields[n].key != REGISTRY && RegisteredAt(node.fields[n].value, steps, decode, fact)
      {
      }
      hide RegisteredBelow;
    }
  }

  lemma {:induction false} ItemsRegistered(node: Json, n: nat, decode: Json -> Option<RawFact>, fact: RawFact)
    requires node.Array? && DistinctKeys(node) && n <= |node.items|
    ensures fact in ItemFacts(node, n, decode)
            <==> exists m: nat, steps :: n <= m && RegisteredBelow(node, m, steps, decode, fact)
    decreases node, |node.items| - n
  {
    hide RegisteredAt, CollectFacts;
    if n < |node.items| {
      ItemsRegistered(node, n + 1, decode, fact);
      CollectsRegistered(node.items[n], decode, fact);
      forall steps ensures RegisteredBelow(node, n, steps, decode, fact)
        <==> RegisteredAt(node.items[n], steps, decode, fact)
      {
      }
      hide RegisteredBelow;
    }
  }

  lemma HereOrBelow(value: Json, decode: Json -> Option<RawFact>, fact: RawFact)
    requires DistinctKeys(value)
    ensures (exists steps :: RegisteredAt(value, steps, decode, fact))
            <==> || (value.Object? && RegisteredIn(value.fields, decode, fact))
                 || exists m: nat, steps :: RegisteredBelow(value, m, steps, decode, fact)
  {
    hide RegisteredIn;
    if value.Object? && RegisteredIn(value.fields, decode, fact) {
      assert RegisteredAt(value, [], decode, fact);
    }
    forall m: nat, steps | RegisteredBelow(value, m, steps, decode, fact)
      ensures exists more :: RegisteredAt(value, more, decode, fact)
    {
      var step := StepTo(value, m);
      assert ([step] + steps)[1..] == steps;
      assert RegisteredAt(value, [step] + steps, decode, fact);
    }
    forall steps | steps != [] && RegisteredAt(value, steps, decode, fact)
      ensures exists m: nat, rest :: RegisteredBelow(value, m, rest, decode, fact)
    {
      var m := PartIndex(value, steps[0]);
      assert RegisteredBelow(value, m, steps[1..], decode, fact);
    }
  }

  lemma StepTo(value: Json, m: nat) returns (step: Step)
    requires DistinctKeys(value)
    requires || (value.Object? && m < |value.fields| && value.fields[m].key != REGISTRY)
             || (value.Array? && m < |value.items|)
    ensures Part(value, step) == Some(if value.Object? then value.fields[m].value else value.items[m])
  {
    if value.Object? {
      var f := value.fields[m];
      assert Distinct(value.fields) && f == Field(f.key, f.value);
      GetHolds(value.fields, f.key, f.value);
      step := Key(f.key);
    } else {
      step := Index(m);
    }
  }

  lemma PartIndex(value: Json, step: Step) returns (m: nat)
    requires Part(value, step).Some?
    ensures || (value.Object? && m < |value.fields| && value.fields[m].key != REGISTRY
                && value.fields[m].value == Part(value, step).value)
            || (value.Array? && m < |value.items| && value.items[m] == Part(value, step).value)
  {
    if value.Object? {
      m := GetIndex(value.fields, step.key);
    } else {
      m := step.index;
    }
  }

  // They come in the order of the result: a later item, field or row adds its facts at the end.
  lemma FactsComeInOrder(
      items: seq<Json>, item: Json, fields: seq<Field>, field: Field, decode: Json -> Option<RawFact>)
    requires field.key != "evidence_registry"
    ensures CollectFacts(Array(items + [item]), decode)
         == CollectFacts(Array(items), decode) + CollectFacts(item, decode)
    ensures CollectFacts(Object(fields + [field]), decode)
         == CollectFacts(Object(fields), decode) + CollectFacts(field.value, decode)
  {
    ItemsAppend(items, item, 0, decode);
    FieldsAppend(fields, field, 0, decode);
    GetAppend(fields, field, REGISTRY);
    Associate(Rows(Registry(fields), decode), FieldFacts(Object(fields), 0, decode), CollectFacts(field.value, decode));
  }

  lemma {:induction false} ItemsAppend(items: seq<Json>, item: Json, n: nat, decode: Json -> Option<RawFact>)
    requires n <= |items|
    ensures ItemFacts(Array(items + [item]), n, decode)
         == ItemFacts(Array(items), n, decode) + CollectFacts(item, decode)
    decreases |items| - n
  {
    hide CollectFacts;
    var more := Array(items + [item]);
    if n < |items| {
      ItemsAppend(items, item, n + 1, decode);
      Associate(CollectFacts(items[n], decode), ItemFacts(Array(items), n + 1, decode), CollectFacts(item, decode));
    } else {
      assert ItemFacts(more, n + 1, decode) == [];
    }
  }

  lemma {:induction false} FieldsAppend(fields: seq<Field>, field: Field, n: nat, decode: Json -> Option<RawFact>)
    requires n <= |fields| && field.key != REGISTRY
    ensures FieldFacts(Object(fields + [field]), n, decode)
         == FieldFacts(Object(fields), n, decode) + CollectFacts(field.value, decode)
    decreases |fields| - n
  {
    hide CollectFacts;
    var more := Object(fields + [field]);
    if n < |fields| {
      FieldsAppend(fields, field, n + 1, decode);
      var head := if fields[n].key == REGISTRY then [] else CollectFacts(fields[n].value, decode);
      Associate(head, FieldFacts(Object(fields), n + 1, decode), CollectFacts(field.value, decode));
    } else {
      assert FieldFacts(more, n + 1, decode) == [];
    }
  }

  lemma {:induction false} GetAppend(fields: seq<Field>, field: Field, key: string)
    requires field.key != key
    ensures Get(fields + [field], key) == Get(fields, key)
  {
    if fields != [] {
      GetAppend(fields[1..], field, key);
      assert (fields + [field])[1..] == fields[1..] + [field];
    }
  }

  lemma {:induction false} RowsComeInOrder(rows: seq<Json>, row: Json, decode: Json -> Option<RawFact>)
    ensures Rows(rows + [row], decode)
         == Rows(rows, decode) + (if decode(row).Some? then [decode(row).value] else [])
  {
    if rows == [] {
      assert [] + [row] == [row] && [row][1..] == [];
    } else {
      RowsComeInOrder(rows[1..], row, decode);
      assert (rows + [row])[1..] == rows[1..] + [row];
      Associate(if decode(rows[0]).Some? then [decode(rows[0]).value] else [], Rows(rows[1..], decode),
                if decode(row).Some? then [decode(row).value] else []);
    }
  }

  // ---- Which identifiers are admitted, and which time is later ------------------------------------

  // Characters of `s` from a code point on.
  function CountFrom(s: string, least: int): nat {
    if s == "" then 0 else (if s[0] as int >= least then 1 else 0) + CountFrom(s[1..], least)
  }

  // UTF-8 spends a byte on every character and one more on reaching each of three bounds
  // (section 3 of RFC 3629).
  lemma {:induction false} BytesAreUtf8(s: string)
    ensures ByteLength(s) == |s| + CountFrom(s, 0x80) + CountFrom(s, 0x800) + CountFrom(s, 0x1_0000)
  {
    if s != "" {
      BytesAreUtf8(s[1..]);
    }
  }

  lemma AdmittedIff(fact: RawFact)
    ensures WellFormed(fact) <==>
              var id := fact.evidenceId;
              && |id| >= 4 && id[0] == 'e' && id[1] == 'v' && id[2] == 'f' && id[3] == '_'
              && |id| + CountFrom(id, 0x80) + CountFrom(id, 0x800) + CountFrom(id, 0x1_0000) <= 80
  {
    var id := fact.evidenceId;
    BytesAreUtf8(id);
    if |id| >= 4 {
      assert id[..4] == [id[0], id[1], id[2], id[3]];
      assert "evf_" == ['e', 'v', 'f', '_'];
    }
  }

  // The two agree up to i, where `a` ends or has the lower character.
  ghost predicate LowerAt(a: string, b: string, i: nat) {
    i <= |a| && i < |b| && a[..i] == b[..i] && (i == |a| || a[i] < b[i])
  }

  lemma {:induction false} BeforeIsLexicographic(a: string, b: string)
    ensures Before(a, b) <==> exists i: nat :: LowerAt(a, b, i)
  {
    if a != "" && b != "" && a[0] == b[0] {
      BeforeIsLexicographic(a[1..], b[1..]);
      forall i: nat | LowerAt(a[1..], b[1..], i) ensures LowerAt(a, b, i + 1) {
        assert a[..i + 1] == [a[0]] + a[1..][..i] && b[..i + 1] == [b[0]] + b[1..][..i];
      }
      forall i: nat | LowerAt(a, b, i) ensures i > 0 && LowerAt(a[1..], b[1..], i - 1) {
        assert a[..i][1..] == a[1..][..i - 1] && b[..i][1..] == b[1..][..i - 1];
      }
    } else if b != "" {
      assert a == "" || a[0] < b[0] ==> LowerAt(a, b, 0);
      forall i: nat | LowerAt(a, b, i) ensures i == 0 {
        SameHead(a, b, i);
      }
    }
  }

  lemma SameHead(a: string, b: string, i: nat)
    requires LowerAt(a, b, i)
    ensures i == 0 || (a != "" && b != "" && a[0] == b[0])
  {
    if i > 0 {
      assert a[..i][0] == b[..i][0];
    }
  }

  // ---- What is kept ---------------------------------------------------------------------------------

  // The first admitted fact of an identifier.
  ghost predicate IsFirst(history: History, i: nat, id: string) {
    && i < |history| && WellFormed(history[i].0) && history[i].0.evidenceId == id
    && forall j :: 0 <= j < i ==> !(WellFormed(history[j].0) && history[j].0.evidenceId == id)
  }

  // Of every history: the descriptor of a registered identifier says what the registration
  // kept says, belongs to what the first fact of the identifier was attributed to in the
  // result it came in, and is marked exactly when two facts differ.
  lemma DescriptorsDescribe(history: History, id: string, first: nat)
    requires id in Replay(history).raw && IsFirst(history, first, id)
    ensures var s := Replay(history);
            var fact, a := s.raw[id], Lookup(history[first].0.path, history[first].1);
            && id in s.descriptors
            && s.descriptors[id] ==
               Descriptor(id, fact.source, if a.Some? then a.value.symbol else None, fact.path, fact.value,
                          if a.Some? then a.value.unit else None, fact.observedAt,
                          if a.Some? then a.value.publishedAt else None,
                          if a.Some? then a.value.documentTitle else None,
                          fact.qualityBlocking, Flagged(s, id))
  {
    hide Replay, WellFormed, Lookup;
    ReplayHolds(history, id);
    FirstAttributes(history, id, first);
  }

  ghost predicate AttributedTo(d: Descriptor, found: Option<Attribution>) {
    var a := if found.Some? then found.value else EMPTY;
    d.symbol == a.symbol && d.unit == a.unit && d.publishedAt == a.publishedAt && d.documentTitle == a.documentTitle
  }

  lemma {:induction false} FirstAttributes(history: History, id: string, first: nat)
    requires id in Replay(history).descriptors && IsFirst(history, first, id)
    ensures AttributedTo(Replay(history).descriptors[id], Lookup(history[first].0.path, history[first].1))
  {
    var n := |history| - 1;
    var init := history[..n];
    var s, last := Replay(init), history[n];
    assert Replay(history) == Ingest(s, last.0, last.1);
    hide WellFormed, Lookup, Replay, Ingest, AttributedTo;
    ReplayHolds(init, id);
    IngestAttributes(s, last.0, last.1, id);
    if id in s.descriptors {
      var i := FirstIsEarlier(init, id);
      assert init[i] == history[i] && first <= i;
      FirstAttributes(init, id, first);
      SameAttribution(s.descriptors[id], Replay(history).descriptors[id],
                      Lookup(history[first].0.path, history[first].1));
    } else {
      forall i | 0 <= i < n && init[i].0.evidenceId == id ensures !WellFormed(init[i].0) {
        RoomMeansRegistered(init, i);
      }
      assert first == n;
    }
  }

  ghost predicate SameOwner(d: Descriptor, e: Descriptor) {
    d.symbol == e.symbol && d.unit == e.unit && d.publishedAt == e.publishedAt && d.documentTitle == e.documentTitle
  }

  lemma SameAttribution(d: Descriptor, e: Descriptor, found: Option<Attribution>)
    requires SameOwner(d, e) && AttributedTo(d, found)
    ensures AttributedTo(e, found)
  {
  }

  // One fact changes no attribution, and gives one only to what it registers.
  lemma IngestAttributes(s: State, fact: RawFact, index: PathIndex, id: string)
    requires s.raw.Keys == s.descriptors.Keys && id in Ingest(s, fact, index).descriptors
    ensures var d := Ingest(s, fact, index).descriptors[id];
            if id in s.descriptors then SameOwner(s.descriptors[id], d)
            else WellFormed(fact) && fact.evidenceId == id && |s.descriptors| < MAX_CATALOG_ENTRIES
                 && AttributedTo(d, Lookup(fact.path, index))
  {
    hide WellFormed, Disagree, Newer, Lookup;
  }

  // While there is room every admitted fact's identifier is registered.
  lemma RoomMeansRegistered(history: History, i: nat)
    requires i < |history| && |Replay(history).descriptors| < MAX_CATALOG_ENTRIES
    ensures WellFormed(history[i].0) ==> history[i].0.evidenceId in Replay(history).descriptors
  {
    hide Replay, WellFormed, Disagree, Newer;
    ReplayHolds(history, history[i].0.evidenceId);
    if WellFormed(history[i].0) {
      assert Seen(history, history[i].0);
    }
  }

  // What is registered has been seen, so the first fact of it is among those so far.
  lemma FirstIsEarlier(init: History, id: string) returns (i: nat)
    requires id in Replay(init).descriptors
    ensures i < |init| && WellFormed(init[i].0) && init[i].0.evidenceId == id
  {
    hide Replay, WellFormed;
    ReplayHolds(init, id);
    var fact := Replay(init).raw[id];
    assert Seen(init, fact);
    i :| 0 <= i < |init| && init[i].0 == fact;
  }

  // A divergent registration once kept is not replaced by later ones.
  lemma {:induction false} VariantStays(history: History, n: nat, id: string)
    requires n <= |history| && id in Replay(history[..n]).variants
    ensures id in Replay(history).variants && Replay(history).variants[id] == Replay(history[..n]).variants[id]
    decreases |history| - n
  {
    hide WellFormed, Disagree, Newer, Lookup;
    if n == |history| {
      assert history[..n] == history;
    } else {
      assert history[..n + 1][..n] == history[..n];
      VariantStays(history, n + 1, id);
    }
  }

  // ---- What is dropped --------------------------------------------------------------------------------

  // Admitted facts of identifiers not among these.
  function Unregistered(history: History, ids: set<string>): nat {
    if history == [] then 0
    else
      var fact := history[|history| - 1].0;
      Unregistered(history[..|history| - 1], ids)
      + if WellFormed(fact) && fact.evidenceId !in ids then 1 else 0
  }

  lemma {:induction false} NoneUnregistered(history: History, ids: set<string>)
    requires forall i :: 0 <= i < |history| && WellFormed(history[i].0) ==> history[i].0.evidenceId in ids
    ensures Unregistered(history, ids) == 0
  {
    hide WellFormed;
    if history != [] {
      NoneUnregistered(history[..|history| - 1], ids);
    }
  }

  // Of every history: the dropped counter is the number of admitted facts whose identifier
  // never got in.
  lemma {:induction false} DroppedIsExact(history: History)
    ensures var s := Replay(history); s.dropped == Unregistered(history, s.raw.Keys)
  {
    hide WellFormed, Disagree, Newer, Lookup;
    if history != [] {
      var init, last := history[..|history| - 1], history[|history| - 1];
      var s, next := Replay(init), Replay(history);
      DroppedIsExact(init);
      ReplayHolds(init, last.0.evidenceId);
      if next.raw.Keys != s.raw.Keys {
        forall i | 0 <= i < |init| && WellFormed(init[i].0) ensures init[i].0.evidenceId in s.raw.Keys {
          RoomMeansRegistered(init, i);
        }
        NoneUnregistered(init, s.raw.Keys);
        NoneUnregistered(init, next.raw.Keys);
      }
    }
  }
}
