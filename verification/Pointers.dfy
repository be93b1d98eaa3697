// JSON values and the pointers that name their parts (section 3 of RFC 6901), as the
// evidence catalog builds them (crates/agent-runtime/src/catalog.rs).

module Pointers {
  import opened Sequences

  // Objects hold their fields in key order.
  datatype Json =
    | Null
    | Bool(b: bool)
    | Number(n: real)
    | Text(s: string)
    | Array(items: seq<Json>)
    | Object(fields: seq<Field>)

  datatype Field = Field(key: string, value: Json)

  // A way into a value: field keys and array positions.
  datatype Step = Key(key: string) | Index(index: nat)

  // ---- Tokens ---------------------------------------------------------------------------

  function Replace(s: string, c: char, with: string): string {
    if s == "" then "" else (if s[0] == c then with else [s[0]]) + Replace(s[1..], c, with)
  }

  // '~' first, then '/'.
  function EscapePointer(s: string): string {
    Replace(Replace(s, '~', "~0"), '/', "~1")
  }

  // Reading a token back.
  function UnescapePointer(s: string): string {
    if s == "" then ""
    else if |s| >= 2 && s[0] == '~' && s[1] == '0' then "~" + UnescapePointer(s[2..])
    else if |s| >= 2 && s[0] == '~' && s[1] == '1' then "/" + UnescapePointer(s[2..])
    else [s[0]] + UnescapePointer(s[1..])
  }

  function EscapeChar(c: char): string {
    if c == '~' then "~0" else if c == '/' then "~1" else [c]
  }

  lemma {:induction false} ReplaceAppends(a: string, b: string, c: char, with: string)
    ensures Replace(a + b, c, with) == Replace(a, c, with) + Replace(b, c, with)
  {
    if a == "" {
      assert a + b == b;
    } else {
      ReplaceAppends(a[1..], b, c, with);
      assert (a + b)[1..] == a[1..] + b;
      var head := if a[0] == c then with else [a[0]];
      assert Replace(a + b, c, with) == head + (Replace(a[1..], c, with) + Replace(b, c, with));
      Associate(head, Replace(a[1..], c, with), Replace(b, c, with));
    }
  }

  lemma EscapeStep(s: string)
    requires s != ""
    ensures EscapePointer(s) == EscapeChar(s[0]) + EscapePointer(s[1..])
    ensures EscapeChar(s[0]) == if s[0] == '~' then ['~', '0'] else if s[0] == '/' then ['~', '1'] else [s[0]]
  {
    var head := if s[0] == '~' then "~0" else [s[0]];
    ReplaceAppends(head, Replace(s[1..], '~', "~0"), '/', "~1");
    assert Replace(s, '~', "~0") == head + Replace(s[1..], '~', "~0");
    if s[0] == '~' {
      assert "~0"[1..] == "0" && "0"[1..] == "";
      assert Replace("0", '/', "~1") == "0" && Replace("~0", '/', "~1") == "~0";
    } else {
      assert [s[0]][1..] == "";
    }
  }

  lemma UnescapeStep(c: char, rest: string)
    ensures UnescapePointer(EscapeChar(c) + rest) == [c] + UnescapePointer(rest)
    ensures '/' !in EscapeChar(c)
  {
    var head := EscapeChar(c);
    if |head| == 2 {
      assert (head + rest)[2..] == rest;
    } else {
      assert (head + rest)[1..] == rest;
    }
  }

  // Escaping is undone by reading back, and leaves no separator behind.
  lemma {:induction false} EscapeRoundTrip(s: string)
    ensures UnescapePointer(EscapePointer(s)) == s
    ensures '/' !in EscapePointer(s)
  {
    if s != "" {
      hide EscapeChar, EscapePointer, UnescapePointer;
      EscapeRoundTrip(s[1..]);
      EscapeStep(s);
      UnescapeStep(s[0], EscapePointer(s[1..]));
    }
  }

  // Decimal numeral of an array position.
  function Digit(d: nat): char
    requires d < 10
  {
    "0123456789"[d]
  }

  function Decimal(n: nat): string {
    if n < 10 then [Digit(n)] else Decimal(n / 10) + [Digit(n % 10)]
  }

  function DigitValue(c: char): nat {
    if '0' <= c <= '9' then c as nat - '0' as nat else 0
  }

  function ReadDecimal(s: string): nat {
    if s == "" then 0 else 10 * ReadDecimal(s[..|s| - 1]) + DigitValue(s[|s| - 1])
  }

  lemma DigitReads(d: nat)
    requires d < 10
    ensures DigitValue(Digit(d)) == d && '0' <= Digit(d) <= '9'
  {
  }

  lemma {:induction false} DecimalRoundTrip(n: nat)
    ensures ReadDecimal(Decimal(n)) == n && Decimal(n) != ""
    ensures forall c :: c in Decimal(n) ==> '0' <= c <= '9'
  {
    hide Digit, DigitValue;
    DigitReads(n % 10);
    if n >= 10 {
      DecimalRoundTrip(n / 10);
      assert Decimal(n)[..|Decimal(n)| - 1] == Decimal(n / 10);
    } else {
      assert [Digit(n)][..0] == "";
    }
  }

  function Token(step: Step): string {
    match step case Key(key) => EscapePointer(key) case Index(i) => Decimal(i)
  }

  lemma TokenHasNoSlash(step: Step)
    ensures '/' !in Token(step)
  {
    match step
    case Key(key) => EscapeRoundTrip(key);
    case Index(i) => DecimalRoundTrip(i);
  }

  // Keys of one object, and positions in one array, get different tokens.
  lemma TokensDiffer(a: Step, b: Step)
    requires a != b && (a.Key? <==> b.Key?)
    ensures Token(a) != Token(b)
  {
    if a.Key? {
      EscapeRoundTrip(a.key);
      EscapeRoundTrip(b.key);
    } else {
      DecimalRoundTrip(a.index);
      DecimalRoundTrip(b.index);
    }
  }

  // ---- Paths ----------------------------------------------------------------------------

  function Child(path: string, step: Step): string {
    path + "/" + Token(step)
  }

  function Path(steps: seq<Step>): string {
    if steps == [] then "" else Child(Path(steps[..|steps| - 1]), steps[|steps| - 1])
  }

  // A step adds a separator and its token: a key with '~' and '/' escaped, or a position as
  // it is written in digits.
  lemma PathAppends(steps: seq<Step>, step: Step)
    ensures Path([]) == ""
    ensures Path(steps + [step])
         == Path(steps) + ['/'] + match step case Key(key) => EscapePointer(key) case Index(i) => Decimal(i)
  {
    assert (steps + [step])[..|steps|] == steps;
  }

  // Position of the last '/', or -1.
  function LastSlash(s: string): (i: int)
    ensures -1 <= i < |s|
    ensures i >= 0 ==> s[i] == '/'
    ensures forall k :: i < k < |s| ==> s[k] != '/'
  {
    if s == "" then -1 else if s[|s| - 1] == '/' then |s| - 1 else LastSlash(s[..|s| - 1])
  }

  // Cutting a path at its last '/' gives the parent's path.
  lemma ParentPath(path: string, step: Step)
    ensures LastSlash(Child(path, step)) == |path|
    ensures Child(path, step)[..|path|] == path
  {
    TokenHasNoSlash(step);
    var p := Child(path, step);
    assert p[|path|] == '/';
    forall k | |path| < k < |p| ensures p[k] != '/' {
      assert p[k] == Token(step)[k - |path| - 1];
    }
  }

  // The path itself, or one that continues below it.
  predicate Under(path: string, key: string) {
    path <= key && (|key| == |path| || key[|path|] == '/')
  }

  lemma ChildrenAreUnder(path: string, step: Step, key: string)
    requires Under(Child(path, step), key)
    ensures Under(path, key) && key != path
  {
    var c := Child(path, step);
    assert key[..|c|] == c;
    assert key[|path|] == c[|path|] == '/';
    assert key[..|path|] == c[..|path|] == path;
  }

  // What comes before the first separator.
  function HeadToken(s: string, separator: char): string {
    if s == "" || s[0] == separator then "" else [s[0]] + HeadToken(s[1..], separator)
  }

  lemma {:induction false} HeadTokenIs(token: string, rest: string, separator: char)
    requires separator !in token && (rest == "" || rest[0] == separator)
    ensures HeadToken(token + rest, separator) == token
  {
    if token == "" {
      assert token + rest == rest;
    } else {
      HeadTokenIs(token[1..], rest, separator);
      assert (token + rest)[1..] == token[1..] + rest;
    }
  }

  lemma BelowChild(path: string, step: Step, key: string)
    requires Under(Child(path, step), key)
    ensures |path| < |key| && HeadToken(key[|path| + 1..], '/') == Token(step)
  {
    var c := Child(path, step);
    TokenHasNoSlash(step);
    HeadTokenIs(Token(step), key[|c|..], '/');
    assert key == c + key[|c|..];
    assert key[|path| + 1..] == Token(step) + key[|c|..];
  }

  // No path lies below two different children.
  lemma SiblingsAreApart(path: string, a: Step, b: Step, key: string)
    requires a != b && (a.Key? <==> b.Key?)
    requires Under(Child(path, a), key)
    ensures !Under(Child(path, b), key)
  {
    TokensDiffer(a, b);
    BelowChild(path, a, key);
    if Under(Child(path, b), key) {
      BelowChild(path, b, key);
    }
  }
}
