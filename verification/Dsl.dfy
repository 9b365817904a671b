/** Sequence patterns: attack-chain steps are printed to pattern text, which is split and parsed back. */
module Dsl {
  import opened Events
  import opened Matcher
  import opened Text

  // ---- Whitespace ----

  predicate IsSpace(c: char) {
    c == ' ' || '\t' <= c <= '\r' || '\U{1C}' <= c <= '\U{1F}'
  }

  function TrimLeft(s: string): (r: string)
    ensures r == [] || !IsSpace(r[0])
  {
    if s != [] && IsSpace(s[0]) then TrimLeft(s[1..]) else s
  }

  function TrimRight(s: string): (r: string)
    ensures r <= s && (r == [] || !IsSpace(r[|r| - 1]))
  {
    if s != [] && IsSpace(s[|s| - 1]) then TrimRight(s[..|s| - 1]) else s
  }

  /** Python's s.strip(). */
  function Strip(s: string): string { TrimRight(TrimLeft(s)) }

  /** Nothing to strip. */
  predicate Tight(s: string) {
    s != [] && !IsSpace(s[0]) && !IsSpace(s[|s| - 1])
  }

  predicate AllSpaces(s: string) { forall i :: 0 <= i < |s| ==> IsSpace(s[i]) }

  lemma {:induction false} TrimSpaces(a: string, s: string)
    requires AllSpaces(a) && (s == [] || !IsSpace(s[0]))
    ensures TrimLeft(a + s) == s
  {
    if a == [] { assert a + s == s; }
    else {
      assert (a + s)[0] == a[0] && (a + s)[1..] == a[1..] + s;
      TrimSpaces(a[1..], s);
    }
  }

  lemma SpacesNone()
    ensures AllSpaces([])
  {}

  lemma SpacesCons(c: char, s: string)
    requires IsSpace(c) && AllSpaces(s)
    ensures AllSpaces([c] + s)
  {}

  lemma ConsConcat(s: string, a: string, b: string)
    requires s != [] && s[1..] == a + b
    ensures s == [s[0]] + a + b
  {
    assert s == [s[0]] + s[1..];
  }

  lemma {:induction false} TrimLeftIs(s: string) returns (a: string)
    ensures AllSpaces(a) && s == a + TrimLeft(s)
  {
    hide AllSpaces;
    SpacesNone();
    if s != [] && IsSpace(s[0]) {
      var b := TrimLeftIs(s[1..]);
      a := [s[0]] + b;
      SpacesCons(s[0], b);
      ConsConcat(s, b, TrimLeft(s[1..]));
    } else {
      a := [];
    }
  }

  lemma {:induction false} TrimRightIs(s: string) returns (b: string)
    ensures AllSpaces(b) && s == TrimRight(s) + b
  {
    if s != [] && IsSpace(s[|s| - 1]) {
      var a := TrimRightIs(s[..|s| - 1]);
      b := a + [s[|s| - 1]];
      assert s == s[..|s| - 1] + [s[|s| - 1]] == TrimRight(s) + b;
    } else {
      b := [];
      assert s + [] == s;
    }
  }

  /** Stripping takes away the spaces at both ends and nothing else. */
  lemma StripExact(s: string) returns (a: string, b: string)
    ensures AllSpaces(a) && AllSpaces(b) && s == a + Strip(s) + b && (Strip(s) == [] || Tight(Strip(s)))
  {
    a := TrimLeftIs(s);
    b := TrimRightIs(TrimLeft(s));
    assert s == a + (Strip(s) + b) == a + Strip(s) + b;
    if Strip(s) != [] { assert Strip(s)[0] == TrimLeft(s)[0]; }
  }

  // ---- Splitting at top-level commas ----

  datatype Scan = Scan(tokens: seq<string>, buf: string, paren: nat, brace: nat)

  function Flush(sc: Scan): seq<string> {
    if Strip(sc.buf) != [] then sc.tokens + [Strip(sc.buf)] else sc.tokens
  }

  function Step(sc: Scan, ch: char): Scan {
    var paren := if ch == '(' && sc.brace == 0 then sc.paren + 1
                 else if ch == ')' && sc.brace == 0 && sc.paren > 0 then sc.paren - 1 else sc.paren;
    var brace := if ch == '{' && sc.paren == 0 then sc.brace + 1
                 else if ch == '}' && sc.paren == 0 && sc.brace > 0 then sc.brace - 1 else sc.brace;
    if ch == ',' && paren == 0 && brace == 0 then Scan(Flush(sc), [], paren, brace)
    else Scan(sc.tokens, sc.buf + [ch], paren, brace)
  }

  function Steps(sc: Scan, s: string): Scan {
    if s == [] then sc else Step(Steps(sc, s[..|s| - 1]), s[|s| - 1])
  }

  const Unscanned := Scan([], [], 0, 0)

  lemma {:induction false} StepsConcat(sc: Scan, a: string, b: string)
    ensures Steps(sc, a + b) == Steps(Steps(sc, a), b)
  {
    if b == [] { assert a + b == a; }
    else {
      assert (a + b)[..|a + b| - 1] == a + b[..|b| - 1];
      StepsConcat(sc, a, b[..|b| - 1]);
    }
  }

  method SplitTopLevel(pattern: string) returns (tokens: seq<string>)
    ensures tokens == Flush(Steps(Unscanned, pattern))
  {
    tokens := [];
    var buf: string, paren, brace := [], 0, 0;
    for i := 0 to |pattern|
      invariant paren >= 0 && brace >= 0 && Scan(tokens, buf, paren, brace) == Steps(Unscanned, pattern[..i])
    {
      assert pattern[..i + 1][..i] == pattern[..i];
      var ch := pattern[i];
      if ch == '(' && brace == 0 {
        paren := paren + 1;
      } else if ch == ')' && brace == 0 {
        paren := if paren > 0 then paren - 1 else 0;
      } else if ch == '{' && paren == 0 {
        brace := brace + 1;
      } else if ch == '}' && paren == 0 {
        brace := if brace > 0 then brace - 1 else 0;
      }
      if ch == ',' && paren == 0 && brace == 0 {
        var tok := Strip(buf);
        if tok != [] { tokens := tokens + [tok]; }
        buf := [];
      } else {
        buf := buf + [ch];
      }
    }
    assert pattern[..|pattern|] == pattern;
    var tok := Strip(buf);
    if tok != [] { tokens := tokens + [tok]; }
  }

  // ---- Repeat bounds in braces ----

  /** What the second group of the bounds caught: nothing without a comma, digits or none after it. */
  datatype Bounds = Bounds(min: string, upper: Option<string>)

  function Digits(s: string): (d: string)
    ensures d <= s && AllDigits(d) && (|d| < |s| ==> !IsDigit(s[|d|]))
  {
    if s != [] && IsDigit(s[0]) then
      assert s == [s[0]] + s[1..];
      [s[0]] + Digits(s[1..])
    else []
  }

  lemma {:induction false} DigitsOf(d: string, rest: string)
    requires AllDigits(d) && (rest == [] || !IsDigit(rest[0]))
    ensures Digits(d + rest) == d
  {
    if d == [] { assert d + rest == rest; }
    else {
      assert (d + rest)[0] == d[0] && (d + rest)[1..] == d[1..] + rest;
      DigitsOf(d[1..], rest);
      assert d == [d[0]] + d[1..];
    }
  }

  /** The text inside the braces. */
  function ReadBounds(inner: string): Option<Bounds> {
    var a := TrimLeft(inner);
    var d := Digits(a);
    var r := TrimLeft(a[|d|..]);
    if d == [] then None
    else if r == [] then Some(Bounds(d, None))
    else if r[0] != ',' then None
    else
      var b := TrimLeft(r[1..]);
      var e := Digits(b);
      if TrimLeft(b[|e|..]) == [] then Some(Bounds(d, Some(e))) else None
  }

  /** The text is spaces, digits and spaces, then maybe a comma, spaces, digits or none, and spaces. */
  ghost predicate BoundsText(inner: string, b: Bounds) {
    && b.min != [] && AllDigits(b.min) && (b.upper.Some? ==> AllDigits(b.upper.value))
    && exists s1, s2, s3, s4 ::
         AllSpaces(s1) && AllSpaces(s2) && AllSpaces(s3) && AllSpaces(s4) && inner == Spelled(b, s1, s2, s3, s4)
  }

  function Spelled(b: Bounds, s1: string, s2: string, s3: string, s4: string): string {
    s1 + (b.min + (s2 + if b.upper.None? then [] else [','] + (s3 + (b.upper.value + s4))))
  }

  lemma SpacesOnly(s: string)
    requires AllSpaces(s)
    ensures TrimLeft(s) == []
  {
    TrimSpaces(s, []);
    assert s + [] == s;
  }

  lemma NoDigitAhead(s: string, rest: string)
    requires AllSpaces(s) && (rest == [] || !IsDigit(rest[0]))
    ensures s + rest == [] || !IsDigit((s + rest)[0])
  {
    if s != [] { assert (s + rest)[0] == s[0]; } else { assert s + rest == rest; }
  }

  lemma ReadSpaced(s1: string, d: string, s2: string, rest: string)
    requires AllSpaces(s1) && AllSpaces(s2) && AllDigits(d) && (rest == [] || rest[0] == ',')
    ensures var a := TrimLeft(s1 + (d + (s2 + rest)));
      d != [] ==> Digits(a) == d && TrimLeft(a[|d|..]) == rest
  {
    if d != [] {
      assert (d + (s2 + rest))[0] == d[0];
      TrimSpaces(s1, d + (s2 + rest));
      NoDigitAhead(s2, rest);
      DigitsOf(d, s2 + rest);
      assert (d + (s2 + rest))[|d|..] == s2 + rest;
      TrimSpaces(s2, rest);
    }
  }

  lemma ReadLast(s3: string, e: string, s4: string)
    requires AllSpaces(s3) && AllSpaces(s4) && AllDigits(e)
    ensures var b := TrimLeft(s3 + (e + s4));
      Digits(b) == e && TrimLeft(b[|e|..]) == []
  {
    if e != [] {
      assert (e + s4)[0] == e[0];
      TrimSpaces(s3, e + s4);
      NoDigitAhead(s4, []);
      assert s4 + [] == s4;
      DigitsOf(e, s4);
      assert (e + s4)[|e|..] == s4;
      SpacesOnly(s4);
    } else {
      assert s3 + (e + s4) == s3 + s4;
      SpacesOnly(s3 + s4);
    }
  }

  /** Reading finds the bounds the text shows, whenever it shows any. */
  lemma ReadBoundsExact(inner: string, b: Bounds)
    ensures ReadBounds(inner) == Some(b) <==> BoundsText(inner, b)
  {
    if BoundsText(inner, b) {
      var s1, s2, s3, s4 :|
        AllSpaces(s1) && AllSpaces(s2) && AllSpaces(s3) && AllSpaces(s4) && inner == Spelled(b, s1, s2, s3, s4);
      TextIsRead(b, s1, s2, s3, s4);
    }
    if ReadBounds(inner) == Some(b) {
      ReadIsText(inner, b);
    }
  }

  lemma TextIsRead(b: Bounds, s1: string, s2: string, s3: string, s4: string)
    requires AllSpaces(s1) && AllSpaces(s2) && AllSpaces(s3) && AllSpaces(s4)
    requires b.min != [] && AllDigits(b.min) && (b.upper.Some? ==> AllDigits(b.upper.value))
    ensures ReadBounds(Spelled(b, s1, s2, s3, s4)) == Some(b)
  {
    hide TrimLeft, Digits, AllSpaces, AllDigits;
    if b.upper.None? {
      ReadSpaced(s1, b.min, s2, []);
    } else {
      var tail := s3 + (b.upper.value + s4);
      ReadSpaced(s1, b.min, s2, [','] + tail);
      assert ([','] + tail)[1..] == tail;
      ReadLast(s3, b.upper.value, s4);
    }
  }

  /** The first number, and what is left after the spaces behind it. */
  lemma ReadHead(inner: string, b: Bounds) returns (s1: string, s2: string, r: string)
    requires ReadBounds(inner) == Some(b)
    ensures AllSpaces(s1) && AllSpaces(s2) && b.min != [] && AllDigits(b.min) && inner == s1 + (b.min + (s2 + r))
    ensures b.upper.None? ==> r == []
    ensures b.upper.Some? ==> r != [] && r[0] == ',' && ReadsLast(TrimLeft(r[1..]), b.upper.value)
  {
    s1 := TrimLeftIs(inner);
    var a := TrimLeft(inner);
    s2 := TrimLeftIs(a[|b.min|..]);
    r := TrimLeft(a[|b.min|..]);
    Respelled(inner, s1, b.min, a, s2, r);
  }

  predicate ReadsLast(c: string, e: string) {
    Digits(c) == e && TrimLeft(c[|e|..]) == []
  }

  lemma ReadTail(r: string, e: string) returns (s3: string, s4: string)
    requires r != [] && r[0] == ',' && ReadsLast(TrimLeft(r[1..]), e)
    ensures AllSpaces(s3) && AllSpaces(s4) && AllDigits(e) && r == [','] + (s3 + (e + s4))
  {
    s3 := TrimLeftIs(r[1..]);
    var c := TrimLeft(r[1..]);
    s4 := TrimLeftIs(c[|e|..]);
    RespelledUpper(r, s3, e, c, s4);
  }

  lemma ReadIsText(inner: string, b: Bounds)
    requires ReadBounds(inner) == Some(b)
    ensures BoundsText(inner, b)
  {
    hide TrimLeft, Digits, BoundsText, ReadsLast, ReadBounds;
    var s1, s2, r := ReadHead(inner, b);
    if b.upper.None? {
      SpacesNone();
      IsText(inner, b, s1, s2, [], []);
    } else {
      var s3, s4 := ReadTail(r, b.upper.value);
      IsText(inner, b, s1, s2, s3, s4);
    }
  }

  lemma IsText(inner: string, b: Bounds, s1: string, s2: string, s3: string, s4: string)
    requires AllSpaces(s1) && AllSpaces(s2) && AllSpaces(s3) && AllSpaces(s4) && inner == Spelled(b, s1, s2, s3, s4)
    requires b.min != [] && AllDigits(b.min) && (b.upper.Some? ==> AllDigits(b.upper.value))
    ensures BoundsText(inner, b)
  {}

  lemma Respelled(inner: string, s1: string, d: string, a: string, s2: string, r: string)
    requires inner == s1 + a && d <= a && a[|d|..] == s2 + r
    ensures inner == s1 + (d + (s2 + r))
  {
    assert a == d + a[|d|..];
  }

  lemma RespelledUpper(r: string, s3: string, e: string, c: string, s4: string)
    requires r != [] && r[0] == ',' && r[1..] == s3 + c && e <= c && c[|e|..] == s4 + []
    ensures r == [','] + (s3 + (e + s4))
  {
    assert c == e + c[|e|..] && s4 + [] == s4 && r == [r[0]] + r[1..];
  }

  /** The braces the step ends in, if they hold bounds: where they open, and the bounds. */
  function FindBounds(body: string): Option<(nat, Bounds)> {
    var i := Last('{', body);
    if i < 0 || body[|body| - 1] != '}' || i + 1 >= |body| then None
    else
      var b := ReadBounds(body[i + 1..|body| - 1]);
      if b.None? then None else Some((i, b.value))
  }

  /** Braces holding bounds open at i and close at the end. */
  ghost predicate BracedAt(body: string, i: nat, b: Bounds) {
    && i + 1 < |body| && body[i] == '{' && body[|body| - 1] == '}'
    && BoundsText(body[i + 1..|body| - 1], b)
  }

  lemma {:induction false} LastRange(c: char, s: string)
    ensures -1 <= Last(c, s) < |s|
    ensures Last(c, s) >= 0 ==> s[Last(c, s)] == c
  {
    if s != [] && s[|s| - 1] != c { LastRange(c, s[..|s| - 1]); }
  }

  lemma BoundsCharacters(inner: string, b: Bounds)
    requires BoundsText(inner, b)
    ensures '{' !in inner
  {
    var s1, s2, s3, s4 :|
      AllSpaces(s1) && AllSpaces(s2) && AllSpaces(s3) && AllSpaces(s4) && inner == Spelled(b, s1, s2, s3, s4);
    assert '{' !in s1 && '{' !in s2 && '{' !in s3 && '{' !in s4 && '{' !in b.min;
    if b.upper.Some? {
      assert '{' !in b.upper.value;
      NotInBoth('{', b.upper.value, s4);
      NotInBoth('{', s3, b.upper.value + s4);
      NotInBoth('{', [','], s3 + (b.upper.value + s4));
    }
    var tail := if b.upper.None? then [] else [','] + (s3 + (b.upper.value + s4));
    NotInBoth('{', s2, tail);
    NotInBoth('{', b.min, s2 + tail);
    NotInBoth('{', s1, b.min + (s2 + tail));
  }

  lemma NotInBoth(c: char, a: string, b: string)
    requires c !in a && c !in b
    ensures c !in a + b
  {}

  /** Searching for the leftmost place where bounds match finds them: there is only one such place. */
  lemma FindBoundsExact(body: string, i: nat, b: Bounds)
    ensures FindBounds(body) == Some((i, b)) <==> BracedAt(body, i, b)
  {
    hide ReadBounds, BoundsText, Last;
    LastRange('{', body);
    if i + 1 < |body| {
      ReadBoundsExact(body[i + 1..|body| - 1], b);
    }
    if BracedAt(body, i, b) {
      BoundsCharacters(body[i + 1..|body| - 1], b);
      var rest := body[i + 1..];
      assert rest == body[i + 1..|body| - 1] + ['}'];
      assert body == body[..i] + ['{'] + rest;
      LastIs('{', body[..i], rest);
    }
  }

  // ---- Parsing steps ----

  datatype ParseError = InvalidStep(token: string) | InvalidBounds(token: string) | EmptyPattern
  datatype Result<T> = Ok(value: T) | Bad(error: ParseError)

  datatype Shape = Shape(body: string, min: nat, max: Option<nat>)

  function ReadShape(raw: string): Shape {
    var found := FindBounds(raw);
    if found.Some? then
      var (start, b) := found.value;
      FindBoundsExact(raw, start, b);
      Shape(Strip(raw[..start]), ParseNat(b.min),
            if b.upper.None? then Some(ParseNat(b.min)) else if b.upper.value == [] then None else Some(ParseNat(b.upper.value)))
    else if raw != [] && raw[|raw| - 1] == '+' then Shape(Strip(raw[..|raw| - 1]), 1, None)
    else if raw != [] && raw[|raw| - 1] == '?' then Shape(Strip(raw[..|raw| - 1]), 0, Some(1))
    else Shape(raw, 1, Some(1))
  }

  /** The alternatives, separated by |, blank ones dropped. */
  function Alternatives(s: string): seq<string> {
    var i := First('|', s);
    var head := Strip(s[..i]);
    (if head != [] then [head] else []) + if i < |s| then Alternatives(s[i + 1..]) else []
  }

  function ReadAliases(body: string): seq<string> {
    if |body| >= 2 && body[0] == '(' && body[|body| - 1] == ')' then Alternatives(body[1..|body| - 1]) else [body]
  }

  function ParseStep(token: string): Result<PatternStep> {
    var shape := ReadShape(Strip(token));
    var aliases := ReadAliases(shape.body);
    if aliases == [] || [] in aliases then Bad(InvalidStep(token))
    else if shape.max.Some? && shape.max.value < shape.min then Bad(InvalidBounds(token))
    else Ok(PatternStep(aliases, shape.min, shape.max))
  }

  function ParseSteps(tokens: seq<string>): Result<seq<PatternStep>> {
    if tokens == [] then Ok([])
    else
      var first := ParseStep(tokens[0]);
      if first.Bad? then Bad(first.error)
      else
        var rest := ParseSteps(tokens[1..]);
        if rest.Bad? then rest else Ok([first.value] + rest.value)
  }

  function ParsePattern(pattern: string): Result<seq<PatternStep>> {
    var steps := ParseSteps(Flush(Steps(Unscanned, pattern)));
    if steps == Ok([]) then Bad(EmptyPattern) else steps
  }

  /** Parsing succeeds when every token does, and else fails as the first bad token does. */
  lemma {:induction false} ParseStepsExact(tokens: seq<string>)
    ensures match ParseSteps(tokens)
      case Ok(steps) => |steps| == |tokens| && forall i :: 0 <= i < |tokens| ==> ParseStep(tokens[i]) == Ok(steps[i])
      case Bad(error) => exists i :: 0 <= i < |tokens| && ParseStep(tokens[i]) == Bad(error) && forall j :: 0 <= j < i ==> ParseStep(tokens[j]).Ok?
  {
    hide ParseStep;
    if tokens != [] {
      var t := tokens[1..];
      ParseStepsExact(t);
      assert forall i :: 0 <= i < |t| ==> t[i] == tokens[i + 1];
      if ParseStep(tokens[0]).Ok? && ParseSteps(t).Bad? {
        var i :| 0 <= i < |t| && ParseStep(t[i]) == Bad(ParseSteps(t).error) && forall j :: 0 <= j < i ==> ParseStep(t[j]).Ok?;
        forall j | 0 <= j < i + 1 ensures ParseStep(tokens[j]).Ok? { if j > 0 { assert t[j - 1] == tokens[j]; } }
        assert ParseStep(tokens[i + 1]) == Bad(ParseSteps(tokens).error);
      }
    }
  }

  // ---- Printing steps ----

  datatype ChainStep = ChainStep(eventType: string, min: nat, max: Option<nat>)

  function Suffix(s: ChainStep): string {
    if s.min == 0 && s.max == Some(1) then "?"
    else if s.min == 1 && s.max == None then "+"
    else if s.max.Some? && !(s.min == 1 && s.max.value == 1) then "{" + PrintNat(s.min) + "," + PrintNat(s.max.value) + "}"
    else if s.max.None? && s.min != 1 then "{" + PrintNat(s.min) + ",}"
    else ""
  }

  function ToPatternToken(s: ChainStep): string { s.eventType + Suffix(s) }

  /** ",".join of the tokens. */
  function Pattern(steps: seq<ChainStep>): string {
    if steps == [] then ""
    else if |steps| == 1 then ToPatternToken(steps[0])
    else Pattern(steps[..|steps| - 1]) + "," + ToPatternToken(steps[|steps| - 1])
  }

  function Compiled(s: ChainStep): PatternStep { PatternStep([s.eventType], s.min, s.max) }

  function CompiledAll(steps: seq<ChainStep>): seq<PatternStep> {
    seq(|steps|, i requires 0 <= i < |steps| => Compiled(steps[i]))
  }

  predicate ValidBounds(s: ChainStep) { s.max.Some? ==> s.min <= s.max.value }

  predicate IsMeta(c: char) { c == ',' || c == '(' || c == ')' || c == '{' || c == '}' }

  /** A type name without pattern metacharacters and edge whitespace. */
  predicate CleanName(t: string) {
    Tight(t) && forall i :: 0 <= i < |t| ==> !IsMeta(t[i])
  }

  /** A plain step whose name ends in + or ? prints like a repeated or optional one. */
  predicate Ambiguous(s: ChainStep) {
    s.min == 1 && s.max == Some(1) && s.eventType != [] && (s.eventType[|s.eventType| - 1] == '+' || s.eventType[|s.eventType| - 1] == '?')
  }

  // ---- Printing and parsing one step ----

  lemma TightStrips(s: string)
    requires Tight(s)
    ensures Strip(s) == s
  {}

  lemma TokenTight(s: ChainStep)
    requires CleanName(s.eventType)
    ensures Tight(ToPatternToken(s))
  {
    var t := ToPatternToken(s);
    assert t[0] == s.eventType[0];
    if Suffix(s) != [] { assert t[|t| - 1] == Suffix(s)[|Suffix(s)| - 1]; } else { assert t == s.eventType; }
  }

  lemma NoBraceNoBounds(s: string)
    requires '{' !in s
    ensures FindBounds(s) == None
  {
    LastRange('{', s);
  }

  lemma ReadsPrintedBounds(t: string, min: nat, upper: string)
    requires AllDigits(upper)
    ensures FindBounds(t + ("{" + PrintNat(min) + "," + upper + "}")) == Some((|t|, Bounds(PrintNat(min), Some(upper))))
  {
    var b := Bounds(PrintNat(min), Some(upper));
    var s := t + ("{" + PrintNat(min) + "," + upper + "}");
    var inner := PrintNat(min) + "," + upper;
    assert s[|t|] == '{' && s[|s| - 1] == '}' && s[|t| + 1..|s| - 1] == inner;
    SpacesNone();
    assert inner == Spelled(b, [], [], [], []);
    assert BoundsText(inner, b);
    FindBoundsExact(s, |t|, b);
  }

  lemma ShapePrinted(s: ChainStep)
    requires CleanName(s.eventType)
    ensures Ambiguous(s) || ReadShape(ToPatternToken(s)) == Shape(s.eventType, s.min, s.max)
  {
    var t := s.eventType;
    var token := ToPatternToken(s);
    TightStrips(t);
    assert token[..|t|] == t;
    if s.max.Some? && !(s.min == 1 && s.max.value == 1) && !(s.min == 0 && s.max.value == 1) {
      PrintParse(s.min);
      PrintParse(s.max.value);
      ReadsPrintedBounds(t, s.min, PrintNat(s.max.value));
    } else if s.max.None? && s.min != 1 {
      PrintParse(s.min);
      assert "{" + PrintNat(s.min) + ",}" == "{" + PrintNat(s.min) + "," + "" + "}";
      ReadsPrintedBounds(t, s.min, "");
    } else {
      assert '{' !in token;
      NoBraceNoBounds(token);
      if Suffix(s) == [] { assert token == t; }
    }
  }

  lemma ShapeAmbiguous(s: ChainStep)
    requires CleanName(s.eventType) && Ambiguous(s)
    ensures var shape := ReadShape(ToPatternToken(s));
      !(shape.min == s.min && shape.max == s.max)
  {
    assert ToPatternToken(s) == s.eventType;
    NoBraceNoBounds(s.eventType);
  }

  /** A printed step is parsed back exactly when it is not ambiguous. */
  lemma StepRoundTrip(s: ChainStep)
    requires CleanName(s.eventType) && ValidBounds(s)
    ensures ParseStep(ToPatternToken(s)) == Ok(Compiled(s)) <==> !Ambiguous(s)
  {
    TokenTight(s);
    TightStrips(ToPatternToken(s));
    if Ambiguous(s) {
      ShapeAmbiguous(s);
    } else {
      ShapePrinted(s);
      assert s.eventType[0] != '(';
    }
  }

  // ---- Splitting the joined text ----

  lemma {:induction false} ScanPlain(sc: Scan, s: string)
    requires forall i :: 0 <= i < |s| ==> !IsMeta(s[i])
    ensures Steps(sc, s) == Scan(sc.tokens, sc.buf + s, sc.paren, sc.brace)
  {
    if s == [] { assert sc.buf + s == sc.buf; }
    else {
      ScanPlain(sc, s[..|s| - 1]);
      assert sc.buf + s[..|s| - 1] + [s[|s| - 1]] == sc.buf + s;
    }
  }

  lemma ScanOne(sc: Scan, c: char)
    ensures Steps(sc, [c]) == Step(sc, c)
  {
    assert [c][..0] == [];
  }

  lemma DigitsPlain(s: string)
    requires AllDigits(s)
    ensures forall i :: 0 <= i < |s| ==> !IsMeta(s[i])
  {}

  lemma ScanBraces(tokens: seq<string>, buf: string, a: string, b: string)
    requires AllDigits(a) && AllDigits(b)
    ensures Steps(Scan(tokens, buf, 0, 0), "{" + a + "," + b + "}") == Scan(tokens, buf + ("{" + a + "," + b + "}"), 0, 0)
  {
    hide Steps, AllDigits;
    var sc := Scan(tokens, buf, 0, 0);
    assert forall i :: 0 <= i < |a| ==> !IsMeta(a[i]) by { DigitsPlain(a); }
    assert forall i :: 0 <= i < |b| ==> !IsMeta(b[i]) by { DigitsPlain(b); }
    ScanOne(sc, '{');
    StepsConcat(sc, "{", a);
    ScanPlain(Scan(tokens, buf + "{", 0, 1), a);
    StepsConcat(sc, "{" + a, ",");
    ScanOne(Scan(tokens, buf + "{" + a, 0, 1), ',');
    StepsConcat(sc, "{" + a + ",", b);
    ScanPlain(Scan(tokens, buf + "{" + a + ",", 0, 1), b);
    StepsConcat(sc, "{" + a + "," + b, "}");
    ScanOne(Scan(tokens, buf + "{" + a + "," + b, 0, 1), '}');
    assert buf + "{" + a + "," + b + "}" == buf + ("{" + a + "," + b + "}");
  }

  /** A printed step passes through the scan as a whole. */
  lemma ScanToken(tokens: seq<string>, s: ChainStep)
    requires CleanName(s.eventType)
    ensures Steps(Scan(tokens, [], 0, 0), ToPatternToken(s)) == Scan(tokens, ToPatternToken(s), 0, 0)
  {
    var sc, t := Scan(tokens, [], 0, 0), s.eventType;
    StepsConcat(sc, t, Suffix(s));
    ScanPlain(sc, t);
    assert [] + t == t;
    ScanSuffix(tokens, t, s);
  }

  lemma ScanSuffix(tokens: seq<string>, t: string, s: ChainStep)
    ensures Steps(Scan(tokens, t, 0, 0), Suffix(s)) == Scan(tokens, t + Suffix(s), 0, 0)
  {
    if s.max.Some? && !(s.min == 1 && s.max.value == 1) && !(s.min == 0 && s.max.value == 1) {
      ScanBraces(tokens, t, PrintNat(s.min), PrintNat(s.max.value));
    } else if s.max.None? && s.min != 1 {
      assert "{" + PrintNat(s.min) + ",}" == "{" + PrintNat(s.min) + "," + "" + "}";
      ScanBraces(tokens, t, PrintNat(s.min), "");
    } else {
      ScanPlain(Scan(tokens, t, 0, 0), Suffix(s));
    }
  }

  function Tokens(steps: seq<ChainStep>): seq<string> {
    seq(|steps|, i requires 0 <= i < |steps| => ToPatternToken(steps[i]))
  }

  lemma TokensSnoc(steps: seq<ChainStep>)
    requires steps != []
    ensures var n := |steps| - 1;
      Tokens(steps)[..n] == Tokens(steps[..n]) && Tokens(steps) == Tokens(steps[..n]) + [ToPatternToken(steps[n])]
  {}

  lemma FlushToken(tokens: seq<string>, s: ChainStep)
    requires CleanName(s.eventType)
    ensures Flush(Scan(tokens, ToPatternToken(s), 0, 0)) == tokens + [ToPatternToken(s)]
  {
    TokenTight(s);
    TightStrips(ToPatternToken(s));
  }

  /** Splitting the joined tokens gives the tokens back. */
  lemma {:induction false} SplitJoined(steps: seq<ChainStep>)
    requires steps != [] && forall i :: 0 <= i < |steps| ==> CleanName(steps[i].eventType)
    ensures Steps(Unscanned, Pattern(steps)) == Scan(Tokens(steps[..|steps| - 1]), ToPatternToken(steps[|steps| - 1]), 0, 0)
    ensures Flush(Steps(Unscanned, Pattern(steps))) == Tokens(steps)
  {
    hide Steps, Flush, ToPatternToken, Step, Tokens, CleanName;
    var n := |steps| - 1;
    var init, token := steps[..n], ToPatternToken(steps[n]);
    FlushToken(Tokens(init), steps[n]);
    TokensSnoc(steps);
    if n == 0 {
      ScanToken([], steps[0]);
      NoTokens();
    } else {
      SplitJoined(init);
      StepsConcat(Unscanned, Pattern(init) + ",", token);
      StepsConcat(Unscanned, Pattern(init), ",");
      AtComma(Steps(Unscanned, Pattern(init)), Tokens(init));
      ScanToken(Tokens(init), steps[n]);
    }
  }

  lemma NoTokens()
    ensures Tokens([]) == []
  {}

  lemma AtComma(sc: Scan, tokens: seq<string>)
    requires sc.paren == 0 && sc.brace == 0 && Flush(sc) == tokens
    ensures Steps(sc, ",") == Scan(tokens, [], 0, 0)
  {
    ScanOne(sc, ',');
  }

  predicate NoneAmbiguous(steps: seq<ChainStep>) {
    forall i :: 0 <= i < |steps| ==> !Ambiguous(steps[i])
  }

  lemma NoneAmbiguousCons(s: ChainStep, rest: seq<ChainStep>)
    ensures NoneAmbiguous([s] + rest) <==> !Ambiguous(s) && NoneAmbiguous(rest)
  {
    var steps := [s] + rest;
    assert steps[0] == s && forall i :: 0 <= i < |rest| ==> steps[i + 1] == rest[i];
    if NoneAmbiguous(steps) {
      forall i | 0 <= i < |rest| ensures !Ambiguous(rest[i]) { assert !Ambiguous(steps[i + 1]); }
    }
  }

  lemma SameCons<T>(x: T, xs: seq<T>, y: T, ys: seq<T>)
    ensures [x] + xs == [y] + ys <==> x == y && xs == ys
  {
    if [x] + xs == [y] + ys {
      assert ([x] + xs)[0] == ([y] + ys)[0] && ([x] + xs)[1..] == ([y] + ys)[1..];
      assert ([x] + xs)[1..] == xs && ([y] + ys)[1..] == ys;
    }
  }

  lemma ParseStepsCons(t: string, ts: seq<string>, v: PatternStep, vs: seq<PatternStep>)
    ensures ParseSteps([t] + ts) == Ok([v] + vs) <==> ParseStep(t) == Ok(v) && ParseSteps(ts) == Ok(vs)
  {
    hide ParseStep;
    assert ([t] + ts)[1..] == ts;
    var first, rest := ParseStep(t), ParseSteps(ts);
    if first.Ok? && rest.Ok? { SameCons(first.value, rest.value, v, vs); }
  }

  lemma ParseTokensCons(s: ChainStep, rest: seq<ChainStep>)
    ensures ParseSteps(Tokens([s] + rest)) == Ok(CompiledAll([s] + rest)) <==>
      ParseStep(ToPatternToken(s)) == Ok(Compiled(s)) && ParseSteps(Tokens(rest)) == Ok(CompiledAll(rest))
  {
    hide ParseStep, ToPatternToken, Compiled;
    assert Tokens([s] + rest) == [ToPatternToken(s)] + Tokens(rest);
    assert CompiledAll([s] + rest) == [Compiled(s)] + CompiledAll(rest);
    ParseStepsCons(ToPatternToken(s), Tokens(rest), Compiled(s), CompiledAll(rest));
  }

  lemma {:induction false} ParseTokens(steps: seq<ChainStep>)
    requires forall i :: 0 <= i < |steps| ==> CleanName(steps[i].eventType) && ValidBounds(steps[i])
    ensures ParseSteps(Tokens(steps)) == Ok(CompiledAll(steps)) <==> NoneAmbiguous(steps)
  {
    if steps == [] {
      assert Tokens(steps) == [] && CompiledAll(steps) == [];
    } else {
      var s, rest := steps[0], steps[1..];
      assert steps == [s] + rest;
      ParseTokens(rest);
      StepRoundTrip(s);
      NoneAmbiguousCons(s, rest);
      ParseTokensCons(s, rest);
    }
  }

  /** Parsing the printed pattern gives the steps back, in order, exactly when none of them is
      ambiguous. */
  lemma PatternRoundTrip(steps: seq<ChainStep>)
    requires steps != [] && forall i :: 0 <= i < |steps| ==> CleanName(steps[i].eventType) && ValidBounds(steps[i])
    ensures ParsePattern(Pattern(steps)) == Ok(CompiledAll(steps)) <==> NoneAmbiguous(steps)
  {
    SplitJoined(steps);
    ParseTokens(steps);
    assert |CompiledAll(steps)| > 0;
  }

  // ---- Alternatives and lone bounds ----

  /** "|".join of the names. */
  function Bars(names: seq<string>): string {
    if names == [] then [] else if |names| == 1 then names[0] else names[0] + ['|'] + Bars(names[1..])
  }

  /** The texts without the spaces around them, blank ones dropped. */
  function Stripped(texts: seq<string>): seq<string> {
    if texts == [] then [] else (if Strip(texts[0]) != [] then [Strip(texts[0])] else []) + Stripped(texts[1..])
  }

  lemma {:induction false} NoBar(s: string)
    requires '|' !in s
    ensures First('|', s) == |s|
  {
    if s != [] { NoBar(s[1..]); }
  }

  /** Alternatives are separated by bars. */
  lemma {:induction false} BarsRead(texts: seq<string>)
    requires texts != [] && forall i :: 0 <= i < |texts| ==> '|' !in texts[i]
    ensures Alternatives(Bars(texts)) == Stripped(texts)
  {
    hide Strip;
    if |texts| == 1 {
      NoBar(texts[0]);
      assert texts[0][..|texts[0]|] == texts[0] && Stripped(texts[1..]) == [];
    } else {
      var rest := Bars(texts[1..]);
      FirstIs('|', texts[0], rest);
      assert Bars(texts)[..|texts[0]|] == texts[0] && Bars(texts)[|texts[0]| + 1..] == rest;
      BarsRead(texts[1..]);
    }
  }

  lemma {:induction false} TightKept(names: seq<string>)
    requires forall i :: 0 <= i < |names| ==> Tight(names[i])
    ensures Stripped(names) == names
  {
    if names != [] {
      TightStrips(names[0]);
      TightKept(names[1..]);
      assert names == [names[0]] + names[1..];
    }
  }

  predicate CleanNames(names: seq<string>) {
    names != [] && forall i :: 0 <= i < |names| ==> Tight(names[i]) && '|' !in names[i]
  }

  function Round(names: seq<string>): string { "(" + Bars(names) + ")" }

  lemma RoundAliases(names: seq<string>)
    requires CleanNames(names)
    ensures Tight(Round(names)) && ReadAliases(Round(names)) == names && [] !in names
  {
    hide Alternatives, Bars, Stripped, Strip;
    var s := Round(names);
    assert s[0] == '(' && s[|s| - 1] == ')' && s[1..|s| - 1] == Bars(names);
    BarsRead(names);
    TightKept(names);
  }

  lemma LoneBound(t: string, n: nat)
    ensures FindBounds(t + ("{" + PrintNat(n) + "}")) == Some((|t|, Bounds(PrintNat(n), None)))
  {
    hide FindBounds;
    var b := Bounds(PrintNat(n), None);
    LoneText(n);
    BracesRead(t, PrintNat(n), b);
  }

  lemma LoneText(n: nat)
    ensures BoundsText(PrintNat(n), Bounds(PrintNat(n), None))
  {
    PrintParse(n);
    SpacesNone();
    assert PrintNat(n) == Spelled(Bounds(PrintNat(n), None), [], [], [], []);
  }

  lemma BracesRead(t: string, inner: string, b: Bounds)
    requires BoundsText(inner, b)
    ensures FindBounds(t + ("{" + inner + "}")) == Some((|t|, b))
  {
    hide FindBounds, BoundsText;
    var s := t + ("{" + inner + "}");
    assert s[|t|] == '{' && s[|s| - 1] == '}' && s[|t| + 1..|s| - 1] == inner;
    FindBoundsExact(s, |t|, b);
  }

  /** What a suffix makes of the text before it. */
  lemma ShapeOf(t: string, n: nat)
    requires Tight(t)
    ensures t[|t| - 1] == ')' ==> ReadShape(t) == Shape(t, 1, Some(1))
    ensures ReadShape(t + "+") == Shape(t, 1, None) && ReadShape(t + "?") == Shape(t, 0, Some(1))
    ensures ReadShape(t + ("{" + PrintNat(n) + "}")) == Shape(t, n, Some(n))
  {
    TightStrips(t);
    assert (t + "+")[..|t|] == t && (t + "?")[..|t|] == t;
    LastRange('{', t);
    LastRange('{', t + "+");
    LastRange('{', t + "?");
    LoneBound(t, n);
    PrintParse(n);
    assert (t + ("{" + PrintNat(n) + "}"))[..|t|] == t;
  }

  /** Names in parentheses, separated by bars, are a step's alternatives, whatever suffix follows; a
      lone number in braces asks for that many events. */
  lemma AlternationParsed(names: seq<string>, n: nat)
    requires CleanNames(names)
    ensures ParseStep(Round(names)) == Ok(PatternStep(names, 1, Some(1)))
    ensures ParseStep(Round(names) + "+") == Ok(PatternStep(names, 1, None))
    ensures ParseStep(Round(names) + "?") == Ok(PatternStep(names, 0, Some(1)))
    ensures ParseStep(Round(names) + ("{" + PrintNat(n) + "}")) == Ok(PatternStep(names, n, Some(n)))
  {
    hide ReadShape, ReadAliases, Strip;
    var t, b := Round(names), "{" + PrintNat(n) + "}";
    RoundAliases(names);
    ShapeOf(t, n);
    SuffixStrips(t, []);
    SuffixStrips(t, "+");
    SuffixStrips(t, "?");
    SuffixStrips(t, b);
    assert t + [] == t;
  }

  lemma SuffixStrips(t: string, suffix: string)
    requires Tight(t) && (suffix != [] ==> !IsSpace(suffix[|suffix| - 1]))
    ensures Strip(t + suffix) == t + suffix
  {
    var s := t + suffix;
    assert s[0] == t[0] && (if suffix == [] then s == t else s[|s| - 1] == suffix[|suffix| - 1]);
    TightStrips(s);
  }

  /** Bounds the wrong way round are refused. */
  lemma WrongBoundsRefused(t: string, m: nat, n: nat)
    requires Tight(t) && n < m && ReadAliases(t) != [] && [] !in ReadAliases(t)
    ensures var token := t + ("{" + PrintNat(m) + "," + PrintNat(n) + "}"); ParseStep(token) == Bad(InvalidBounds(token))
  {
    hide ReadAliases, Strip;
    var b := "{" + PrintNat(m) + "," + PrintNat(n) + "}";
    SuffixStrips(t, b);
    SuffixStrips(t, []);
    assert t + [] == t;
    PrintParse(m);
    PrintParse(n);
    ReadsPrintedBounds(t, m, PrintNat(n));
    assert (t + b)[..|t|] == t;
  }

  // ---- Splitting at top-level commas only ----

  /** Text between brackets of one kind, which may nest. */
  datatype Inside = End | Char(c: char, rest: Inside) | Nested(inner: Inside, rest: Inside)

  function Written(x: Inside, open: char, close: char): string {
    match x
    case End => []
    case Char(c, rest) => [c] + Written(rest, open, close)
    case Nested(inner, rest) => [open] + Written(inner, open, close) + [close] + Written(rest, open, close)
  }

  predicate Brackets(x: Inside, open: char, close: char) {
    match x
    case End => true
    case Char(c, rest) => c != open && c != close && Brackets(rest, open, close)
    case Nested(inner, rest) => Brackets(inner, open, close) && Brackets(rest, open, close)
  }

  /** A token is made of plain text and of brackets with whatever inside. */
  datatype Piece = Plain(t: string) | Paren(x: Inside) | Brace(x: Inside)

  predicate Proper(p: Piece) {
    match p
    case Plain(t) => ',' !in t && '(' !in t && '{' !in t
    case Paren(x) => Brackets(x, '(', ')')
    case Brace(x) => Brackets(x, '{', '}')
  }

  function PieceText(p: Piece): string {
    match p
    case Plain(t) => t
    case Paren(x) => "(" + Written(x, '(', ')') + ")"
    case Brace(x) => "{" + Written(x, '{', '}') + "}"
  }

  function TokenText(ps: seq<Piece>): string {
    if ps == [] then [] else TokenText(ps[..|ps| - 1]) + PieceText(ps[|ps| - 1])
  }

  function Texts(ts: seq<seq<Piece>>): (r: seq<string>)
    ensures |r| == |ts|
  {
    seq(|ts|, i requires 0 <= i < |ts| => TokenText(ts[i]))
  }

  /** ",".join */
  function Commas(texts: seq<string>): string {
    if texts == [] then [] else if |texts| == 1 then texts[0] else Commas(texts[..|texts| - 1]) + "," + texts[|texts| - 1]
  }

  predicate AllProper(ps: seq<Piece>) { forall i :: 0 <= i < |ps| ==> Proper(ps[i]) }

  lemma {:induction false} ScanRound(sc: Scan, x: Inside)
    requires Brackets(x, '(', ')') && sc.paren > 0 && sc.brace == 0
    ensures Steps(sc, Written(x, '(', ')')) == sc.(buf := sc.buf + Written(x, '(', ')'))
    decreases x
  {
    hide Steps;
    match x {
      case End => ScanNothing(sc);
      case Char(c, rest) =>
        ScanOne(sc, c);
        StepsConcat(sc, [c], Written(rest, '(', ')'));
        ScanRound(Step(sc, c), rest);
        Joined(sc.buf, [c], Written(rest, '(', ')'));
      case Nested(inner, rest) =>
        var a, b := Written(inner, '(', ')'), Written(rest, '(', ')');
        ScanPieces(sc, '(', a, ')', b);
        ScanRound(Step(sc, '('), inner);
        var sc' := Step(sc, '(').(buf := sc.buf + ['('] + a);
        ScanRound(Step(sc', ')'), rest);
        JoinedFour(sc.buf, '(', a, ')', b);
    }
  }

  lemma {:induction false} ScanCurly(sc: Scan, x: Inside)
    requires Brackets(x, '{', '}') && sc.brace > 0 && sc.paren == 0
    ensures Steps(sc, Written(x, '{', '}')) == sc.(buf := sc.buf + Written(x, '{', '}'))
    decreases x
  {
    hide Steps;
    match x {
      case End => ScanNothing(sc);
      case Char(c, rest) =>
        ScanOne(sc, c);
        StepsConcat(sc, [c], Written(rest, '{', '}'));
        ScanCurly(Step(sc, c), rest);
        Joined(sc.buf, [c], Written(rest, '{', '}'));
      case Nested(inner, rest) =>
        var a, b := Written(inner, '{', '}'), Written(rest, '{', '}');
        ScanPieces(sc, '{', a, '}', b);
        ScanCurly(Step(sc, '{'), inner);
        var sc' := Step(sc, '{').(buf := sc.buf + ['{'] + a);
        ScanCurly(Step(sc', '}'), rest);
        JoinedFour(sc.buf, '{', a, '}', b);
    }
  }

  lemma ScanNothing(sc: Scan)
    ensures Steps(sc, []) == sc && sc.buf + [] == sc.buf
  {}

  lemma Joined(a: string, b: string, c: string)
    ensures a + b + c == a + (b + c)
  {}

  lemma JoinedFour(s: string, open: char, a: string, close: char, b: string)
    ensures s + [open] + a + [close] + b == s + ([open] + a + [close] + b)
  {}

  lemma ScanPieces(sc: Scan, open: char, a: string, close: char, b: string)
    ensures Steps(sc, [open] + a + [close] + b) == Steps(Step(Steps(Step(sc, open), a), close), b)
  {
    hide Step;
    StepsConcat(sc, [open] + a + [close], b);
    StepsConcat(sc, [open] + a, [close]);
    StepsConcat(sc, [open], a);
    ScanOne(sc, open);
    ScanOne(Steps(Step(sc, open), a), close);
  }

  lemma {:induction false} ScanText(sc: Scan, t: string)
    requires sc.paren == 0 && sc.brace == 0 && ',' !in t && '(' !in t && '{' !in t
    ensures Steps(sc, t) == sc.(buf := sc.buf + t)
  {
    if t == [] {
      ScanNothing(sc);
    } else {
      ScanText(sc, t[..|t| - 1]);
      assert t == t[..|t| - 1] + [t[|t| - 1]];
      Joined(sc.buf, t[..|t| - 1], [t[|t| - 1]]);
    }
  }

  /** A piece passes through the scan as a whole, commas and all. */
  lemma ScanPiece(sc: Scan, p: Piece)
    requires sc.paren == 0 && sc.brace == 0 && Proper(p)
    ensures Steps(sc, PieceText(p)) == sc.(buf := sc.buf + PieceText(p))
  {
    match p {
      case Plain(t) => ScanText(sc, t);
      case Paren(x) =>
        var a := Written(x, '(', ')');
        ScanPieces(sc, '(', a, ')', []);
        ScanRound(Step(sc, '('), x);
        hide Steps, Written;
        ScanNothing(Step(Step(sc, '(').(buf := sc.buf + ['('] + a), ')'));
        JoinedFour(sc.buf, '(', a, ')', []);
        assert ['('] + a + [')'] + [] == "(" + a + ")";
      case Brace(x) =>
        var a := Written(x, '{', '}');
        ScanPieces(sc, '{', a, '}', []);
        ScanCurly(Step(sc, '{'), x);
        hide Steps, Written;
        ScanNothing(Step(Step(sc, '{').(buf := sc.buf + ['{'] + a), '}'));
        JoinedFour(sc.buf, '{', a, '}', []);
        assert ['{'] + a + ['}'] + [] == "{" + a + "}";
    }
  }

  lemma {:induction false} ScanPiecewise(sc: Scan, ps: seq<Piece>)
    requires sc.paren == 0 && sc.brace == 0 && AllProper(ps)
    ensures Steps(sc, TokenText(ps)) == sc.(buf := sc.buf + TokenText(ps))
  {
    hide Steps, PieceText;
    if ps == [] {
      ScanNothing(sc);
    } else {
      var init, p := ps[..|ps| - 1], ps[|ps| - 1];
      ScanPiecewise(sc, init);
      StepsConcat(sc, TokenText(init), PieceText(p));
      ScanPiece(sc.(buf := sc.buf + TokenText(init)), p);
      Joined(sc.buf, TokenText(init), PieceText(p));
    }
  }

  lemma {:induction false} StrippedSnoc(texts: seq<string>, t: string)
    ensures Stripped(texts + [t]) == Stripped(texts) + if Strip(t) != [] then [Strip(t)] else []
    decreases |texts|
  {
    hide Strip;
    if texts == [] {
      assert [t][1..] == [] && [] + [t] == [t];
    } else {
      assert (texts + [t])[1..] == texts[1..] + [t];
      StrippedSnoc(texts[1..], t);
    }
  }

  /** The pattern is cut at the commas outside all brackets, and nowhere else: tokens joined by commas
      come back, stripped, in order, blank ones dropped. */
  lemma {:induction false} SplitTokens(ts: seq<seq<Piece>>)
    requires forall i :: 0 <= i < |ts| ==> AllProper(ts[i])
    ensures Flush(Steps(Unscanned, Commas(Texts(ts)))) == Stripped(Texts(ts))
    ensures ts != [] ==>
      Steps(Unscanned, Commas(Texts(ts))) == Scan(Stripped(Texts(ts[..|ts| - 1])), TokenText(ts[|ts| - 1]), 0, 0)
  {
    hide Steps, TokenText, Strip, AllProper;
    if ts == [] {
      assert Texts(ts) == [];
      ScanNothing(Unscanned);
      NothingFlushed();
    } else {
      var n := |ts| - 1;
      var init, last := ts[..n], TokenText(ts[n]);
      assert Texts(ts) == Texts(init) + [last] && Texts(ts)[..n] == Texts(init);
      StrippedSnoc(Texts(init), last);
      SplitTokens(init);
      if n == 0 {
        assert Texts(init) == [] && [] + last == last;
        ScanPiecewise(Unscanned, ts[0]);
      } else {
        StepsConcat(Unscanned, Commas(Texts(init)) + ",", last);
        StepsConcat(Unscanned, Commas(Texts(init)), ",");
        AtComma(Steps(Unscanned, Commas(Texts(init))), Stripped(Texts(init)));
        ScanPiecewise(Scan(Stripped(Texts(init)), [], 0, 0), ts[n]);
        assert [] + last == last;
      }
    }
  }

  lemma NothingFlushed()
    ensures Flush(Unscanned) == []
  {}
}
