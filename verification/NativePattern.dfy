/** The native fast path's way from a query to its compiled steps: the query is printed to native
    pattern text, which the C parser cuts at commas again. */
module NativePattern {
  import opened Events
  import opened Matcher
  import opened Text
  import opened Detection

  datatype NativeStep = NativeStep(name: string, kleenePlus: bool)

  // ---- What the fast path accepts ----

  predicate Optional(s: PatternStep) { s.minRepeats == 0 }

  predicate KleenePlus(s: PatternStep) { s.minRepeats == 1 && s.maxRepeats.None? }

  predicate Bounded(s: PatternStep) {
    !(s.maxRepeats.None? || s.maxRepeats.value == 1) || !(s.minRepeats == 0 || s.minRepeats == 1)
  }

  predicate HasOr(s: PatternStep) { |s.aliases| > 1 }

  predicate FastPath(steps: seq<PatternStep>) {
    forall k :: 0 <= k < |steps| ==> !Optional(steps[k]) && !Bounded(steps[k]) && !HasOr(steps[k])
  }

  /** The patterns both engines understand alike are the ones the fast path accepts. */
  lemma FastPathIsCommon(steps: seq<PatternStep>)
    requires steps != [] && forall k :: 0 <= k < |steps| ==> steps[k].aliases != []
    ensures FastPath(steps) <==> Common(steps)
  {
    forall k | 0 <= k < |steps|
      ensures !Optional(steps[k]) && !Bounded(steps[k]) && !HasOr(steps[k]) <==>
        (|steps[k].aliases| == 1 && steps[k].minRepeats == 1 && (steps[k].maxRepeats.Some? ==> steps[k].maxRepeats.value == 1))
    {}
  }

  // ---- Printing ----

  function NativeToken(s: PatternStep): string
    requires s.aliases != []
  {
    if KleenePlus(s) then s.aliases[0] + "+" else s.aliases[0]
  }

  predicate Named(steps: seq<PatternStep>) {
    forall k :: 0 <= k < |steps| ==> steps[k].aliases != []
  }

  /** The tokens of the steps that are not optional, joined by commas. */
  function NativeText(steps: seq<PatternStep>): string
    requires Named(steps)
  {
    Join(NativeTokens(steps))
  }

  function NativeTokens(steps: seq<PatternStep>): seq<string>
    requires Named(steps)
  {
    if steps == [] then [] else (if Optional(steps[0]) then [] else [NativeToken(steps[0])]) + NativeTokens(steps[1..])
  }

  function Join(tokens: seq<string>): string {
    if tokens == [] then "" else if |tokens| == 1 then tokens[0] else tokens[0] + [','] + Join(tokens[1..])
  }

  // ---- The C parser ----

  predicate IsSpaceC(c: char) { c == ' ' || '\t' <= c <= '\r' }

  function TrimFront(s: string): string {
    if s != [] && IsSpaceC(s[0]) then TrimFront(s[1..]) else s
  }

  function TrimBack(s: string): string {
    if s != [] && IsSpaceC(s[|s| - 1]) then TrimBack(s[..|s| - 1]) else s
  }

  function TrimC(s: string): string { TrimBack(TrimFront(s)) }

  /** strtok: the non-empty pieces between commas. */
  function Pieces(s: string): seq<string> {
    if s == [] then []
    else
      var i := First(',', s);
      (if i > 0 then [s[..i]] else []) + if i < |s| then Pieces(s[i + 1..]) else []
  }

  function ReadNative(tok: string): NativeStep {
    var t := TrimC(tok);
    if t != [] && t[|t| - 1] == '+' then NativeStep(TrimC(t[..|t| - 1]), true) else NativeStep(t, false)
  }

  function ReadAll(toks: seq<string>): (r: seq<NativeStep>)
    ensures |r| == |toks|
  {
    seq(|toks|, k requires 0 <= k < |toks| => ReadNative(toks[k]))
  }

  function Take<T>(s: seq<T>, n: nat): seq<T> { if |s| <= n then s else s[..n] }

  /** At most maxSeq steps are read; the rest of the pattern is dropped.  A pattern without steps is refused. */
  method ParseNative(pattern: string, maxSeq: nat) returns (ok: bool, steps: seq<NativeStep>)
    ensures steps == ReadAll(Take(Pieces(pattern), maxSeq)) && (ok <==> steps != [])
  {
    hide ReadAll, Pieces, Take, FirstPiece, ReadNative;
    steps := [];
    var rest := pattern;
    var tok := NextPiece(rest);
    ghost var all := ReadAll(Take(Pieces(pattern), maxSeq));
    assert steps + all == all;
    while tok.Some? && |steps| < maxSeq
      invariant |steps| <= maxSeq && tok == FirstPiece(rest)
      invariant all == steps + ReadAll(Take(Pieces(rest), maxSeq - |steps|))
      decreases |rest|
    {
      PiecesNext(rest, maxSeq - |steps|);
      var (piece, after) := tok.value;
      OneRead(steps, ReadNative(piece), ReadAll(Take(Pieces(after), maxSeq - |steps| - 1)));
      steps := steps + [ReadNative(piece)];
      rest := after;
      tok := NextPiece(rest);
    }
    NothingLeft(rest, maxSeq - |steps|);
    assert steps + [] == steps;
    ok := steps != [];
  }

  lemma OneRead(steps: seq<NativeStep>, x: NativeStep, tail: seq<NativeStep>)
    ensures steps + ([x] + tail) == steps + [x] + tail
  {}

  /** The next non-empty piece and the text behind it. */
  function FirstPiece(s: string): Option<(string, string)> {
    if s == [] then None
    else
      var i := First(',', s);
      if i == 0 then FirstPiece(s[1..])
      else Some((s[..i], if i < |s| then s[i + 1..] else []))
  }

  method NextPiece(s: string) returns (r: Option<(string, string)>)
    ensures r == FirstPiece(s)
  {
    var t := s;
    while t != [] && t[0] == ','
      invariant FirstPiece(t) == FirstPiece(s)
      decreases |t|
    {
      t := t[1..];
    }
    if t == [] { return None; }
    var i := 0;
    while i < |t| && t[i] != ','
      invariant i <= |t| && First(',', t) == i + First(',', t[i..])
    {
      i := i + 1;
    }
    r := Some((t[..i], if i < |t| then t[i + 1..] else []));
  }

  predicate AllSpacesC(s: string) { forall i :: 0 <= i < |s| ==> IsSpaceC(s[i]) }

  /** Neither end is a space. */
  predicate TightC(s: string) { s != [] && !IsSpaceC(s[0]) && !IsSpaceC(s[|s| - 1]) }

  lemma {:induction false} BackTrimmed(s: string, b: string)
    requires TightC(s) && AllSpacesC(b)
    ensures TrimBack(s + b) == s
  {
    if b == [] {
      assert s + b == s;
    } else {
      assert (s + b)[..|s + b| - 1] == s + b[..|b| - 1];
      BackTrimmed(s, b[..|b| - 1]);
    }
  }

  lemma Trimmed(a: string, s: string, b: string)
    requires AllSpacesC(a) && TightC(s) && AllSpacesC(b)
    ensures TrimC(a + s + b) == s
  {
    FrontBefore(a, s + b);
    BackTrimmed(s, b);
    assert a + s + b == a + (s + b);
  }

  lemma {:induction false} FrontBefore(a: string, s: string)
    requires AllSpacesC(a) && s != [] && !IsSpaceC(s[0])
    ensures TrimFront(a + s) == s
  {
    if a == [] {
      assert a + s == s;
    } else {
      assert (a + s)[1..] == a[1..] + s;
      FrontBefore(a[1..], s);
    }
  }

  /** Spaces around a token, and between a name and its +, do not matter. */
  lemma SpacedRead(a: string, name: string, b: string, c: string)
    requires AllSpacesC(a) && AllSpacesC(b) && AllSpacesC(c) && TightC(name)
    ensures ReadNative(a + (name + b + "+") + c) == NativeStep(name, true)
    ensures name[|name| - 1] != '+' ==> ReadNative(a + name + c) == NativeStep(name, false)
  {
    hide TrimC;
    var t := name + b + "+";
    assert t[0] == name[0] && t[|t| - 1] == '+' && t[..|t| - 1] == name + b;
    Trimmed(a, t, c);
    Trimmed(a, name, c);
    Trimmed([], name, b);
    assert [] + name + b == name + b;
  }

  lemma {:induction false} PiecesFirst(s: string)
    ensures FirstPiece(s).None? ==> Pieces(s) == []
    ensures FirstPiece(s).Some? ==>
      |FirstPiece(s).value.1| < |s| && Pieces(s) == [FirstPiece(s).value.0] + Pieces(FirstPiece(s).value.1)
  {
    if s != [] {
      if First(',', s) == 0 {
        PiecesFirst(s[1..]);
        assert Pieces(s) == Pieces(s[1..]);
      }
    }
  }

  lemma {:induction false} PiecesNext(s: string, n: nat)
    requires FirstPiece(s).Some? && n > 0
    ensures var (piece, after) := FirstPiece(s).value;
      |after| < |s| && ReadAll(Take(Pieces(s), n)) == [ReadNative(piece)] + ReadAll(Take(Pieces(after), n - 1))
  {
    hide Pieces, FirstPiece, ReadAll, Take, ReadNative;
    PiecesFirst(s);
    TakeCons(FirstPiece(s).value.0, Pieces(FirstPiece(s).value.1), n);
  }

  lemma TakeCons(x: string, rest: seq<string>, n: nat)
    requires n > 0
    ensures ReadAll(Take([x] + rest, n)) == [ReadNative(x)] + ReadAll(Take(rest, n - 1))
  {
    hide ReadNative;
    var a, b := Take([x] + rest, n), Take(rest, n - 1);
    assert a == [x] + b;
  }

  lemma NothingLeft(s: string, n: nat)
    ensures n == 0 || FirstPiece(s).None? ==> ReadAll(Take(Pieces(s), n)) == []
  {
    PiecesFirst(s);
  }

  // ---- There and back ----

  /** A name that survives printing: no comma, not empty, no whitespace at its ends. */
  predicate PlainName(t: string) {
    t != [] && ',' !in t && !IsSpaceC(t[0]) && !IsSpaceC(t[|t| - 1])
  }

  lemma FirstOfPieces(t: string, rest: string)
    requires t != [] && ',' !in t
    ensures Pieces(t) == [t] && Pieces(t + [','] + rest) == [t] + Pieces(rest)
  {
    hide First;
    NoComma(t);
    FirstIs(',', t, rest);
    var s := t + [','] + rest;
    assert t[..|t|] == t && s[..|t|] == t && s[|t| + 1..] == rest;
    assert Pieces(s) == [t] + Pieces(rest);
  }

  lemma {:induction false} PiecesOfJoined(tokens: seq<string>)
    requires forall k :: 0 <= k < |tokens| ==> tokens[k] != [] && ',' !in tokens[k]
    ensures Pieces(Join(tokens)) == tokens
  {
    hide First;
    if tokens != [] {
      PiecesOfJoined(tokens[1..]);
      FirstOfPieces(tokens[0], Join(tokens[1..]));
      assert tokens == [tokens[0]] + tokens[1..];
    }
  }

  lemma {:induction false} NoComma(s: string)
    requires ',' !in s
    ensures First(',', s) == |s|
  {
    if s != [] { NoComma(s[1..]); }
  }

  /** A plain step printed with a + at its end. */
  predicate LooksRepeated(s: PatternStep)
    requires s.aliases != []
  {
    s.maxRepeats.Some? && s.aliases[0] != [] && s.aliases[0][|s.aliases[0]| - 1] == '+'
  }

  lemma TokenRead(s: PatternStep)
    requires |s.aliases| == 1 && s.minRepeats == 1 && (s.maxRepeats.Some? ==> s.maxRepeats.value == 1) && PlainName(s.aliases[0])
    ensures NativeToken(s) != [] && ',' !in NativeToken(s)
    ensures ReadNative(NativeToken(s)) == NativeStep(s.aliases[0], s.maxRepeats.None?) <==> !LooksRepeated(s)
  {
    var t := NativeToken(s);
    assert TrimC(t) == t;
    if s.maxRepeats.None? {
      assert t[|t| - 1] == '+' && t[..|t| - 1] == s.aliases[0];
      assert TrimC(s.aliases[0]) == s.aliases[0];
    }
  }

  lemma {:induction false} TokensOf(steps: seq<PatternStep>)
    requires Named(steps) && forall k :: 0 <= k < |steps| ==> !Optional(steps[k])
    ensures |NativeTokens(steps)| == |steps|
    ensures forall k :: 0 <= k < |steps| ==> NativeTokens(steps)[k] == NativeToken(steps[k])
  {
    if steps != [] {
      TokensOf(steps[1..]);
    }
  }

  /** The C parser reads back each of the first maxSeq steps of a fast-path query, except a plain one
      whose name ends in +, which it takes for a repeated one. */
  lemma NativeRoundTrip(steps: seq<PatternStep>, within: int, maxSeq: nat, k: nat)
    requires Common(steps) && forall j :: 0 <= j < |steps| ==> PlainName(steps[j].aliases[0])
    requires k < |steps|
    ensures Named(steps)
    ensures var read := ReadAll(Take(Pieces(NativeText(steps)), maxSeq));
      var step := NativeQuery(steps, within).steps[k];
      && |read| == (if |steps| <= maxSeq then |steps| else maxSeq)
      && (k < maxSeq ==> (read[k] == NativeStep(step.name, step.kleenePlus) <==> !LooksRepeated(steps[k])))
  {
    hide NativeToken, NativeTokens, ReadNative, Pieces, Join, LooksRepeated, PlainName;
    CommonNamed(steps);
    TokensOf(steps);
    TokensClean(steps);
    PiecesOfJoined(NativeTokens(steps));
    TokenRead(steps[k]);
    var toks := Take(NativeTokens(steps), maxSeq);
    assert k < maxSeq ==> toks[k] == NativeToken(steps[k]);
  }

  lemma CommonNamed(steps: seq<PatternStep>)
    requires Common(steps)
    ensures Named(steps) && forall k :: 0 <= k < |steps| ==> !Optional(steps[k])
  {}

  lemma TokensClean(steps: seq<PatternStep>)
    requires Common(steps) && Named(steps) && forall j :: 0 <= j < |steps| ==> PlainName(steps[j].aliases[0])
    requires |NativeTokens(steps)| == |steps| && forall k :: 0 <= k < |steps| ==> NativeTokens(steps)[k] == NativeToken(steps[k])
    ensures forall j :: 0 <= j < |NativeTokens(steps)| ==> NativeTokens(steps)[j] != [] && ',' !in NativeTokens(steps)[j]
  {
    forall j | 0 <= j < |steps| ensures NativeTokens(steps)[j] != [] && ',' !in NativeTokens(steps)[j] { TokenRead(steps[j]); }
  }
}
