/** The order in which the matcher finds its matches.  A derivation says for each step of the pattern
    which events it consumes, or that it is skipped.  The enumeration lists every derivation once, in
    an order that is defined without it; so a match cap keeps the first ones, whatever they are. */
module Derivations {
  import opened Events
  import opened Matcher

  /** What a step does: an optional one may be skipped, otherwise it takes the events at some positions. */
  datatype Block = Skipped | Taken(at: seq<nat>)

  type Derivation = seq<Block>

  // ---- Derivations of a match ----

  function Positions(b: Block): seq<nat> { if b.Taken? then b.at else [] }

  /** All positions, step by step. */
  function Flat(d: Derivation): seq<nat> {
    if d == [] then [] else Positions(d[0]) + Flat(d[1..])
  }

  predicate Rising(s: seq<nat>, from: nat, to: nat) {
    && (forall i :: 0 <= i < |s| ==> from <= s[i] < to)
    && forall i, j :: 0 <= i < j < |s| ==> s[i] < s[j]
  }

  /** The events at the positions. */
  function Picks(events: seq<Event>, at: seq<nat>): seq<Event> {
    if at == [] then [] else (if at[0] < |events| then [events[at[0]]] else []) + Picks(events, at[1..])
  }

  lemma {:induction false} PicksAt(events: seq<Event>, at: seq<nat>)
    requires forall i :: 0 <= i < |at| ==> at[i] < |events|
    ensures |Picks(events, at)| == |at| && forall i :: 0 <= i < |at| ==> Picks(events, at)[i] == events[at[i]]
  {
    if at != [] { PicksAt(events, at[1..]); }
  }

  lemma {:induction false} PicksConcat(events: seq<Event>, a: seq<nat>, b: seq<nat>)
    ensures Picks(events, a + b) == Picks(events, a) + Picks(events, b)
  {
    if a == [] {
      assert a + b == b;
    } else {
      assert (a + b)[1..] == a[1..] + b;
      PicksConcat(events, a[1..], b);
    }
  }

  predicate BlockFits(s: PatternStep, events: seq<Event>, b: Block) {
    match b
    case Skipped => s.minRepeats == 0
    case Taken(at) => InBounds(s, |at|) && forall i :: 0 <= i < |at| ==> at[i] < |events| && StepMatches(s, events[at[i]])
  }

  /** The path stays in the window its first event opens and holds no event twice. */
  predicate Allowed(within: int, p: seq<Event>) {
    && p != [] && within >= 0
    && (forall i :: 0 <= i < |p| ==> p[0].time <= p[i].time && p[i].time - p[0].time <= within)
    && forall i, j :: 0 <= i < j < |p| ==> p[i].id != p[j].id
  }

  predicate Derives(steps: seq<PatternStep>, within: int, events: seq<Event>, d: Derivation) {
    && |d| == |steps| && (forall k :: 0 <= k < |d| ==> BlockFits(steps[k], events, d[k]))
    && Rising(Flat(d), 0, |events|) && Allowed(within, Picks(events, Flat(d)))
  }

  // ---- Their order ----

  /** Going on comes before taking another event, and an earlier event before a later one. */
  predicate Sooner(a: seq<nat>, b: seq<nat>) {
    a < b || exists i :: 0 <= i < |a| && i < |b| && a[..i] == b[..i] && a[i] < b[i]
  }

  /** Skipping a step comes before consuming it. */
  predicate BlockBefore(a: Block, b: Block) {
    (a.Skipped? && b.Taken?) || (a.Taken? && b.Taken? && Sooner(a.at, b.at))
  }

  /** The first step with a difference decides. */
  predicate ComesBefore(a: Derivation, b: Derivation) {
    exists k :: 0 <= k < |a| && k < |b| && a[..k] == b[..k] && BlockBefore(a[k], b[k])
  }

  predicate InOrder(s: seq<Derivation>) {
    forall i, j :: 0 <= i < j < |s| ==> ComesBefore(s[i], s[j])
  }

  // ---- The derivations in the order of the search ----

  function Prefixed(b: Block, ds: seq<Derivation>): (r: seq<Derivation>)
    ensures |r| == |ds| && forall i :: 0 <= i < |ds| ==> r[i] == [b] + ds[i]
  {
    seq(|ds|, i requires 0 <= i < |ds| => [b] + ds[i])
  }

  /** The derivations of the steps from k on with the events from pos on, those at `base` being taken. */
  function All(steps: seq<PatternStep>, within: int, events: seq<Event>, k: nat, pos: nat, base: seq<nat>): seq<Derivation>
    requires pos <= |events|
    decreases |steps| - k, |events| - pos, 2
  {
    if k >= |steps| then (if Picks(events, base) == [] then [] else [[]])
    else
      (if steps[k].minRepeats == 0 then Prefixed(Skipped, All(steps, within, events, k + 1, pos, base)) else [])
      + More(steps, within, events, k, pos, base, [])
  }

  /** Those in which step k has taken the events at `at` already. */
  function More(steps: seq<PatternStep>, within: int, events: seq<Event>, k: nat, pos: nat, base: seq<nat>, at: seq<nat>): seq<Derivation>
    requires k < |steps| && pos <= |events|
    decreases |steps| - k, |events| - pos, 1
  {
    (if |at| >= steps[k].minRepeats then Prefixed(Taken(at), All(steps, within, events, k + 1, pos, base + at)) else [])
    + if steps[k].maxRepeats.Some? && |at| >= steps[k].maxRepeats.value then [] else Next(steps, within, events, k, pos, base, at)
  }

  /** Those in which it takes another one. */
  function Next(steps: seq<PatternStep>, within: int, events: seq<Event>, k: nat, pos: nat, base: seq<nat>, at: seq<nat>): seq<Derivation>
    requires k < |steps| && pos <= |events|
    decreases |steps| - k, |events| - pos, 0
  {
    if pos == |events| then []
    else
      (if StepMatches(steps[k], events[pos]) && Fresh(within, Picks(events, base + at), events[pos])
       then More(steps, within, events, k, pos + 1, base, at + [pos]) else [])
      + Next(steps, within, events, k, pos + 1, base, at)
  }

  // ---- They spell the enumeration ----

  function Spelled(events: seq<Event>, base: seq<nat>, ds: seq<Derivation>): (ps: seq<seq<Event>>)
    ensures |ps| == |ds| && forall i :: 0 <= i < |ds| ==> ps[i] == Picks(events, base + Flat(ds[i]))
  {
    seq(|ds|, i requires 0 <= i < |ds| => Picks(events, base + Flat(ds[i])))
  }

  lemma SpelledConcat(events: seq<Event>, base: seq<nat>, a: seq<Derivation>, b: seq<Derivation>)
    ensures Spelled(events, base, a + b) == Spelled(events, base, a) + Spelled(events, base, b)
  {}

  lemma SpelledPrefixed(events: seq<Event>, base: seq<nat>, b: Block, ds: seq<Derivation>)
    ensures Spelled(events, base, Prefixed(b, ds)) == Spelled(events, base + Positions(b), ds)
  {
    forall i | 0 <= i < |ds| ensures base + Flat([b] + ds[i]) == base + Positions(b) + Flat(ds[i]) {
      assert ([b] + ds[i])[1..] == ds[i];
    }
  }

  lemma {:induction false} AllSpells(steps: seq<PatternStep>, within: int, events: seq<Event>, k: nat, pos: nat, base: seq<nat>)
    requires pos <= |events|
    ensures Spelled(events, base, All(steps, within, events, k, pos, base)) == Rec(steps, within, k, events[pos..], Picks(events, base))
    decreases |steps| - k, |events| - pos, 2
  {
    if k >= |steps| {
      SpelledEnd(events, base);
    } else {
      if steps[k].minRepeats == 0 { AllSpells(steps, within, events, k + 1, pos, base); }
      assert base + [] == base;
      MoreSpells(steps, within, events, k, pos, base, []);
      StepSpells(steps, within, events, k, pos, base);
    }
  }

  lemma StepSpells(steps: seq<PatternStep>, within: int, events: seq<Event>, k: nat, pos: nat, base: seq<nat>)
    requires k < |steps| && pos <= |events|
    requires steps[k].minRepeats == 0 ==>
      Spelled(events, base, All(steps, within, events, k + 1, pos, base)) == Rec(steps, within, k + 1, events[pos..], Picks(events, base))
    requires Spelled(events, base, More(steps, within, events, k, pos, base, [])) == Consume(steps, within, k, 0, events[pos..], Picks(events, base))
    ensures Spelled(events, base, All(steps, within, events, k, pos, base)) == Rec(steps, within, k, events[pos..], Picks(events, base))
  {
    hide Spelled, Picks, More, Consume;
    var later, more := All(steps, within, events, k + 1, pos, base), More(steps, within, events, k, pos, base, []);
    SpelledConcat(events, base, if steps[k].minRepeats == 0 then Prefixed(Skipped, later) else [], more);
    SpelledNone(events, base);
    SpelledPrefixed(events, base, Skipped, later);
    assert base + [] == base;
  }

  lemma SpelledEnd(events: seq<Event>, base: seq<nat>)
    ensures Spelled(events, base, []) == [] && Spelled(events, base, [[]]) == [Picks(events, base)]
  {
    assert base + Flat([]) == base;
  }

  lemma SpelledNone(events: seq<Event>, base: seq<nat>)
    ensures Spelled(events, base, []) == []
  {}

  lemma {:induction false} MoreSpells(steps: seq<PatternStep>, within: int, events: seq<Event>, k: nat, pos: nat, base: seq<nat>, at: seq<nat>)
    requires k < |steps| && pos <= |events|
    ensures Spelled(events, base, More(steps, within, events, k, pos, base, at))
      == Consume(steps, within, k, |at|, events[pos..], Picks(events, base + at))
    decreases |steps| - k, |events| - pos, 1
  {
    hide Spelled, Picks;
    var later, next := All(steps, within, events, k + 1, pos, base + at), Next(steps, within, events, k, pos, base, at);
    var full := steps[k].maxRepeats.Some? && |at| >= steps[k].maxRepeats.value;
    SpelledConcat(events, base, if |at| >= steps[k].minRepeats then Prefixed(Taken(at), later) else [], if full then [] else next);
    SpelledNone(events, base);
    AllSpells(steps, within, events, k + 1, pos, base + at);
    SpelledPrefixed(events, base, Taken(at), later);
    NextSpells(steps, within, events, k, pos, base, at);
  }

  lemma {:induction false} NextSpells(steps: seq<PatternStep>, within: int, events: seq<Event>, k: nat, pos: nat, base: seq<nat>, at: seq<nat>)
    requires k < |steps| && pos <= |events|
    ensures Spelled(events, base, Next(steps, within, events, k, pos, base, at))
      == Pick(steps, within, k, |at|, events[pos..], Picks(events, base + at))
    decreases |steps| - k, |events| - pos, 0
  {
    hide Spelled, Picks;
    SpelledNone(events, base);
    if pos < |events| {
      var e, rest := events[pos], Next(steps, within, events, k, pos + 1, base, at);
      var more := More(steps, within, events, k, pos + 1, base, at + [pos]);
      var take := if StepMatches(steps[k], e) && Fresh(within, Picks(events, base + at), e) then more else [];
      assert events[pos..][1..] == events[pos + 1..];
      SpelledConcat(events, base, take, rest);
      OnePicked(events, base + at, pos);
      assert base + (at + [pos]) == base + at + [pos];
      MoreSpells(steps, within, events, k, pos + 1, base, at + [pos]);
      NextSpells(steps, within, events, k, pos + 1, base, at);
    }
  }

  lemma OnePicked(events: seq<Event>, at: seq<nat>, pos: nat)
    requires pos < |events|
    ensures Picks(events, at + [pos]) == Picks(events, at) + [events[pos]]
  {
    PicksConcat(events, at, [pos]);
    assert Picks(events, [pos]) == [events[pos]] + Picks(events, []);
  }

  // ---- They come in order ----

  /** Every derivation of a comes before every one of b. */
  ghost predicate Ahead(a: seq<Derivation>, b: seq<Derivation>) {
    forall i, j :: 0 <= i < |a| && 0 <= j < |b| ==> ComesBefore(a[i], b[j])
  }

  lemma OrderConcat(a: seq<Derivation>, b: seq<Derivation>)
    requires InOrder(a) && InOrder(b) && Ahead(a, b)
    ensures InOrder(a + b)
  {
    hide ComesBefore;
    var s := a + b;
    forall i, j | 0 <= i < j < |s| ensures ComesBefore(s[i], s[j]) {
      if i < |a| <= j { assert s[j] == b[j - |a|]; }
      if |a| <= i { assert s[i] == b[i - |a|] && s[j] == b[j - |a|]; }
    }
  }

  lemma OrderPrefixed(b: Block, ds: seq<Derivation>)
    requires InOrder(ds)
    ensures InOrder(Prefixed(b, ds))
  {
    forall i, j | 0 <= i < j < |ds| ensures ComesBefore([b] + ds[i], [b] + ds[j]) { PrecedesPrefixed(b, ds[i], ds[j]); }
  }

  lemma PrecedesPrefixed(b: Block, x: Derivation, y: Derivation)
    requires ComesBefore(x, y)
    ensures ComesBefore([b] + x, [b] + y)
  {
    var k :| 0 <= k < |x| && k < |y| && x[..k] == y[..k] && BlockBefore(x[k], y[k]);
    var x', y' := [b] + x, [b] + y;
    assert x'[..k + 1] == [b] + x[..k] && y'[..k + 1] == [b] + y[..k];
    assert x'[k + 1] == x[k] && y'[k + 1] == y[k];
  }

  lemma FirstDecides(x: Derivation, y: Derivation)
    requires x != [] && y != [] && BlockBefore(x[0], y[0])
    ensures ComesBefore(x, y)
  {
    assert x[..0] == y[..0];
  }

  /** The first block takes the events at `at` and then, from pos on, others; at least one if `more`. */
  predicate Continues(d: Derivation, at: seq<nat>, pos: nat, more: bool) {
    && d != [] && d[0].Taken? && at <= d[0].at && (more ==> |at| < |d[0].at|)
    && (|at| < |d[0].at| ==> pos <= d[0].at[|at|])
  }

  lemma {:induction false} MoreContinue(steps: seq<PatternStep>, within: int, events: seq<Event>, k: nat, pos: nat, base: seq<nat>, at: seq<nat>)
    requires k < |steps| && pos <= |events|
    ensures forall d :: d in More(steps, within, events, k, pos, base, at) ==> Continues(d, at, pos, false)
    decreases |steps| - k, |events| - pos, 1
  {
    NextContinue(steps, within, events, k, pos, base, at);
  }

  lemma {:induction false} NextContinue(steps: seq<PatternStep>, within: int, events: seq<Event>, k: nat, pos: nat, base: seq<nat>, at: seq<nat>)
    requires k < |steps| && pos <= |events|
    ensures forall d :: d in Next(steps, within, events, k, pos, base, at) ==> Continues(d, at, pos, true)
    decreases |steps| - k, |events| - pos, 0
  {
    if pos < |events| {
      MoreContinue(steps, within, events, k, pos + 1, base, at + [pos]);
      NextContinue(steps, within, events, k, pos + 1, base, at);
      forall d | Continues(d, at + [pos], pos + 1, false) ensures Continues(d, at, pos, true) { assert (at + [pos])[|at|] == pos; }
    }
  }

  /** Going on with the next event comes before leaving it out. */
  lemma TakenFirst(at: seq<nat>, pos: nat, x: Derivation, y: Derivation)
    requires Continues(x, at + [pos], pos + 1, false) && Continues(y, at, pos + 1, true)
    ensures ComesBefore(x, y)
  {
    var i := |at|;
    assert x[0].at[..i] == at == y[0].at[..i] && x[0].at[i] == (at + [pos])[i] == pos;
    FirstDecides(x, y);
  }

  /** Going on with the next step comes before taking another event. */
  lemma GoingOnFirst(at: seq<nat>, pos: nat, x: Derivation, y: Derivation)
    requires x != [] && x[0] == Taken(at) && Continues(y, at, pos, true)
    ensures ComesBefore(x, y)
  {
    FirstDecides(x, y);
  }

  lemma {:induction false} AllInOrder(steps: seq<PatternStep>, within: int, events: seq<Event>, k: nat, pos: nat, base: seq<nat>)
    requires pos <= |events|
    ensures InOrder(All(steps, within, events, k, pos, base))
    decreases |steps| - k, |events| - pos, 2
  {
    hide ComesBefore;
    if k < |steps| {
      var later, more := All(steps, within, events, k + 1, pos, base), More(steps, within, events, k, pos, base, []);
      MoreInOrder(steps, within, events, k, pos, base, []);
      MoreContinue(steps, within, events, k, pos, base, []);
      if steps[k].minRepeats == 0 {
        AllInOrder(steps, within, events, k + 1, pos, base);
        OrderPrefixed(Skipped, later);
        forall i, j | 0 <= i < |later| && 0 <= j < |more| ensures ComesBefore([Skipped] + later[i], more[j]) {
          assert more[j] in more;
          FirstDecides([Skipped] + later[i], more[j]);
        }
        OrderConcat(Prefixed(Skipped, later), more);
      }
    }
  }

  lemma {:induction false} MoreInOrder(steps: seq<PatternStep>, within: int, events: seq<Event>, k: nat, pos: nat, base: seq<nat>, at: seq<nat>)
    requires k < |steps| && pos <= |events|
    ensures InOrder(More(steps, within, events, k, pos, base, at))
    decreases |steps| - k, |events| - pos, 1
  {
    hide ComesBefore;
    var later, next := All(steps, within, events, k + 1, pos, base + at), Next(steps, within, events, k, pos, base, at);
    AllInOrder(steps, within, events, k + 1, pos, base + at);
    NextInOrder(steps, within, events, k, pos, base, at);
    NextContinue(steps, within, events, k, pos, base, at);
    OrderPrefixed(Taken(at), later);
    forall i, j | 0 <= i < |later| && 0 <= j < |next| ensures ComesBefore([Taken(at)] + later[i], next[j]) {
      assert next[j] in next;
      GoingOnFirst(at, pos, [Taken(at)] + later[i], next[j]);
    }
    OrderConcat(Prefixed(Taken(at), later), next);
  }

  lemma {:induction false} NextInOrder(steps: seq<PatternStep>, within: int, events: seq<Event>, k: nat, pos: nat, base: seq<nat>, at: seq<nat>)
    requires k < |steps| && pos <= |events|
    ensures InOrder(Next(steps, within, events, k, pos, base, at))
    decreases |steps| - k, |events| - pos, 0
  {
    hide ComesBefore;
    if pos < |events| {
      var more, next := More(steps, within, events, k, pos + 1, base, at + [pos]), Next(steps, within, events, k, pos + 1, base, at);
      MoreInOrder(steps, within, events, k, pos + 1, base, at + [pos]);
      NextInOrder(steps, within, events, k, pos + 1, base, at);
      MoreContinue(steps, within, events, k, pos + 1, base, at + [pos]);
      NextContinue(steps, within, events, k, pos + 1, base, at);
      forall i, j | 0 <= i < |more| && 0 <= j < |next| ensures ComesBefore(more[i], next[j]) {
        assert more[i] in more && next[j] in next;
        TakenFirst(at, pos, more[i], next[j]);
      }
      OrderConcat(more, next);
    }
  }

  // ---- They are all the derivations ----

  predicate Fit(steps: seq<PatternStep>, events: seq<Event>, k: nat, d: Derivation) {
    k + |d| == |steps| && forall i :: 0 <= i < |d| ==> BlockFits(steps[k + i], events, d[i])
  }

  /** d completes the events taken at `base`. */
  predicate Rest(steps: seq<PatternStep>, within: int, events: seq<Event>, k: nat, pos: nat, base: seq<nat>, d: Derivation) {
    && Fit(steps, events, k, d) && Rising(Flat(d), pos, |events|)
    && Follows(within, Picks(events, base), Picks(events, Flat(d))) && Picks(events, base + Flat(d)) != []
  }

  /** d does so, its first block starting with `at`, which is taken too. */
  predicate RestOf(steps: seq<PatternStep>, within: int, events: seq<Event>, k: nat, pos: nat, base: seq<nat>, at: seq<nat>, d: Derivation) {
    && d != [] && d[0].Taken? && at <= d[0].at && Fit(steps, events, k, d)
    && |at| <= |Flat(d)| && Rising(Flat(d)[|at|..], pos, |events|)
    && Follows(within, Picks(events, base + at), Picks(events, Flat(d)[|at|..])) && Picks(events, base + Flat(d)) != []
  }

  lemma InPrefixed(b: Block, ds: seq<Derivation>, d: Derivation)
    ensures d in Prefixed(b, ds) <==> d != [] && d[0] == b && d[1..] in ds
  {
    if d != [] && d[0] == b && d[1..] in ds {
      var i :| 0 <= i < |ds| && ds[i] == d[1..];
      assert Prefixed(b, ds)[i] == [d[0]] + d[1..] == d;
    }
    if d in Prefixed(b, ds) {
      var i :| 0 <= i < |ds| && d == [b] + ds[i];
      assert d[1..] == ds[i];
    }
  }

  lemma FitCons(steps: seq<PatternStep>, events: seq<Event>, k: nat, d: Derivation)
    requires d != [] && k < |steps|
    ensures Fit(steps, events, k, d) <==> BlockFits(steps[k], events, d[0]) && Fit(steps, events, k + 1, d[1..])
  {
    var t := d[1..];
    assert forall i :: 0 <= i < |t| ==> t[i] == d[i + 1];
    if BlockFits(steps[k], events, d[0]) && Fit(steps, events, k + 1, t) {
      forall i | 0 <= i < |d| ensures BlockFits(steps[k + i], events, d[i]) { if i > 0 { assert d[i] == t[i - 1]; } }
    }
  }

  /** Skipping step k leaves what completes the rest. */
  lemma RestSkipped(steps: seq<PatternStep>, within: int, events: seq<Event>, k: nat, pos: nat, base: seq<nat>, d: Derivation)
    requires d != [] && d[0].Skipped? && k < |steps|
    ensures Rest(steps, within, events, k, pos, base, d) <==>
      steps[k].minRepeats == 0 && Rest(steps, within, events, k + 1, pos, base, d[1..])
  {
    FitCons(steps, events, k, d);
    assert [] + Flat(d[1..]) == Flat(d[1..]);
  }

  lemma RestIsOf(steps: seq<PatternStep>, within: int, events: seq<Event>, k: nat, pos: nat, base: seq<nat>, d: Derivation)
    requires d != [] && d[0].Taken?
    ensures Rest(steps, within, events, k, pos, base, d) <==> RestOf(steps, within, events, k, pos, base, [], d)
  {
    assert base + [] == base && Flat(d)[0..] == Flat(d);
  }

  lemma {:induction false} AllExact(steps: seq<PatternStep>, within: int, events: seq<Event>, k: nat, pos: nat, base: seq<nat>, d: Derivation)
    requires k <= |steps| && pos <= |events|
    ensures d in All(steps, within, events, k, pos, base) <==> Rest(steps, within, events, k, pos, base, d)
    decreases |steps| - k, |events| - pos, 2
  {
    hide Rest, RestOf, Picks;
    if k == |steps| {
      NothingLeft(steps, within, events, pos, base, d);
    } else {
      InPrefixed(Skipped, All(steps, within, events, k + 1, pos, base), d);
      MoreExact(steps, within, events, k, pos, base, [], d);
      NotEmpty(steps, within, events, k, pos, base, d);
      if d != [] && d[0].Skipped? {
        AllExact(steps, within, events, k + 1, pos, base, d[1..]);
        RestSkipped(steps, within, events, k, pos, base, d);
        NeedsTaken(steps, within, events, k, pos, base, d);
      }
      if d != [] && d[0].Taken? { RestIsOf(steps, within, events, k, pos, base, d); }
      NeedsTaken(steps, within, events, k, pos, base, d);
    }
  }

  lemma NothingLeft(steps: seq<PatternStep>, within: int, events: seq<Event>, pos: nat, base: seq<nat>, d: Derivation)
    ensures Rest(steps, within, events, |steps|, pos, base, d) <==> d == [] && Picks(events, base) != []
  {
    assert base + [] == base;
  }

  lemma NotEmpty(steps: seq<PatternStep>, within: int, events: seq<Event>, k: nat, pos: nat, base: seq<nat>, d: Derivation)
    requires k < |steps|
    ensures Rest(steps, within, events, k, pos, base, d) ==> d != []
  {}

  lemma NeedsTaken(steps: seq<PatternStep>, within: int, events: seq<Event>, k: nat, pos: nat, base: seq<nat>, d: Derivation)
    ensures RestOf(steps, within, events, k, pos, base, [], d) ==> d != [] && d[0].Taken?
  {}

  /** The events taken so far suit the step. */
  predicate Suits(s: PatternStep, events: seq<Event>, at: seq<nat>) {
    && (s.maxRepeats.Some? ==> |at| <= s.maxRepeats.value)
    && forall i :: 0 <= i < |at| ==> at[i] < |events| && StepMatches(s, events[at[i]])
  }

  lemma {:induction false} MoreExact(steps: seq<PatternStep>, within: int, events: seq<Event>, k: nat, pos: nat, base: seq<nat>, at: seq<nat>, d: Derivation)
    requires k < |steps| && pos <= |events| && Suits(steps[k], events, at)
    ensures d in More(steps, within, events, k, pos, base, at) <==> RestOf(steps, within, events, k, pos, base, at, d)
    decreases |steps| - k, |events| - pos, 1
  {
    hide Rest, RestOf, Picks;
    InPrefixed(Taken(at), All(steps, within, events, k + 1, pos, base + at), d);
    NextExact(steps, within, events, k, pos, base, at, d);
    RestOfShape(steps, within, events, k, pos, base, at, d);
    if d != [] && d[0] == Taken(at) {
      AllExact(steps, within, events, k + 1, pos, base + at, d[1..]);
      RestEnds(steps, within, events, k, pos, base, at, d);
    }
  }

  lemma RestOfShape(steps: seq<PatternStep>, within: int, events: seq<Event>, k: nat, pos: nat, base: seq<nat>, at: seq<nat>, d: Derivation)
    requires k < |steps|
    ensures RestOf(steps, within, events, k, pos, base, at, d) ==>
      && d != [] && d[0].Taken? && at <= d[0].at && (|d[0].at| == |at| ==> d[0] == Taken(at))
      && (steps[k].maxRepeats.Some? ==> |d[0].at| <= steps[k].maxRepeats.value)
  {}

  lemma RestSuits(steps: seq<PatternStep>, within: int, events: seq<Event>, k: nat, pos: nat, base: seq<nat>, at: seq<nat>, d: Derivation)
    requires k < |steps| && RestOf(steps, within, events, k, pos, base, at, d)
    ensures Suits(steps[k], events, d[0].at)
  {}

  lemma SuitsMore(s: PatternStep, events: seq<Event>, at: seq<nat>, pos: nat)
    requires Suits(s, events, at) && (s.maxRepeats.Some? ==> |at| < s.maxRepeats.value) && pos < |events| && StepMatches(s, events[pos])
    ensures Suits(s, events, at + [pos])
  {}

  lemma RestEnds(steps: seq<PatternStep>, within: int, events: seq<Event>, k: nat, pos: nat, base: seq<nat>, at: seq<nat>, d: Derivation)
    requires k < |steps| && Suits(steps[k], events, at) && d != [] && d[0] == Taken(at)
    ensures RestOf(steps, within, events, k, pos, base, at, d) <==>
      |at| >= steps[k].minRepeats && Rest(steps, within, events, k + 1, pos, base + at, d[1..])
  {
    FitCons(steps, events, k, d);
    assert Flat(d) == at + Flat(d[1..]) && Flat(d)[|at|..] == Flat(d[1..]);
    assert base + Flat(d) == base + at + Flat(d[1..]);
  }

  lemma {:induction false} NextExact(steps: seq<PatternStep>, within: int, events: seq<Event>, k: nat, pos: nat, base: seq<nat>, at: seq<nat>, d: Derivation)
    requires k < |steps| && pos <= |events| && Suits(steps[k], events, at)
    ensures (steps[k].maxRepeats.Some? ==> |at| < steps[k].maxRepeats.value) ==>
      (d in Next(steps, within, events, k, pos, base, at) <==>
        RestOf(steps, within, events, k, pos, base, at, d) && |d[0].at| > |at|)
    decreases |steps| - k, |events| - pos, 0
  {
    hide RestOf, Picks, Suits, More, Fresh;
    if steps[k].maxRepeats.Some? ==> |at| < steps[k].maxRepeats.value {
      RestStep(steps, within, events, k, pos, base, at, d);
      RestOfShape(steps, within, events, k, pos, base, at, d);
      if pos < |events| {
        NextExact(steps, within, events, k, pos + 1, base, at, d);
        RestOfShape(steps, within, events, k, pos + 1, base, at, d);
        RestOfShape(steps, within, events, k, pos + 1, base, at + [pos], d);
        if StepMatches(steps[k], events[pos]) {
          SuitsMore(steps[k], events, at, pos);
          MoreExact(steps, within, events, k, pos + 1, base, at + [pos], d);
        }
      }
    }
  }

  /** The next event of the block is the one at pos, or comes later. */
  lemma RestStep(steps: seq<PatternStep>, within: int, events: seq<Event>, k: nat, pos: nat, base: seq<nat>, at: seq<nat>, d: Derivation)
    requires k < |steps| && pos <= |events|
    ensures RestOf(steps, within, events, k, pos, base, at, d) && |d[0].at| > |at| <==>
      && pos < |events|
      && ((StepMatches(steps[k], events[pos]) && Fresh(within, Picks(events, base + at), events[pos])
           && RestOf(steps, within, events, k, pos + 1, base, at + [pos], d))
          || (RestOf(steps, within, events, k, pos + 1, base, at, d) && |d[0].at| > |at|))
  {
    hide RestOf, Picks, Fresh;
    RestOfShape(steps, within, events, k, pos, base, at, d);
    RestOfShape(steps, within, events, k, pos + 1, base, at, d);
    RestOfShape(steps, within, events, k, pos + 1, base, at + [pos], d);
    if d != [] && d[0].Taken? && at <= d[0].at && |d[0].at| > |at| {
      RestTaken(steps, within, events, k, pos, base, at, d);
      RestTaken(steps, within, events, k, pos + 1, base, at, d);
    }
    assert (at + [pos])[|at|] == pos;
    if RestOf(steps, within, events, k, pos, base, at, d) { RestSuits(steps, within, events, k, pos, base, at, d); }
  }

  /** What RestOf says of the next event the block takes. */
  lemma RestTaken(steps: seq<PatternStep>, within: int, events: seq<Event>, k: nat, pos: nat, base: seq<nat>, at: seq<nat>, d: Derivation)
    requires k < |steps| && d != [] && d[0].Taken? && at <= d[0].at && |d[0].at| > |at|
    ensures var x := d[0].at[|at|];
      RestOf(steps, within, events, k, pos, base, at, d) <==>
      pos <= x < |events| && Fresh(within, Picks(events, base + at), events[x]) && RestOf(steps, within, events, k, x + 1, base, at + [x], d)
  {
    hide Rising, Fit, Picks, Fresh;
    var f, n, x := Flat(d), |at|, d[0].at[|at|];
    assert f == d[0].at + Flat(d[1..]) && f[n] == x && f[n..][1..] == f[n + 1..];
    assert d[0].at[..n + 1] == at + [x] && base + (at + [x]) == base + at + [x];
    RisingCons(f[n..], pos, |events|);
    if x < |events| {
      PicksCons(events, f[n..]);
      OnePicked(events, base + at, x);
    }
  }

  lemma PicksCons(events: seq<Event>, at: seq<nat>)
    requires at != [] && at[0] < |events|
    ensures Picks(events, at) == [events[at[0]]] + Picks(events, at[1..])
  {}

  lemma RisingCons(s: seq<nat>, pos: nat, to: nat)
    requires s != []
    ensures Rising(s, pos, to) <==> pos <= s[0] < to && Rising(s[1..], s[0] + 1, to)
  {
    var t := s[1..];
    assert forall i :: 0 <= i < |t| ==> t[i] == s[i + 1];
    if pos <= s[0] < to && Rising(t, s[0] + 1, to) {
      forall i, j | 0 <= i < j < |s| ensures s[i] < s[j] { assert s[j] == t[j - 1]; if i > 0 { assert s[i] == t[i - 1]; } }
      forall i | 0 <= i < |s| ensures pos <= s[i] < to { if i > 0 { assert s[i] == t[i - 1]; } }
    }
  }

  lemma AllowedFollows(within: int, p: seq<Event>)
    ensures Allowed(within, p) <==> p != [] && Follows(within, [], p)
  {
    if p != [] {
      var c := p[1..];
      assert p == [p[0]] + c && [] + [p[0]] == [p[0]];
      FollowsExact(within, [p[0]], c);
      DistinctCons(p[0], c);
      InWindowCons(within, p[0].time, p[0], c);
      hide Follows;
      assert Follows(within, [], p) <==> 0 <= within && Follows(within, [p[0]], c) by { FirstFollows(within, p); }
    }
  }

  lemma FirstFollows(within: int, p: seq<Event>)
    requires p != []
    ensures Follows(within, [], p) <==> 0 <= within && Follows(within, [p[0]], p[1..])
  {
    assert [] + [p[0]] == [p[0]];
  }

  lemma DerivesIsRest(steps: seq<PatternStep>, within: int, events: seq<Event>, d: Derivation)
    ensures Derives(steps, within, events, d) <==> Rest(steps, within, events, 0, 0, [], d)
  {
    assert [] + Flat(d) == Flat(d) && Picks(events, []) == [];
    AllowedFollows(within, Picks(events, Flat(d)));
  }

  /** The enumeration lists the derivations, each once and in their order. */
  lemma DerivationsListed(steps: seq<PatternStep>, within: int, events: seq<Event>) returns (ds: seq<Derivation>)
    ensures (forall d :: d in ds <==> Derives(steps, within, events, d)) && InOrder(ds)
    ensures var ps := Rec(steps, within, 0, events, []);
      |ps| == |ds| && forall i :: 0 <= i < |ds| ==> ps[i] == Picks(events, Flat(ds[i]))
  {
    hide Derives, Rest, ComesBefore, Rec;
    ds := All(steps, within, events, 0, 0, []);
    forall d ensures d in ds <==> Derives(steps, within, events, d) {
      AllExact(steps, within, events, 0, 0, [], d);
      DerivesIsRest(steps, within, events, d);
    }
    AllInOrder(steps, within, events, 0, 0, []);
    AllSpells(steps, within, events, 0, 0, []);
    assert events[0..] == events && Picks(events, []) == [];
    forall i | 0 <= i < |ds| ensures [] + Flat(ds[i]) == Flat(ds[i]) {}
  }

  // ---- The order settles the list ----

  lemma FirstDifference<T>(a: seq<T>, b: seq<T>, i: nat, j: nat)
    requires i < |a| && i < |b| && a[..i] == b[..i] && a[i] != b[i]
    requires j < |a| && j < |b| && a[..j] == b[..j] && a[j] != b[j]
    ensures i == j
  {
    assert forall n :: 0 <= n < i ==> a[..i][n] == a[n] && b[..i][n] == b[n];
    assert forall n :: 0 <= n < j ==> a[..j][n] == a[n] && b[..j][n] == b[n];
  }

  lemma SoonerOneWay(a: seq<nat>, b: seq<nat>)
    requires Sooner(a, b)
    ensures !Sooner(b, a) && a != b
  {
    if i :| 0 <= i < |a| && i < |b| && a[..i] == b[..i] && a[i] < b[i] {
      forall j | 0 <= j < |b| && j < |a| && b[..j] == a[..j] && b[j] < a[j] ensures false { FirstDifference(a, b, i, j); }
    }
  }

  lemma PrecedesOneWay(a: Derivation, b: Derivation)
    requires ComesBefore(a, b)
    ensures !ComesBefore(b, a) && a != b
  {
    var k :| 0 <= k < |a| && k < |b| && a[..k] == b[..k] && BlockBefore(a[k], b[k]);
    BlockOneWay(a[k], b[k]);
    hide BlockBefore;
    forall j | 0 <= j < |b| && j < |a| && b[..j] == a[..j] && BlockBefore(b[j], a[j]) ensures false {
      BlockOneWay(b[j], a[j]);
      FirstDifference(a, b, k, j);
    }
  }

  lemma BlockOneWay(a: Block, b: Block)
    requires BlockBefore(a, b)
    ensures !BlockBefore(b, a) && a != b
  {
    if a.Taken? { SoonerOneWay(a.at, b.at); }
  }

  /** Two ordered lists of the same derivations are one list. */
  lemma {:induction false} OrderUnique(a: seq<Derivation>, b: seq<Derivation>)
    requires InOrder(a) && InOrder(b) && forall d :: d in a <==> d in b
    ensures a == b
  {
    hide ComesBefore;
    if a == [] {
      assert forall i :: 0 <= i < |b| ==> b[i] in b;
    } else {
      assert a[0] in b;
      assert b[0] in a;
      var i :| 0 <= i < |b| && b[i] == a[0];
      var j :| 0 <= j < |a| && a[j] == b[0];
      if i > 0 && j > 0 { PrecedesOneWay(a[0], a[j]); }
      Heads(a);
      Heads(b);
      OrderUnique(a[1..], b[1..]);
      assert a == [a[0]] + a[1..] && b == [b[0]] + b[1..];
    }
  }

  lemma Heads(a: seq<Derivation>)
    requires a != [] && InOrder(a)
    ensures InOrder(a[1..]) && forall d :: d in a[1..] <==> d in a && d != a[0]
  {
    hide ComesBefore;
    forall i | 0 < i < |a| ensures a[i] != a[0] { PrecedesOneWay(a[0], a[i]); }
    forall d | d in a && d != a[0] ensures d in a[1..] {
      var i :| 0 <= i < |a| && a[i] == d;
      assert a[1..][i - 1] == d;
    }
  }

  // ---- What the cap keeps ----

  /** ds are the first derivations, at most max: every other one comes after them, and there is another
      only if there are max of them. */
  ghost predicate FirstOnes(steps: seq<PatternStep>, within: int, events: seq<Event>, max: nat, ds: seq<Derivation>) {
    && InOrder(ds) && |ds| <= max && (forall d :: d in ds ==> Derives(steps, within, events, d))
    && forall d :: Derives(steps, within, events, d) && d !in ds ==> |ds| == max && forall i :: 0 <= i < |ds| ==> ComesBefore(ds[i], d)
  }

  /** The matcher returns what the first maxMatches derivations spell. */
  lemma CapKeepsFirst(steps: seq<PatternStep>, within: int, events: seq<Event>, max: nat) returns (ds: seq<Derivation>)
    ensures FirstOnes(steps, within, events, max, ds)
    ensures var out := Clip(Rec(steps, within, 0, events, []), max);
      |out| == |ds| && forall i :: 0 <= i < |ds| ==> out[i] == Picks(events, Flat(ds[i]))
  {
    hide Derives, ComesBefore, Rec;
    var all := DerivationsListed(steps, within, events);
    ds := if |all| <= max then all else all[..max];
    assert forall i :: 0 <= i < |ds| ==> ds[i] == all[i];
    forall d | d in ds ensures d in all {}
    forall d, i | d in all && d !in ds && 0 <= i < |ds| ensures ComesBefore(ds[i], d) {
      var j :| 0 <= j < |all| && all[j] == d;
    }
  }

  /** Which the first ones are is settled by that. */
  lemma FirstUnique(steps: seq<PatternStep>, within: int, events: seq<Event>, max: nat, a: seq<Derivation>, b: seq<Derivation>)
    requires FirstOnes(steps, within, events, max, a) && FirstOnes(steps, within, events, max, b)
    ensures a == b
  {
    hide Derives, ComesBefore;
    FirstWithin(steps, within, events, max, a, b);
    FirstWithin(steps, within, events, max, b, a);
    OrderUnique(a, b);
  }

  lemma FirstWithin(steps: seq<PatternStep>, within: int, events: seq<Event>, max: nat, a: seq<Derivation>, b: seq<Derivation>)
    requires FirstOnes(steps, within, events, max, a) && FirstOnes(steps, within, events, max, b)
    ensures forall d :: d in a ==> d in b
  {
    hide Derives, ComesBefore;
    forall d | d in a && d !in b ensures false {
      forall x | x in b ensures x in a {
        var j :| 0 <= j < |a| && a[j] == d;
        var i :| 0 <= i < |b| && b[i] == x;
        if x !in a { PrecedesOneWay(x, d); }
      }
      Smaller(b, a, d);
    }
  }

  lemma Smaller(b: seq<Derivation>, a: seq<Derivation>, d: Derivation)
    requires InOrder(a) && InOrder(b) && (forall x :: x in b ==> x in a) && d in a && d !in b
    ensures |b| < |a|
  {
    MembersCount(a);
    MembersCount(b);
    var x, y := set e | e in a, set e | e in b;
    assert x == y + (x - y) && d in x - y;
  }

  lemma {:induction false} MembersCount(s: seq<Derivation>)
    requires InOrder(s)
    ensures |set e | e in s| == |s|
  {
    if s != [] {
      Heads(s);
      MembersCount(s[1..]);
      assert (set e | e in s) == (set e | e in s[1..]) + {s[0]};
    }
  }

  /** Over ascending events a path has a derivation exactly when it is a valid match. */
  lemma MatchesDerived(steps: seq<PatternStep>, within: int, events: seq<Event>, p: seq<Event>)
    requires Ascending(events)
    ensures ValidMatch(steps, within, events, p) <==> exists d :: Derives(steps, within, events, d) && p == Picks(events, Flat(d))
  {
    hide Derives, ValidMatch, Rec;
    EnumerationExact(steps, within, events, p);
    var ds := DerivationsListed(steps, within, events);
    if p in Rec(steps, within, 0, events, []) {
      var i :| 0 <= i < |ds| && Rec(steps, within, 0, events, [])[i] == p;
      assert ds[i] in ds;
    }
    if d :| Derives(steps, within, events, d) && p == Picks(events, Flat(d)) {
      var i :| 0 <= i < |ds| && ds[i] == d;
    }
  }
}
