/** The standing runtime's backtracking matcher: a query's steps, each with repeat bounds, are
    matched against a time-ordered list of events. */
module Matcher {
  import opened Events

  datatype PatternStep = PatternStep(aliases: seq<string>, minRepeats: nat, maxRepeats: Option<nat>)

  predicate StepMatches(s: PatternStep, e: Event) {
    e.eventType in s.aliases
  }

  predicate InBounds(s: PatternStep, n: nat) {
    s.minRepeats <= n && (s.maxRepeats.Some? ==> n <= s.maxRepeats.value)
  }

  // ---- What a match is ----

  predicate AllMatch(s: PatternStep, p: seq<Event>) {
    forall i :: 0 <= i < |p| ==> StepMatches(s, p[i])
  }

  /** p falls into consecutive blocks, one per step from step k on, each within its bounds. */
  ghost predicate Splits(steps: seq<PatternStep>, k: nat, p: seq<Event>)
    decreases |steps| - k
  {
    if k >= |steps| then p == []
    else exists m: nat :: m <= |p| && InBounds(steps[k], m) && AllMatch(steps[k], p[..m]) && Splits(steps, k + 1, p[m..])
  }

  ghost predicate DistinctIds(p: seq<Event>) {
    forall i, j :: 0 <= i < j < |p| ==> p[i].id != p[j].id
  }

  /** p is a non-empty ascending selection of events that splits into the steps' blocks and spans
      at most `within`. */
  ghost predicate ValidMatch(steps: seq<PatternStep>, within: int, events: seq<Event>, p: seq<Event>) {
    && p != [] && Ascending(p) && DistinctIds(p) && (forall i :: 0 <= i < |p| ==> p[i] in events)
    && Splits(steps, 0, p) && p[|p| - 1].time - p[0].time <= within
  }

  // ---- The uncapped enumeration ----

  /** ev may follow path: inside the window its first event opened, and not used yet. */
  predicate Fresh(within: int, path: seq<Event>, ev: Event) {
    var start := if path == [] then ev.time else path[0].time;
    start <= ev.time && ev.time - start <= within && forall i :: 0 <= i < |path| ==> path[i].id != ev.id
  }

  function Rec(steps: seq<PatternStep>, within: int, k: nat, rest: seq<Event>, path: seq<Event>): seq<seq<Event>>
    decreases |steps| - k, |rest|, 2
  {
    if k >= |steps| then (if path == [] then [] else [path])
    else
      (if steps[k].minRepeats == 0 then Rec(steps, within, k + 1, rest, path) else [])
      + Consume(steps, within, k, 0, rest, path)
  }

  function Consume(steps: seq<PatternStep>, within: int, k: nat, reps: nat, rest: seq<Event>, path: seq<Event>): seq<seq<Event>>
    requires k < |steps|
    decreases |steps| - k, |rest|, 1
  {
    (if reps >= steps[k].minRepeats then Rec(steps, within, k + 1, rest, path) else [])
    + if steps[k].maxRepeats.Some? && reps >= steps[k].maxRepeats.value then [] else Pick(steps, within, k, reps, rest, path)
  }

  function Pick(steps: seq<PatternStep>, within: int, k: nat, reps: nat, rest: seq<Event>, path: seq<Event>): seq<seq<Event>>
    requires k < |steps|
    decreases |steps| - k, |rest|, 0
  {
    if rest == [] then []
    else
      Try(steps, within, k, reps, rest, path) + Pick(steps, within, k, reps, rest[1..], path)
  }

  /** The matches that use rest[0] next, if it fits. */
  function Try(steps: seq<PatternStep>, within: int, k: nat, reps: nat, rest: seq<Event>, path: seq<Event>): seq<seq<Event>>
    requires k < |steps| && rest != []
    decreases |steps| - k, |rest| - 1, 2
  {
    if StepMatches(steps[k], rest[0]) && Fresh(within, path, rest[0])
    then Consume(steps, within, k, reps + 1, rest[1..], path + [rest[0]]) else []
  }

  // ---- Soundness and completeness of the enumeration ----

  predicate Sublist(c: seq<Event>, rest: seq<Event>)
    decreases |rest|
  {
    c == [] || (rest != [] && ((c[0] == rest[0] && Sublist(c[1..], rest[1..])) || Sublist(c, rest[1..])))
  }

  predicate Follows(within: int, path: seq<Event>, c: seq<Event>)
    decreases |c|
  {
    c == [] || (Fresh(within, path, c[0]) && Follows(within, path + [c[0]], c[1..]))
  }

  /** c completes path from step k on, `reps` events of step k being matched already. */
  ghost predicate Completes(steps: seq<PatternStep>, k: nat, reps: nat, c: seq<Event>)
    requires k < |steps|
  {
    exists m: nat :: CutAt(steps, k, reps, c, m)
  }

  /** The first m events of c fill up step k's block, the others serve the later steps. */
  ghost predicate CutAt(steps: seq<PatternStep>, k: nat, reps: nat, c: seq<Event>, m: nat)
    requires k < |steps|
  {
    m <= |c| && InBounds(steps[k], reps + m) && AllMatch(steps[k], c[..m]) && Splits(steps, k + 1, c[m..])
  }

  lemma CutShift(steps: seq<PatternStep>, k: nat, reps: nat, c: seq<Event>, m: nat)
    requires k < |steps| && c != []
    ensures CutAt(steps, k, reps, c, m + 1) <==> StepMatches(steps[k], c[0]) && CutAt(steps, k, reps + 1, c[1..], m)
  {
    if m < |c| {
      assert c[..m + 1] == [c[0]] + c[1..][..m] && c[m + 1..] == c[1..][m..];
      assert AllMatch(steps[k], c[..m + 1]) ==> StepMatches(steps[k], c[..m + 1][0]);
      assert forall i :: 0 <= i < m ==> c[1..][..m][i] == c[..m + 1][i + 1];
    }
  }

  lemma CompletesSteps(steps: seq<PatternStep>, k: nat, reps: nat, c: seq<Event>)
    requires k < |steps| && (steps[k].maxRepeats.Some? ==> reps <= steps[k].maxRepeats.value)
    ensures Completes(steps, k, reps, c) <==>
      (reps >= steps[k].minRepeats && Splits(steps, k + 1, c))
      || (c != [] && (steps[k].maxRepeats.Some? ==> reps < steps[k].maxRepeats.value)
          && StepMatches(steps[k], c[0]) && Completes(steps, k, reps + 1, c[1..]))
  {
    assert c[0..] == c && c[..0] == [];
    assert CutAt(steps, k, reps, c, 0) <==> InBounds(steps[k], reps) && Splits(steps, k + 1, c);
    if Completes(steps, k, reps, c) {
      var m: nat :| CutAt(steps, k, reps, c, m);
      if m > 0 { CutShift(steps, k, reps, c, m - 1); }
    }
    if c != [] && StepMatches(steps[k], c[0]) && Completes(steps, k, reps + 1, c[1..]) {
      var m: nat :| CutAt(steps, k, reps + 1, c[1..], m);
      CutShift(steps, k, reps, c, m);
    }
  }

  lemma SplitsIsCompletes(steps: seq<PatternStep>, k: nat, c: seq<Event>)
    requires k < |steps|
    ensures Splits(steps, k, c) <==> Completes(steps, k, 0, c)
  {
    if Splits(steps, k, c) {
      var m: nat :| m <= |c| && InBounds(steps[k], m) && AllMatch(steps[k], c[..m]) && Splits(steps, k + 1, c[m..]);
      assert CutAt(steps, k, 0, c, m);
    }
    if Completes(steps, k, 0, c) {
      var m: nat :| CutAt(steps, k, 0, c, m);
    }
  }

  function Tail(path: seq<Event>, p: seq<Event>): seq<Event>
    requires path <= p
  {
    p[|path|..]
  }

  ghost predicate Chosen(within: int, rest: seq<Event>, path: seq<Event>, p: seq<Event>) {
    path <= p && p != [] && Sublist(Tail(path, p), rest) && Follows(within, path, Tail(path, p))
  }

  lemma {:induction false} RecExact(steps: seq<PatternStep>, within: int, k: nat, rest: seq<Event>, path: seq<Event>, p: seq<Event>)
    ensures p in Rec(steps, within, k, rest, path) <==> Chosen(within, rest, path, p) && Splits(steps, k, Tail(path, p))
    decreases |steps| - k, |rest|, 2
  {
    if k < |steps| {
      if steps[k].minRepeats == 0 { RecExact(steps, within, k + 1, rest, path, p); }
      ConsumeExact(steps, within, k, 0, rest, path, p);
      if path <= p {
        SplitsIsCompletes(steps, k, Tail(path, p));
        CompletesSteps(steps, k, 0, Tail(path, p));
      }
    } else if path <= p {
      assert Tail(path, p) == [] <==> p == path;
    }
  }

  lemma {:induction false} ConsumeExact(steps: seq<PatternStep>, within: int, k: nat, reps: nat, rest: seq<Event>, path: seq<Event>, p: seq<Event>)
    requires k < |steps| && (steps[k].maxRepeats.Some? ==> reps <= steps[k].maxRepeats.value)
    ensures p in Consume(steps, within, k, reps, rest, path) <==>
      Chosen(within, rest, path, p) && Completes(steps, k, reps, Tail(path, p))
    decreases |steps| - k, |rest|, 1
  {
    RecExact(steps, within, k + 1, rest, path, p);
    PickExact(steps, within, k, reps, rest, path, p);
    if path <= p { CompletesSteps(steps, k, reps, Tail(path, p)); }
  }

  /** Pick takes one more event of step k, if the bounds allow. */
  lemma {:induction false} PickExact(steps: seq<PatternStep>, within: int, k: nat, reps: nat, rest: seq<Event>, path: seq<Event>, p: seq<Event>)
    requires k < |steps| && (steps[k].maxRepeats.Some? ==> reps <= steps[k].maxRepeats.value)
    ensures (steps[k].maxRepeats.Some? ==> reps < steps[k].maxRepeats.value) ==>
      (p in Pick(steps, within, k, reps, rest, path) <==>
        Chosen(within, rest, path, p) && Tail(path, p) != [] && StepMatches(steps[k], Tail(path, p)[0])
        && Completes(steps, k, reps + 1, Tail(path, p)[1..]))
    decreases |steps| - k, |rest|, 0
  {
    if (steps[k].maxRepeats.Some? ==> reps < steps[k].maxRepeats.value) && rest != [] {
      var e := rest[0];
      PickExact(steps, within, k, reps, rest[1..], path, p);
      ConsumeExact(steps, within, k, reps + 1, rest[1..], path + [e], p);
      ChosenStep(within, rest, path, p);
    }
  }

  /** A non-empty selection from rest either starts with rest[0] or is one from the remainder. */
  lemma ChosenStep(within: int, rest: seq<Event>, path: seq<Event>, p: seq<Event>)
    requires rest != []
    ensures Chosen(within, rest, path, p) && Tail(path, p) != [] <==>
      (Fresh(within, path, rest[0]) && Chosen(within, rest[1..], path + [rest[0]], p))
      || (Chosen(within, rest[1..], path, p) && Tail(path, p) != [])
    ensures path + [rest[0]] <= p ==> path <= p && Tail(path, p) == [rest[0]] + Tail(path + [rest[0]], p)
  {
    var e := rest[0];
    if path <= p && Tail(path, p) != [] {
      var c := Tail(path, p);
      assert p == path + c;
      if c[0] == e {
        assert p == path + [e] + c[1..];
        assert Tail(path + [e], p) == c[1..];
      }
    }
    if path + [e] <= p {
      assert p == path + [e] + Tail(path + [e], p);
      assert Tail(path, p) == [e] + Tail(path + [e], p);
      assert Tail(path, p)[1..] == Tail(path + [e], p);
    }
  }

  lemma {:induction false} SublistExact(c: seq<Event>, rest: seq<Event>)
    requires Ascending(rest)
    ensures Sublist(c, rest) <==> Ascending(c) && forall i :: 0 <= i < |c| ==> c[i] in rest
  {
    if rest != [] && c != [] {
      var e, t := rest[0], rest[1..];
      SublistExact(c, t);
      SublistExact(c[1..], t);
      if Sublist(c, t) {
        forall i | 0 <= i < |c| ensures c[i] in rest { assert c[i] in t; }
      } else if c[0] == e && Sublist(c[1..], t) {
        assert c == [e] + c[1..];
        forall i | 0 <= i < |c| ensures c[i] in rest && (i > 0 ==> Before(e, c[i])) {
          if i > 0 { assert c[1..][i - 1] in t; }
        }
      }
      if Ascending(c) && forall i :: 0 <= i < |c| ==> c[i] in rest {
        forall i | 1 <= i < |c| ensures c[i] in t { assert c[i] in rest && Before(c[0], c[i]) && c[0] in rest; }
        if c[0] == e {
          forall i | 0 <= i < |c[1..]| ensures c[1..][i] in t {}
        } else {
          forall i | 0 <= i < |c| ensures c[i] in t {}
        }
      }
    }
    HasHead(c);
  }

  lemma {:induction false} SublistShort(c: seq<Event>, rest: seq<Event>)
    requires Sublist(c, rest)
    ensures |c| <= |rest|
    decreases |rest|
  {
    if c != [] {
      if Sublist(c, rest[1..]) { SublistShort(c, rest[1..]); } else { SublistShort(c[1..], rest[1..]); }
    }
  }

  lemma {:induction false} SublistFull(c: seq<Event>, rest: seq<Event>)
    requires Sublist(c, rest) && |c| == |rest|
    ensures c == rest
    decreases |rest|
  {
    if c != [] {
      if Sublist(c, rest[1..]) { SublistShort(c, rest[1..]); } else { SublistFull(c[1..], rest[1..]); }
    }
  }

  predicate InWindow(within: int, start: int, c: seq<Event>) {
    forall i :: 0 <= i < |c| ==> start <= c[i].time && c[i].time - start <= within
  }

  predicate NoClash(path: seq<Event>, c: seq<Event>) {
    forall i, j :: 0 <= i < |path| && 0 <= j < |c| ==> path[i].id != c[j].id
  }

  lemma DistinctCons(e: Event, c: seq<Event>)
    ensures DistinctIds([e] + c) <==> DistinctIds(c) && NoClash([e], c)
  {
    var p := [e] + c;
    assert forall i :: 0 <= i < |c| ==> p[i + 1] == c[i];
    if DistinctIds(p) {
      forall j | 0 <= j < |c| ensures e.id != c[j].id { assert p[0].id != p[j + 1].id; }
      forall i, j | 0 <= i < j < |c| ensures c[i].id != c[j].id { assert p[i + 1].id != p[j + 1].id; }
    }
    if NoClash([e], c) {
      forall j | 0 <= j < |c| ensures e.id != c[j].id { assert [e][0].id != c[j].id; }
    }
  }

  lemma NoClashStep(path: seq<Event>, e: Event, c: seq<Event>)
    ensures NoClash(path, [e] + c) && NoClash([e], c) <==> NoClash(path + [e], c) && NoClash(path, [e])
  {
    var p, d := path + [e], [e] + c;
    assert forall i :: 0 <= i < |path| ==> p[i] == path[i];
    assert p[|path|] == e && d[0] == e && [e][0] == e;
    assert forall j :: 0 <= j < |c| ==> d[j + 1] == c[j];
  }

  lemma {:induction false} FollowsExact(within: int, path: seq<Event>, c: seq<Event>)
    requires path != []
    ensures Follows(within, path, c) <==> InWindow(within, path[0].time, c) && NoClash(path, c) && DistinctIds(c)
    decreases |c|
  {
    if c != [] {
      hide NoClash, DistinctIds, InWindow, Fresh;
      var e, d := c[0], c[1..];
      assert c == [e] + d && (path + [e])[0] == path[0];
      FollowsExact(within, path + [e], d);
      NoClashStep(path, e, d);
      DistinctCons(e, d);
      FreshMeans(within, path, e);
      InWindowCons(within, path[0].time, e, d);
    }
  }

  lemma FreshMeans(within: int, path: seq<Event>, e: Event)
    requires path != []
    ensures Fresh(within, path, e) <==> InWindow(within, path[0].time, [e]) && NoClash(path, [e])
  {
    assert [e][0] == e;
  }

  lemma InWindowCons(within: int, start: int, e: Event, d: seq<Event>)
    ensures InWindow(within, start, [e] + d) <==> InWindow(within, start, d) && InWindow(within, start, [e])
  {
    var c := [e] + d;
    assert forall i :: 0 <= i < |d| ==> c[i + 1] == d[i];
    if InWindow(within, start, c) {
      forall i | 0 <= i < |d| ensures d[i].time - start <= within { assert c[i + 1] == d[i]; }
      assert c[0] == e;
    }
  }

  /** An ascending path is in the window its first event opened exactly when its last event is. */
  lemma WindowOfAscending(within: int, p: seq<Event>)
    requires p != [] && Ascending(p)
    ensures 0 <= within && InWindow(within, p[0].time, p[1..]) <==> p[|p| - 1].time - p[0].time <= within
  {
    var c := p[1..];
    assert forall i :: 0 <= i < |c| ==> c[i] == p[i + 1];
    if |c| > 0 {
      assert c[|c| - 1] == p[|p| - 1];
      assert forall i :: 0 <= i < |p| ==> p[0].time <= p[i].time <= p[|p| - 1].time;
    }
  }

  lemma PathFollows(within: int, p: seq<Event>)
    requires p != [] && Ascending(p)
    ensures Follows(within, [], p) <==> DistinctIds(p) && p[|p| - 1].time - p[0].time <= within
  {
    hide Ascending, DistinctIds, InWindow, NoClash;
    var c := p[1..];
    assert p == [p[0]] + c && [] + [p[0]] == [p[0]];
    FollowsExact(within, [p[0]], c);
    DistinctCons(p[0], c);
    WindowOfAscending(within, p);
    assert Follows(within, [], p) <==> 0 <= within && Follows(within, [p[0]], c);
  }

  /** The enumeration over an ascending event list is exactly the set of valid matches. */
  lemma EnumerationExact(steps: seq<PatternStep>, within: int, events: seq<Event>, p: seq<Event>)
    requires Ascending(events)
    ensures p in Rec(steps, within, 0, events, []) <==> ValidMatch(steps, within, events, p)
  {
    hide Follows, Sublist, Splits, Rec, Ascending, DistinctIds;
    RecExact(steps, within, 0, events, [], p);
    assert Tail([], p) == p;
    SublistExact(p, events);
    if p != [] && Ascending(p) { PathFollows(within, p); }
  }

  // ---- The matcher itself ----

  function Clip(s: seq<seq<Event>>, n: nat): seq<seq<Event>> { if |s| <= n then s else s[..n] }

  lemma ClipClip(a: seq<seq<Event>>, b: seq<seq<Event>>, c: seq<seq<Event>>, n: nat)
    ensures Clip(Clip(a + b, n) + c, n) == Clip(a + (b + c), n)
  {
    assert a + (b + c) == a + b + c;
  }

  function StartOf(path: seq<Event>): Option<int> { if path == [] then None else Some(path[0].time) }

  /** The closures of the matcher share the list of matches found so far. */
  class Search {
    const steps: seq<PatternStep>
    const within: int
    const events: seq<Event>
    const maxMatches: nat
    var out: seq<seq<Event>>

    constructor (steps: seq<PatternStep>, within: int, events: seq<Event>, maxMatches: nat)
      ensures this.steps == steps && this.within == within && this.events == events && this.maxMatches == maxMatches
      ensures out == []
    {
      this.steps, this.within, this.events, this.maxMatches := steps, within, events, maxMatches;
      out := [];
    }

    method Recurse(stepIdx: nat, startPos: nat, path: seq<Event>, startTime: Option<int>)
      requires startPos <= |events| && startTime == StartOf(path) && |out| <= maxMatches
      modifies this
      ensures out == Clip(old(out) + Rec(steps, within, stepIdx, events[startPos..], path), maxMatches)
      decreases |steps| - stepIdx, |events| - startPos, 2
    {
      if |out| >= maxMatches { return; }
      if stepIdx >= |steps| {
        if path != [] { out := out + [path]; }
        return;
      }
      var step := steps[stepIdx];
      ghost var out0 := out;
      ghost var skipped := if step.minRepeats == 0 then Rec(steps, within, stepIdx + 1, events[startPos..], path) else [];
      if step.minRepeats == 0 {
        Recurse(stepIdx + 1, startPos, path, startTime);
      }
      assert out == Clip(out0 + skipped, maxMatches);
      ClipClip(out0, skipped, Consume(steps, within, stepIdx, 0, events[startPos..], path), maxMatches);
      var maxRep := if step.maxRepeats.Some? then step.maxRepeats.value
                    else if |events| - startPos > 1 then |events| - startPos else 1;
      ConsumeRepeats(stepIdx, maxRep, startPos, startPos, 0, path, startTime);
    }

    /** maxRep stands for no bound when the step has none: there are not enough events to reach it. */
    method ConsumeRepeats(stepIdx: nat, maxRep: nat, ghost startPos: nat, pos: nat, repsDone: nat, curPath: seq<Event>, curStart: Option<int>)
      requires stepIdx < |steps| && startPos <= pos <= |events| && curStart == StartOf(curPath) && |out| <= maxMatches
      requires if steps[stepIdx].maxRepeats.Some? then maxRep == steps[stepIdx].maxRepeats.value
               else maxRep >= 1 && maxRep >= |events| - startPos && repsDone <= pos - startPos
      modifies this
      ensures out == Clip(old(out) + Consume(steps, within, stepIdx, repsDone, events[pos..], curPath), maxMatches)
      decreases |steps| - stepIdx, |events| - pos, 1
    {
      hide Rec, Pick;
      if |out| >= maxMatches { return; }
      var step := steps[stepIdx];
      ghost var out0 := out;
      ghost var left := if repsDone >= step.minRepeats then Rec(steps, within, stepIdx + 1, events[pos..], curPath) else [];
      if repsDone >= step.minRepeats {
        Recurse(stepIdx + 1, pos, curPath, curStart);
      }
      assert out == Clip(out0 + left, maxMatches);
      if repsDone >= maxRep {
        PickNothing(stepIdx, repsDone, pos, curPath);
        return;
      }
      ClipClip(out0, left, Pick(steps, within, stepIdx, repsDone, events[pos..], curPath), maxMatches);
      TryEvents(stepIdx, maxRep, startPos, pos, repsDone, curPath, curStart);
    }

    lemma PickNothing(k: nat, reps: nat, pos: nat, path: seq<Event>)
      requires k < |steps| && pos <= |events|
      ensures pos == |events| ==> Pick(steps, within, k, reps, events[pos..], path) == []
    {}

    /** The loop of consume_repeats. */
    method TryEvents(stepIdx: nat, maxRep: nat, ghost startPos: nat, pos: nat, repsDone: nat, curPath: seq<Event>, curStart: Option<int>)
      requires stepIdx < |steps| && startPos <= pos <= |events| && curStart == StartOf(curPath) && |out| <= maxMatches
      requires if steps[stepIdx].maxRepeats.Some? then maxRep == steps[stepIdx].maxRepeats.value
               else maxRep >= 1 && maxRep >= |events| - startPos && repsDone <= pos - startPos
      modifies this
      ensures out == Clip(old(out) + Pick(steps, within, stepIdx, repsDone, events[pos..], curPath), maxMatches)
      decreases |steps| - stepIdx, |events| - pos, 0
    {
      ghost var target := Clip(out + Pick(steps, within, stepIdx, repsDone, events[pos..], curPath), maxMatches);
      for i := pos to |events|
        invariant |out| <= maxMatches
        invariant Clip(out + Pick(steps, within, stepIdx, repsDone, events[i..], curPath), maxMatches) == target
      {
        assert events[i..][1..] == events[i + 1..];
        ClipClip(out, Try(steps, within, stepIdx, repsDone, events[i..], curPath),
                 Pick(steps, within, stepIdx, repsDone, events[i + 1..], curPath), maxMatches);
        TryEvent(stepIdx, maxRep, startPos, i, repsDone, curPath, curStart);
      }
      assert events[|events|..] == [];
    }

    /** The body of that loop. */
    method TryEvent(stepIdx: nat, maxRep: nat, ghost startPos: nat, i: nat, repsDone: nat, curPath: seq<Event>, curStart: Option<int>)
      requires stepIdx < |steps| && startPos <= i < |events| && curStart == StartOf(curPath) && |out| <= maxMatches
      requires if steps[stepIdx].maxRepeats.Some? then maxRep == steps[stepIdx].maxRepeats.value
               else maxRep >= 1 && maxRep >= |events| - startPos && repsDone <= i - startPos
      modifies this
      ensures out == Clip(old(out) + Try(steps, within, stepIdx, repsDone, events[i..], curPath), maxMatches)
      decreases |steps| - stepIdx, |events| - i - 1, 2
    {
      var ev := events[i];
      assert events[i..][0] == ev && events[i..][1..] == events[i + 1..];
      assert out + [] == out;
      if !StepMatches(steps[stepIdx], ev) { return; }
      var effectiveStart := if curStart.None? then ev.time else curStart.value;
      if ev.time < effectiveStart { return; }
      if ev.time - effectiveStart > within { return; }
      if exists k :: 0 <= k < |curPath| && curPath[k].id == ev.id { return; }
      ConsumeRepeats(stepIdx, maxRep, startPos, i + 1, repsDone + 1, curPath + [ev], Some(effectiveStart));
    }
  }

  /** At most maxMatches matches: the first ones of the enumeration over the sorted events. */
  method MatchQueryPaths(steps: seq<PatternStep>, within: int, events: seq<Event>, maxMatches: nat) returns (out: seq<seq<Event>>)
    ensures out == Clip(Rec(steps, within, 0, SortEvents(events), []), maxMatches)
  {
    var s := new Search(steps, within, SortEvents(events), maxMatches);
    s.Recurse(0, 0, [], None);
    assert SortEvents(events)[0..] == SortEvents(events);
    assert [] + Rec(steps, within, 0, SortEvents(events), []) == Rec(steps, within, 0, SortEvents(events), []);
    return s.out;
  }

  lemma SameEvents(steps: seq<PatternStep>, within: int, a: seq<Event>, b: seq<Event>, p: seq<Event>)
    requires forall e :: e in a <==> e in b
    ensures ValidMatch(steps, within, a, p) <==> ValidMatch(steps, within, b, p)
  {}

  /** Every match returned is valid; and when fewer than maxMatches are, every valid match is returned. */
  lemma FewerMeansAll(steps: seq<PatternStep>, within: int, events: seq<Event>, maxMatches: nat, p: seq<Event>)
    requires UniqueKeys(events)
    ensures var out := Clip(Rec(steps, within, 0, SortEvents(events), []), maxMatches);
      && (p in out ==> ValidMatch(steps, within, events, p))
      && (|out| < maxMatches && ValidMatch(steps, within, events, p) ==> p in out)
  {
    var s := SortEvents(events);
    SortAscending(events);
    SortMembers(events);
    forall e ensures e in s <==> e in events {
      if e in s { var i :| 0 <= i < |s| && s[i] == e; }
      if e in events { var i :| 0 <= i < |events| && events[i] == e; }
    }
    EnumerationExact(steps, within, s, p);
    SameEvents(steps, within, s, events, p);
  }
}
