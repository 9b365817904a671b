/** The native engine on the builder's graph and the standing matcher find matches from the same events. */
module Detection {
  import opened Events
  import opened Matcher
  import opened Links
  import opened SecurityGraph
  import TG = TrendGraph

  /** Steps both engines understand: one event type, once or at least once. */
  predicate Common(steps: seq<PatternStep>) {
    && steps != []
    && forall k :: 0 <= k < |steps| ==>
         |steps[k].aliases| == 1 && steps[k].minRepeats == 1 && (steps[k].maxRepeats.Some? ==> steps[k].maxRepeats.value == 1)
  }

  /** The query the native engine compiles from the steps. */
  function NativeQuery(steps: seq<PatternStep>, within: int): TG.Query
    requires Common(steps)
  {
    TG.Query(
      seq(|steps|, k requires 0 <= k < |steps| => TG.Step(steps[k].aliases[0], steps[k].maxRepeats.None?, (prev, curr) => true)),
      within, true)
  }

  // ---- The graph the builder makes of one partition ----

  function VertexOf(e: Event): TG.Vertex { TG.Vertex(e.id, e.eventType, e.time) }

  function EdgeBetween(a: Event, b: Event): TG.Edge { TG.Edge(a.id, b.id, a.time, b.time) }

  ghost predicate VerticesAre(g: TG.Graph, s: seq<Event>) {
    |g.vertices| == |s| && forall i :: 0 <= i < |s| ==> g.vertices[i] == VertexOf(s[i])
  }

  ghost predicate Onward(s: seq<Event>, x: TG.Edge) {
    exists i, j :: 0 <= i < j < |s| && x == EdgeBetween(s[i], s[j])
  }

  /** Every edge leads from an event to a later one. */
  ghost predicate Forward(g: TG.Graph, s: seq<Event>) {
    forall e :: 0 <= e < |g.edges| ==> Onward(s, g.edges[e])
  }

  /** Every event is linked to the next one if that is not further off than `within`. */
  ghost predicate NextLinked(g: TG.Graph, s: seq<Event>, within: int) {
    forall i :: 0 <= i < |s| - 1 && s[i + 1].time - s[i].time <= within ==> EdgeBetween(s[i], s[i + 1]) in g.edges
  }

  ghost predicate GoodGraph(g: TG.Graph, s: seq<Event>, within: int) {
    Ascending(s) && DistinctIds(s) && VerticesAre(g, s) && Forward(g, s) && NextLinked(g, s, within)
  }

  /** No event has the same time as its parent process's latest event and a smaller id. */
  ghost predicate ParentsFirst(s: seq<Event>) {
    forall p, c :: c in s && IsParentOf(s, p, c) && p.id != c.id ==> Before(p, c)
  }

  /** Neighbours within the window are within the gap limit too. */
  ghost predicate GapSpans(gap: Option<int>, s: seq<Event>, within: int) {
    forall i :: 0 <= i < |s| - 1 && s[i + 1].time - s[i].time <= within ==> WithinGap(gap, s[i], s[i + 1])
  }

  lemma DistinctTimesSuffice(s: seq<Event>)
    requires forall i, j :: 0 <= i < j < |s| ==> s[i].time != s[j].time
    ensures ParentsFirst(s)
  {
    forall p, c | c in s && IsParentOf(s, p, c) && p.id != c.id ensures Before(p, c) {
      var i :| 0 <= i < |s| && s[i] == p;
      var j :| 0 <= j < |s| && s[j] == c;
    }
  }

  lemma PositionsOf(s: seq<Event>, a: Event, b: Event)
    requires Ascending(s) && a in s && b in s && Before(a, b)
    ensures exists i, j :: 0 <= i < j < |s| && s[i] == a && s[j] == b
  {
    var i :| 0 <= i < |s| && s[i] == a;
    var j :| 0 <= j < |s| && s[j] == b;
    assert i < j;
  }

  /** x leads from an event to a later one. */
  ghost predicate LeadsOn(s: seq<Event>, x: EdgeMeta) {
    exists a, b :: a in s && b in s && Before(a, b) && x == EdgeMeta(a.id, b.id, x.relation, a.time, b.time)
  }

  lemma ChainLeadsOn(gap: Option<int>, c: seq<Event>, relation: string, s: seq<Event>, x: EdgeMeta)
    requires x in ChainLinks(gap, c, relation) && Ascending(c) && forall e :: e in c ==> e in s
    ensures LeadsOn(s, x)
  {
    var i :| 0 <= i < |c| - 1 && Makes(gap, c[i], c[i + 1], relation, x);
    assert c[i] in c && c[i + 1] in c && Before(c[i], c[i + 1]);
  }

  lemma ParentLeadsOn(gap: Option<int>, s: seq<Event>, x: EdgeMeta)
    requires ParentsFirst(s) && x in ParentLinks(gap, s, s)
    ensures LeadsOn(s, x)
  {
    var p, i :| 0 <= i < |s| && IsParentOf(s, p, s[i]) && Makes(gap, p, s[i], PARENT_PROCESS, x);
    assert p in s && s[i] in s && Before(p, s[i]);
  }

  lemma TemporalLeadsOn(gap: Option<int>, s: seq<Event>, x: EdgeMeta)
    requires Ascending(s) && x in TemporalLinks(gap, s, PartitionsOf(s))
    ensures LeadsOn(s, x)
  {
    assert PartitionsAscend(s);
    var p :| p in PartitionsOf(s) && x in ChainLinks(gap, OfPartition(s, p), TEMPORAL_NEXT);
    forall e | e in OfPartition(s, p) ensures e in s { OfPartitionMembers(s, p, e); }
    OfPartitionAscending(s, p);
    ChainLeadsOn(gap, OfPartition(s, p), TEMPORAL_NEXT, s, x);
  }

  lemma EntityLeadsOn(gap: Option<int>, s: seq<Event>, keys: seq<string>, x: EdgeMeta)
    requires DistinctIds(s) && x in EntityLinks(gap, s, keys)
    ensures LeadsOn(s, x)
  {
    hide ChainLinks, Group, RelationOf, ValuesOf, LeadsOn, Ascending, DistinctIds;
    var k :| 0 <= k < |keys| && x in EntityLinksFor(gap, s, keys[k], ValuesOf(s, keys[k]));
    var v :| v in ValuesOf(s, keys[k]) && x in ChainLinks(gap, Group(s, keys[k], v), RelationOf(keys[k]));
    forall e | e in Group(s, keys[k], v) ensures e in s { GroupMembers(s, keys[k], v, e); }
    GroupAscending(s, keys[k], v);
    ChainLeadsOn(gap, Group(s, keys[k], v), RelationOf(keys[k]), s, x);
  }

  lemma WantedLeadsOn(gap: Option<int>, s: seq<Event>, keys: seq<string>, x: EdgeMeta)
    requires Ascending(s) && DistinctIds(s) && ParentsFirst(s) && x in Wanted(gap, s, keys)
    ensures LeadsOn(s, x)
  {
    hide TemporalLinks, EntityLinks, ParentLinks, LeadsOn, Ascending, DistinctIds, ParentsFirst;
    if x in TemporalLinks(gap, s, PartitionsOf(s)) {
      TemporalLeadsOn(gap, s, x);
    } else if x in EntityLinks(gap, s, keys) {
      EntityLeadsOn(gap, s, keys, x);
    } else {
      ParentLeadsOn(gap, s, x);
    }
  }

  lemma {:induction false} WholePartition(s: seq<Event>, p: string)
    requires forall e :: e in s ==> e.partition == p
    ensures OfPartition(s, p) == s
  {
    if s != [] {
      assert s[0] in s && forall e :: e in s[1..] ==> e in s;
      WholePartition(s[1..], p);
    }
  }

  lemma NextWanted(gap: Option<int>, s: seq<Event>, p: string, keys: seq<string>, i: nat)
    requires i + 1 < |s| && Ascending(s) && DistinctIds(s) && (forall e :: e in s ==> e.partition == p)
    requires WithinGap(gap, s[i], s[i + 1])
    ensures EdgeMeta(s[i].id, s[i + 1].id, TEMPORAL_NEXT, s[i].time, s[i + 1].time) in Wanted(gap, s, keys)
  {
    var x := MetaOf(s[i], s[i + 1], TEMPORAL_NEXT);
    WholePartition(s, p);
    assert Before(s[i], s[i + 1]);
    assert Makes(gap, s[i], s[i + 1], TEMPORAL_NEXT, x);
    assert x in ChainLinks(gap, OfPartition(s, p), TEMPORAL_NEXT);
    assert s[i] in s && p in PartitionsOf(s);
  }

  /** Neighbours within the gap limit are linked. */
  lemma NextBuilt(gap: Option<int>, s: seq<Event>, p: string, keys: seq<string>, meta: seq<EdgeMeta>, i: nat)
    requires i + 1 < |s| && Ascending(s) && DistinctIds(s) && (forall e :: e in s ==> e.partition == p)
    requires WithinGap(gap, s[i], s[i + 1]) && Grown([], meta, Wanted(gap, s, keys))
    ensures EdgeBetween(s[i], s[i + 1]) in NativeGraph(s, meta).edges
  {
    hide Wanted, Grown;
    NextWanted(gap, s, p, keys, i);
    var x := EdgeMeta(s[i].id, s[i + 1].id, TEMPORAL_NEXT, s[i].time, s[i + 1].time);
    BuiltExactly(gap, s, keys, meta, x);
    var e :| 0 <= e < |meta| && meta[e] == x;
    assert NativeGraph(s, meta).edges[e] == EdgeBetween(s[i], s[i + 1]);
  }

  /** On one partition, if no parent comes after its child and the gap limit cuts off no neighbour in
      the window, the built graph is a good one. */
  lemma BuiltIsGood(gap: Option<int>, s: seq<Event>, p: string, keys: seq<string>, meta: seq<EdgeMeta>, within: int)
    requires Ascending(s) && DistinctIds(s) && ParentsFirst(s) && (forall e :: e in s ==> e.partition == p)
    requires GapSpans(gap, s, within) && Grown([], meta, Wanted(gap, s, keys))
    ensures GoodGraph(NativeGraph(s, meta), s, within)
  {
    hide Wanted, Grown, ParentsFirst;
    var g := NativeGraph(s, meta);
    forall e | 0 <= e < |g.edges| ensures Onward(s, g.edges[e]) {
      assert meta[e] in meta;
      BuiltExactly(gap, s, keys, meta, meta[e]);
      WantedLeadsOn(gap, s, keys, meta[e]);
      var a, b :| a in s && b in s && Before(a, b) && meta[e] == EdgeMeta(a.id, b.id, meta[e].relation, a.time, b.time);
      PositionsOf(s, a, b);
      assert g.edges[e] == EdgeBetween(a, b);
    }
    forall i | 0 <= i < |s| - 1 && s[i + 1].time - s[i].time <= within ensures EdgeBetween(s[i], s[i + 1]) in g.edges {
      NextBuilt(gap, s, p, keys, meta, i);
    }
  }

  // ---- Steps of a run ----

  lemma PositionIs(g: TG.Graph, s: seq<Event>, i: nat)
    requires DistinctIds(s) && VerticesAre(g, s) && i < |s|
    ensures TG.VPos(g, s[i].id) == i
  {
    TG.VPosFirst(g, s[i].id, i);
  }

  /** Inside the window any edge of a good graph may be taken. */
  lemma GateOpen(g: TG.Graph, q: TG.Query, s: seq<Event>, start: int, i: nat, j: nat)
    requires Ascending(s) && DistinctIds(s) && VerticesAre(g, s) && i < j < |s| && q.withinMs >= 0 && start <= s[i].time
    ensures TG.EdgeGate(g, q, s[i].id, start, EdgeBetween(s[i], s[j])) == TG.Pass <==> s[j].time - start <= q.withinMs
  {
    PositionIs(g, s, i);
    PositionIs(g, s, j);
    assert Before(s[i], s[j]);
  }

  lemma TypeOf(g: TG.Graph, s: seq<Event>, steps: seq<PatternStep>, within: int, prev: int, j: nat, k: nat)
    requires DistinctIds(s) && VerticesAre(g, s) && Common(steps) && j < |s| && k < |steps|
    ensures TG.TypeMatches(g, NativeQuery(steps, within), prev, s[j].id, k) <==> StepMatches(steps[k], s[j])
  {
    PositionIs(g, s, j);
  }

  // ---- A run's matched events form a match ----

  /** The events a run matched, skipped ones left out. */
  function Matched(g: TG.Graph, s: seq<Event>, r: TG.Run): (p: seq<Event>)
    requires VerticesAre(g, s)
  {
    match r
    case Start(v, _, _) => if v < |s| then [s[v]] else []
    case Take(prev, _, to, c) =>
      Matched(g, s, prev) + if c == TG.Skip || TG.VPos(g, to) < 0 then [] else [s[TG.VPos(g, to)]]
  }

  /** p falls into blocks for the first n steps. */
  ghost predicate SplitsTo(steps: seq<PatternStep>, n: nat, p: seq<Event>)
    requires n <= |steps|
  {
    if n == 0 then p == []
    else exists c: nat :: c <= |p| && SplitsTo(steps, n - 1, p[..c]) && InBounds(steps[n - 1], |p| - c) && AllMatch(steps[n - 1], p[c..])
  }

  /** p falls into blocks for the first n steps and the beginning of one for a repeated step. */
  ghost predicate SplitsInto(steps: seq<PatternStep>, n: nat, p: seq<Event>)
    requires n <= |steps|
  {
    exists c: nat :: CutsInto(steps, n, p, c)
  }

  ghost predicate CutsInto(steps: seq<PatternStep>, n: nat, p: seq<Event>, c: nat)
    requires n <= |steps|
  {
    && c <= |p| && SplitsTo(steps, n, p[..c])
    && (c < |p| ==> n < |steps| && steps[n].maxRepeats.None? && AllMatch(steps[n], p[c..]))
  }

  lemma AddBlock(steps: seq<PatternStep>, n: nat, block: seq<Event>, rest: seq<Event>)
    requires n < |steps| && InBounds(steps[n], |block|) && AllMatch(steps[n], block) && Splits(steps, n + 1, rest)
    ensures Splits(steps, n, block + rest)
  {
    var t, m := block + rest, |block|;
    assert t[..m] == block && t[m..] == rest;
  }

  lemma Rejoin<T>(p: seq<T>, c: nat, rest: seq<T>)
    requires c <= |p|
    ensures p[..c] + (p[c..] + rest) == p + rest
  {}

  lemma LastBlock(steps: seq<PatternStep>, n: nat, p: seq<Event>) returns (c: nat)
    requires 0 < n <= |steps| && SplitsTo(steps, n, p)
    ensures c <= |p| && SplitsTo(steps, n - 1, p[..c]) && InBounds(steps[n - 1], |p[c..]|) && AllMatch(steps[n - 1], p[c..])
  {
    c :| c <= |p| && SplitsTo(steps, n - 1, p[..c]) && InBounds(steps[n - 1], |p| - c) && AllMatch(steps[n - 1], p[c..]);
  }

  lemma {:induction false} SplitsToAll(steps: seq<PatternStep>, n: nat, p: seq<Event>, rest: seq<Event>)
    requires n <= |steps| && SplitsTo(steps, n, p) && Splits(steps, n, rest)
    ensures Splits(steps, 0, p + rest)
  {
    if n == 0 {
      assert p + rest == rest;
    } else {
      hide Splits, SplitsTo, AllMatch, InBounds;
      var c := LastBlock(steps, n, p);
      AddBlock(steps, n - 1, p[c..], rest);
      SplitsToAll(steps, n - 1, p[..c], p[c..] + rest);
      Rejoin(p, c, rest);
    }
  }

  lemma OneMore(steps: seq<PatternStep>, n: nat, p: seq<Event>, e: Event)
    requires Common(steps) && n < |steps| && SplitsInto(steps, n, p) && StepMatches(steps[n], e)
    ensures SplitsInto(steps, n + 1, p + [e])
    ensures steps[n].maxRepeats.None? ==> SplitsInto(steps, n, p + [e])
  {
    var c: nat :| CutsInto(steps, n, p, c);
    var p' := p + [e];
    assert p'[..c] == p[..c] && p'[c..] == p[c..] + [e];
    assert AllMatch(steps[n], p'[c..]);
    assert InBounds(steps[n], |p'| - c);
    assert SplitsTo(steps, n + 1, p');
    assert p'[..|p'|] == p';
    assert CutsInto(steps, n + 1, p', |p'|);
    if steps[n].maxRepeats.None? { assert CutsInto(steps, n, p', c); }
  }

  lemma FirstOne(steps: seq<PatternStep>, e: Event)
    requires Common(steps) && StepMatches(steps[0], e)
    ensures SplitsInto(steps, 1, [e])
  {
    var none: seq<Event> := [];
    assert none[..0] == [];
    assert CutsInto(steps, 0, none, 0);
    OneMore(steps, 0, [], e);
    assert [] + [e] == [e];
  }

  /** What a run's matched events look like when it waits for step n at position pos. */
  ghost predicate Progress(steps: seq<PatternStep>, within: int, s: seq<Event>, p: seq<Event>, n: nat, pos: int) {
    && p != [] && 0 <= pos < |s| && n <= |steps|
    && Ascending(p) && (forall i :: 0 <= i < |p| ==> p[i] in s)
    && (p[|p| - 1] == s[pos] || Before(p[|p| - 1], s[pos]))
    && s[pos].time - p[0].time <= within
    && SplitsInto(steps, n, p)
  }

  lemma ProgressMoves(steps: seq<PatternStep>, within: int, s: seq<Event>, p: seq<Event>, n: nat, i: nat, j: nat)
    requires Common(steps) && Ascending(s) && i < j < |s| && n < |steps| && Progress(steps, within, s, p, n, i)
    requires s[j].time - p[0].time <= within
    ensures Progress(steps, within, s, p, n, j)
    ensures StepMatches(steps[n], s[j]) ==> Progress(steps, within, s, p + [s[j]], n + 1, j)
    ensures StepMatches(steps[n], s[j]) && steps[n].maxRepeats.None? ==> Progress(steps, within, s, p + [s[j]], n, j)
  {
    hide SplitsInto, Splits;
    assert Before(s[i], s[j]);
    var p' := p + [s[j]];
    assert forall k :: 0 <= k < |p| ==> p[k] == p[|p| - 1] || Before(p[k], p[|p| - 1]);
    assert Ascending(p');
    if StepMatches(steps[n], s[j]) { OneMore(steps, n, p, s[j]); }
  }

  lemma {:induction false} RunProgress(g: TG.Graph, s: seq<Event>, steps: seq<PatternStep>, within: int, r: TG.Run)
    requires Common(steps) && Ascending(s) && DistinctIds(s) && VerticesAre(g, s) && Forward(g, s) && within >= 0
    requires TG.Partial(g, NativeQuery(steps, within), r)
    ensures TG.Origin(r) < |s| && TG.Idx(r) <= |steps|
    ensures Progress(steps, within, s, Matched(g, s, r), TG.Idx(r), TG.VPos(g, TG.Last(r)))
    ensures Matched(g, s, r)[0] == s[TG.Origin(r)] && TG.StartTime(r) == s[TG.Origin(r)].time
  {
    var q := NativeQuery(steps, within);
    if r.Start? {
      PositionIs(g, s, r.vertex);
      FirstOne(steps, s[r.vertex]);
    } else {
      RunProgress(g, s, steps, within, r.prev);
      var i, j :| 0 <= i < j < |s| && g.edges[r.edge] == EdgeBetween(s[i], s[j]);
      hide Progress, TG.EdgeGate, TG.TypeMatches;
      TakenProgress(g, s, steps, within, r, i, j);
    }
  }

  lemma {:induction false} TakenProgress(g: TG.Graph, s: seq<Event>, steps: seq<PatternStep>, within: int, r: TG.Run, i: nat, j: nat)
    requires Common(steps) && Ascending(s) && DistinctIds(s) && VerticesAre(g, s) && within >= 0
    requires r.Take? && TG.Enabled(g, NativeQuery(steps, within), r.prev, r.edge, r.choice) && i < j < |s|
    requires g.edges[r.edge] == EdgeBetween(s[i], s[j]) && r.to == s[j].id && TG.Origin(r.prev) < |s|
    requires Progress(steps, within, s, Matched(g, s, r.prev), TG.Idx(r.prev), TG.VPos(g, TG.Last(r.prev)))
    requires Matched(g, s, r.prev)[0] == s[TG.Origin(r.prev)] && TG.StartTime(r.prev) == s[TG.Origin(r.prev)].time
    ensures TG.Idx(r) <= |steps|
    ensures Progress(steps, within, s, Matched(g, s, r), TG.Idx(r), TG.VPos(g, TG.Last(r)))
    ensures Matched(g, s, r)[0] == s[TG.Origin(r)]
  {
    hide Progress, TG.EdgeGate, TG.TypeMatches;
    var q, p := NativeQuery(steps, within), Matched(g, s, r.prev);
    var n := TG.Idx(r.prev);
    PositionIs(g, s, i);
    PositionIs(g, s, j);
    LastIsHere(g, s, r.prev, i);
    StartBefore(steps, within, s, p, n, i);
    GateOpen(g, q, s, TG.StartTime(r.prev), i, j);
    TypeOf(g, s, steps, within, TG.Last(r.prev), j, n);
    assert TG.Last(r.prev) == s[i].id;
    ProgressMoves(steps, within, s, p, n, i, j);
    assert p + [] == p;
  }

  lemma StartBefore(steps: seq<PatternStep>, within: int, s: seq<Event>, p: seq<Event>, n: nat, i: nat)
    requires Progress(steps, within, s, p, n, i)
    ensures p != [] && p[0].time <= s[i].time
  {}

  lemma LastIsHere(g: TG.Graph, s: seq<Event>, r: TG.Run, i: nat)
    requires VerticesAre(g, s) && i < |s| && TG.VPos(g, TG.Last(r)) == i
    ensures TG.Last(r) == s[i].id
  {}

  lemma AscendingDistinct(p: seq<Event>, s: seq<Event>)
    requires Ascending(p) && DistinctIds(s) && forall i :: 0 <= i < |p| ==> p[i] in s
    ensures DistinctIds(p)
  {
    forall i, j | 0 <= i < j < |p| ensures p[i].id != p[j].id {
      assert Before(p[i], p[j]);
      DistinctMember(s, p[i], p[j]);
    }
  }

  /** Soundness: the events an accepting run matched are a match from the same event. */
  lemma RunIsMatch(g: TG.Graph, s: seq<Event>, steps: seq<PatternStep>, within: int, r: TG.Run)
    requires Common(steps) && GoodGraph(g, s, within) && within >= 0 && TG.Accepting(g, NativeQuery(steps, within), r)
    ensures TG.Origin(r) < |s| && Matched(g, s, r) != [] && Matched(g, s, r)[0] == s[TG.Origin(r)]
    ensures ValidMatch(steps, within, s, Matched(g, s, r))
  {
    RunProgress(g, s, steps, within, r);
    var p := Matched(g, s, r);
    AscendingDistinct(p, s);
    var c: nat :| CutsInto(steps, |steps|, p, c);
    assert p[..c] == p;
    SplitsToAll(steps, |steps|, p, []);
    assert p + [] == p;
  }

  // ---- Every match is found by the greedy run ----

  /** The step waited for after scanning l, taking every event that fits. */
  function Scan(steps: seq<PatternStep>, k: nat, l: seq<Event>): (n: nat)
    ensures k <= n
    decreases |l|
  {
    if l == [] || k >= |steps| then k
    else Scan(steps, if StepMatches(steps[k], l[0]) then k + 1 else k, l[1..])
  }

  lemma {:induction false} ScanMonotone(steps: seq<PatternStep>, k: nat, k': nat, l: seq<Event>)
    requires k <= k' <= |steps|
    ensures Scan(steps, k, l) <= Scan(steps, k', l) <= |steps|
    decreases |l|
  {
    if l != [] && k < |steps| {
      var n := if StepMatches(steps[k], l[0]) then k + 1 else k;
      if k' < |steps| {
        var n' := if StepMatches(steps[k'], l[0]) then k' + 1 else k';
        ScanMonotone(steps, n, n', l[1..]);
      } else {
        ScanMonotone(steps, n, k', l[1..]);
      }
    }
  }

  lemma {:induction false} ScanConcat(steps: seq<PatternStep>, k: nat, a: seq<Event>, b: seq<Event>)
    ensures Scan(steps, k, a + b) == Scan(steps, Scan(steps, k, a), b)
    decreases |a|
  {
    if a == [] {
      assert a + b == b;
    } else if k < |steps| {
      assert (a + b)[1..] == a[1..] + b;
      ScanConcat(steps, if StepMatches(steps[k], a[0]) then k + 1 else k, a[1..], b);
    }
  }

  /** Scanning more events gets at least as far. */
  lemma {:induction false} ScanMore(steps: seq<PatternStep>, k: nat, c: seq<Event>, l: seq<Event>)
    requires Sublist(c, l) && k <= |steps|
    ensures Scan(steps, k, c) <= Scan(steps, k, l)
    decreases |l|
  {
    if l != [] && c != [] && k < |steps| {
      var n := if StepMatches(steps[k], l[0]) then k + 1 else k;
      if c[0] == l[0] && Sublist(c[1..], l[1..]) {
        ScanMore(steps, n, c[1..], l[1..]);
      } else {
        ScanMore(steps, k, c, l[1..]);
        ScanMonotone(steps, k, n, l[1..]);
      }
    }
  }

  /** Scanning a match completes all steps. */
  lemma {:induction false} ScanMatch(steps: seq<PatternStep>, k: nat, p: seq<Event>)
    requires Common(steps) && k <= |steps| && Splits(steps, k, p)
    ensures Scan(steps, k, p) == |steps|
    ensures k < |steps| ==> p != [] && StepMatches(steps[k], p[0])
    decreases |steps| - k
  {
    hide Splits;
    if k < |steps| {
      var m := FirstBlock(steps, k, p);
      ScanMatch(steps, k + 1, p[m..]);
      var block := p[1..m];
      assert p[1..] == block + p[m..];
      ScanConcat(steps, k + 1, block, p[m..]);
      ScanMonotone(steps, k + 1, k + 1, block);
      ScanMonotone(steps, k + 1, Scan(steps, k + 1, block), p[m..]);
    }
  }

  lemma FirstBlock(steps: seq<PatternStep>, k: nat, p: seq<Event>) returns (m: nat)
    requires Common(steps) && k < |steps| && Splits(steps, k, p)
    ensures 1 <= m <= |p| && StepMatches(steps[k], p[0]) && Splits(steps, k + 1, p[m..])
  {
    m :| m <= |p| && InBounds(steps[k], m) && AllMatch(steps[k], p[..m]) && Splits(steps, k + 1, p[m..]);
    assert p[..m][0] == p[0];
  }

  /** The run that takes every event that fits: it accepts on the way, or waits at s[j] for the step
      the scan waits for. */
  lemma {:induction false} GreedyRun(g: TG.Graph, s: seq<Event>, steps: seq<PatternStep>, within: int, i: nat, j: nat) returns (r: TG.Run)
    requires Common(steps) && GoodGraph(g, s, within) && within >= 0
    requires i <= j < |s| && StepMatches(steps[0], s[i]) && s[j].time - s[i].time <= within
    ensures TG.Partial(g, NativeQuery(steps, within), r) && TG.Origin(r) == i && TG.StartTime(r) == s[i].time
    ensures TG.Accepting(g, NativeQuery(steps, within), r)
      || (TG.Last(r) == s[j].id && TG.Idx(r) == Scan(steps, 1, s[i + 1..j + 1]))
    decreases j
  {
    hide Ascending, DistinctIds, VerticesAre, Forward, NextLinked, TG.Enabled, TG.IsStart, StepMatches, Scan, Common;
    if i == j {
      r := GreedyStart(g, s, steps, within, i);
    } else {
      TimesBetween(s, i, j - 1, j);
      var prev := GreedyRun(g, s, steps, within, i, j - 1);
      if TG.Accepting(g, NativeQuery(steps, within), prev) {
        r := prev;
      } else {
        ScanNext(steps, s, i + 1, j);
        r := GreedyStep(g, s, steps, within, prev, j);
      }
    }
  }

  lemma GreedyStart(g: TG.Graph, s: seq<Event>, steps: seq<PatternStep>, within: int, i: nat) returns (r: TG.Run)
    requires Common(steps) && VerticesAre(g, s) && i < |s| && StepMatches(steps[0], s[i])
    ensures TG.Partial(g, NativeQuery(steps, within), r) && TG.Origin(r) == i && TG.StartTime(r) == s[i].time
    ensures TG.Last(r) == s[i].id && TG.Idx(r) == 1 == Scan(steps, 1, s[i + 1..i + 1])
  {
    r := TG.Start(i, s[i].id, s[i].time);
    assert s[i + 1..i + 1] == [];
  }

  lemma TimesBetween(s: seq<Event>, i: nat, k: nat, j: nat)
    requires Ascending(s) && i <= k <= j < |s|
    ensures s[i].time <= s[k].time <= s[j].time
  {
    assert i == k || Before(s[i], s[k]);
    assert k == j || Before(s[k], s[j]);
  }

  lemma ScanNext(steps: seq<PatternStep>, s: seq<Event>, from: nat, j: nat)
    requires from <= j < |s|
    ensures Scan(steps, 1, s[from..j + 1]) == Scan(steps, Scan(steps, 1, s[from..j]), [s[j]])
  {
    assert s[from..j + 1] == s[from..j] + [s[j]];
    ScanConcat(steps, 1, s[from..j], [s[j]]);
  }

  lemma GreedyStep(g: TG.Graph, s: seq<Event>, steps: seq<PatternStep>, within: int, prev: TG.Run, j: nat) returns (r: TG.Run)
    requires Common(steps) && GoodGraph(g, s, within) && within >= 0 && 0 < j < |s|
    requires TG.Partial(g, NativeQuery(steps, within), prev) && !TG.Accepting(g, NativeQuery(steps, within), prev)
    requires TG.Last(prev) == s[j - 1].id && TG.StartTime(prev) <= s[j - 1].time && s[j].time - TG.StartTime(prev) <= within
    ensures TG.Partial(g, NativeQuery(steps, within), r) && TG.Origin(r) == TG.Origin(prev) && TG.StartTime(r) == TG.StartTime(prev)
    ensures TG.Last(r) == s[j].id && TG.Idx(r) == Scan(steps, TG.Idx(prev), [s[j]])
  {
    hide GoodGraph, Common, StepMatches, Scan, TG.Enabled, TG.Partial, TG.Idx, TG.Last, TG.StartTime, TG.Origin;
    TG.IdxBounded(g, NativeQuery(steps, within), prev);
    var e := NextEdge(g, s, within, j - 1, TG.StartTime(prev));
    var n := TG.Idx(prev);
    var move := if StepMatches(steps[n], s[j]) then TG.Advance else TG.Skip;
    GreedyMay(g, s, steps, within, prev, j, e);
    r := TG.Take(prev, e, s[j].id, move);
    GoesOn(g, NativeQuery(steps, within), prev, e, move, s[j].id);
    ScanOne(steps, n, s[j]);
  }

  /** A run goes on over an edge it may take. */
  lemma GoesOn(g: TG.Graph, q: TG.Query, prev: TG.Run, e: nat, move: TG.Choice, to: int)
    requires TG.Partial(g, q, prev) && e < |g.edges| && TG.Enabled(g, q, prev, e, move) && g.edges[e].dst == to
    ensures var r := TG.Take(prev, e, to, move);
      && TG.Partial(g, q, r) && TG.Origin(r) == TG.Origin(prev) && TG.StartTime(r) == TG.StartTime(prev) && TG.Last(r) == to
      && TG.Idx(r) == TG.Idx(prev) + if move == TG.Advance then 1 else 0
  {}

  /** The edge to the next event may be taken, advancing if the event fits. */
  lemma GreedyMay(g: TG.Graph, s: seq<Event>, steps: seq<PatternStep>, within: int, prev: TG.Run, j: nat, e: nat)
    requires Common(steps) && GoodGraph(g, s, within) && within >= 0 && 0 < j < |s|
    requires TG.Idx(prev) < |steps| && e < |g.edges| && g.edges[e] == EdgeBetween(s[j - 1], s[j])
    requires TG.Last(prev) == s[j - 1].id && TG.StartTime(prev) <= s[j - 1].time && s[j].time - TG.StartTime(prev) <= within
    ensures TG.Enabled(g, NativeQuery(steps, within), prev, e, if StepMatches(steps[TG.Idx(prev)], s[j]) then TG.Advance else TG.Skip)
  {
    hide TG.EdgeGate, TG.TypeMatches, Forward, NextLinked, Ascending, DistinctIds, VerticesAre;
    var q, n := NativeQuery(steps, within), TG.Idx(prev);
    PositionIs(g, s, j - 1);
    GateOpen(g, q, s, TG.StartTime(prev), j - 1, j);
    TypeOf(g, s, steps, within, TG.Last(prev), j, n);
  }

  lemma NextEdge(g: TG.Graph, s: seq<Event>, within: int, i: nat, start: int) returns (e: nat)
    requires GoodGraph(g, s, within) && i + 1 < |s| && start <= s[i].time && s[i + 1].time - start <= within
    ensures e < |g.edges| && g.edges[e] == EdgeBetween(s[i], s[i + 1])
  {
    assert EdgeBetween(s[i], s[i + 1]) in g.edges;
    e :| e < |g.edges| && g.edges[e] == EdgeBetween(s[i], s[i + 1]);
  }

  lemma ScanOne(steps: seq<PatternStep>, k: nat, e: Event)
    requires k < |steps|
    ensures Scan(steps, k, [e]) == if StepMatches(steps[k], e) then k + 1 else k
  {
    assert [e][1..] == [];
  }

  lemma TailOfMatch(s: seq<Event>, p: seq<Event>, i: nat, j: nat)
    requires Ascending(s) && Ascending(p) && p != [] && (forall k :: 0 <= k < |p| ==> p[k] in s)
    requires i < |s| && s[i] == p[0] && j < |s| && s[j] == p[|p| - 1]
    ensures i <= j && Sublist(p[1..], s[i + 1..j + 1])
  {
    var c, l := p[1..], s[i + 1..j + 1];
    assert p[0] == p[|p| - 1] || Before(p[0], p[|p| - 1]);
    forall k | 0 <= k < |c| ensures c[k] in l {
      assert p[k + 1] in s && Before(p[0], p[k + 1]) && (p[k + 1] == s[j] || Before(p[k + 1], s[j]));
      var m :| 0 <= m < |s| && s[m] == p[k + 1];
      assert i < m <= j;
      assert l[m - i - 1] == c[k];
    }
    SublistExact(c, l);
  }

  /** Completeness: from the first event of a match there is an accepting run. */
  lemma MatchHasRun(g: TG.Graph, s: seq<Event>, steps: seq<PatternStep>, within: int, p: seq<Event>) returns (r: TG.Run)
    requires Common(steps) && GoodGraph(g, s, within) && within >= 0 && ValidMatch(steps, within, s, p)
    ensures TG.Accepting(g, NativeQuery(steps, within), r) && TG.Origin(r) < |s| && s[TG.Origin(r)] == p[0]
  {
    hide Ascending, Splits, Scan;
    var i :| 0 <= i < |s| && s[i] == p[0];
    var j :| 0 <= j < |s| && s[j] == p[|p| - 1];
    TailOfMatch(s, p, i, j);
    ScanMatch(steps, 0, p);
    ScanMore(steps, 1, p[1..], s[i + 1..j + 1]);
    ScanMonotone(steps, 1, 1, s[i + 1..j + 1]);
    assert Scan(steps, 0, p) == Scan(steps, 1, p[1..]) by { FirstScanned(steps, p); }
    r := GreedyRun(g, s, steps, within, i, j);
  }

  lemma FirstScanned(steps: seq<PatternStep>, p: seq<Event>)
    requires steps != [] && p != [] && StepMatches(steps[0], p[0])
    ensures Scan(steps, 0, p) == Scan(steps, 1, p[1..])
  {}

  /** Over one good graph the two engines detect the same starts. */
  lemma SameStarts(g: TG.Graph, s: seq<Event>, steps: seq<PatternStep>, within: int, a: Event)
    requires Common(steps) && GoodGraph(g, s, within) && within >= 0
    ensures (exists r :: TG.Accepting(g, NativeQuery(steps, within), r) && TG.Origin(r) < |s| && s[TG.Origin(r)] == a) <==>
      (exists p :: ValidMatch(steps, within, s, p) && p[0] == a)
  {
    if r :| TG.Accepting(g, NativeQuery(steps, within), r) && TG.Origin(r) < |s| && s[TG.Origin(r)] == a {
      RunIsMatch(g, s, steps, within, r);
    }
    if p :| ValidMatch(steps, within, s, p) && p[0] == a {
      var r := MatchHasRun(g, s, steps, within, p);
    }
  }

  // ---- Negative windows ----

  /** Every event is linked to the next, and no edge leads back. */
  ghost predicate FullyLinked(g: TG.Graph, s: seq<Event>) {
    && Ascending(s) && DistinctIds(s) && VerticesAre(g, s) && Forward(g, s)
    && forall i :: 0 <= i < |s| - 1 ==> EdgeBetween(s[i], s[i + 1]) in g.edges
  }

  function Span(s: seq<Event>): int { if s == [] then 0 else s[|s| - 1].time - s[0].time }

  lemma TimesInSpan(s: seq<Event>, i: nat, j: nat)
    requires Ascending(s) && i < |s| && j < |s|
    ensures s[j].time - s[i].time <= Span(s) && Span(s) >= 0
  {
    TimesBetween(s, 0, i, |s| - 1);
    TimesBetween(s, 0, j, |s| - 1);
  }

  ghost predicate NativeFrom(g: TG.Graph, s: seq<Event>, steps: seq<PatternStep>, within: int, a: Event)
    requires Common(steps)
  {
    exists r :: TG.Accepting(g, NativeQuery(steps, within), r) && TG.Origin(r) < |s| && s[TG.Origin(r)] == a
  }

  ghost predicate MatchFrom(steps: seq<PatternStep>, within: int, s: seq<Event>, a: Event) {
    exists p :: ValidMatch(steps, within, s, p) && p[0] == a
  }

  lemma {:induction false} Clock(g: TG.Graph, q: TG.Query, s: seq<Event>, r: TG.Run)
    requires VerticesAre(g, s) && TG.Partial(g, q, r)
    ensures TG.Origin(r) < |s| && TG.StartTime(r) == s[TG.Origin(r)].time
  {
    if r.Take? { Clock(g, q, s, r.prev); }
  }

  /** A negative window lets through what a window as long as the whole list does. */
  lemma NegativeGate(g: TG.Graph, s: seq<Event>, steps: seq<PatternStep>, within: int, prev: int, start: nat, e: TG.Edge)
    requires Common(steps) && within < 0 && VerticesAre(g, s) && Ascending(s) && start < |s|
    ensures TG.EdgeGate(g, NativeQuery(steps, within), prev, s[start].time, e)
      == TG.EdgeGate(g, NativeQuery(steps, Span(s)), prev, s[start].time, e)
  {
    var n := TG.VPos(g, e.dst);
    if n >= 0 { TimesInSpan(s, start, n); }
  }

  lemma {:induction false} NegativeRuns(g: TG.Graph, s: seq<Event>, steps: seq<PatternStep>, within: int, r: TG.Run)
    requires Common(steps) && within < 0 && VerticesAre(g, s) && Ascending(s)
    ensures TG.Partial(g, NativeQuery(steps, within), r) <==> TG.Partial(g, NativeQuery(steps, Span(s)), r)
  {
    hide TG.EdgeGate, TG.TypeMatches;
    var a, b := NativeQuery(steps, within), NativeQuery(steps, Span(s));
    if r.Take? {
      NegativeRuns(g, s, steps, within, r.prev);
      if TG.Partial(g, a, r.prev) && r.edge < |g.edges| {
        Clock(g, a, s, r.prev);
        NegativeGate(g, s, steps, within, TG.Last(r.prev), TG.Origin(r.prev), g.edges[r.edge]);
        SameTypes(g, steps, within, Span(s), TG.Last(r.prev), g.edges[r.edge].dst, TG.Idx(r.prev));
      }
    }
  }

  lemma SameTypes(g: TG.Graph, steps: seq<PatternStep>, within: int, within': int, prev: int, curr: int, k: nat)
    requires Common(steps)
    ensures TG.TypeMatches(g, NativeQuery(steps, within), prev, curr, k) <==> TG.TypeMatches(g, NativeQuery(steps, within'), prev, curr, k)
    ensures k < |steps| ==> NativeQuery(steps, within).steps[k].kleenePlus == NativeQuery(steps, within').steps[k].kleenePlus
  {}

  /** With a negative window the native engine finds the matches without any time limit. */
  lemma NegativeWindow(g: TG.Graph, s: seq<Event>, steps: seq<PatternStep>, within: int, a: Event)
    requires Common(steps) && within < 0 && FullyLinked(g, s)
    ensures NativeFrom(g, s, steps, within, a) <==> exists w :: MatchFrom(steps, w, s, a)
    ensures !MatchFrom(steps, within, s, a)
  {
    var w := Span(s);
    if s != [] { TimesInSpan(s, 0, 0); }
    assert GoodGraph(g, s, w);
    SameStarts(g, s, steps, w, a);
    forall r ensures TG.Accepting(g, NativeQuery(steps, within), r) <==> TG.Accepting(g, NativeQuery(steps, w), r) {
      NegativeRuns(g, s, steps, within, r);
    }
    assert NativeFrom(g, s, steps, within, a) <==> MatchFrom(steps, w, s, a);
    forall w' | MatchFrom(steps, w', s, a) ensures MatchFrom(steps, w, s, a) { UntimedFrom(steps, w', s, a); }
    forall p ensures !ValidMatch(steps, within, s, p) { SpanNotNegative(p); }
  }

  lemma UntimedFrom(steps: seq<PatternStep>, w: int, s: seq<Event>, a: Event)
    requires Ascending(s) && MatchFrom(steps, w, s, a)
    ensures MatchFrom(steps, Span(s), s, a)
  {
    var p :| ValidMatch(steps, w, s, p) && p[0] == a;
    Untimed(steps, w, s, p);
  }

  lemma Untimed(steps: seq<PatternStep>, w: int, s: seq<Event>, p: seq<Event>)
    requires Ascending(s) && ValidMatch(steps, w, s, p)
    ensures ValidMatch(steps, Span(s), s, p)
  {
    var i :| 0 <= i < |s| && s[i] == p[0];
    var j :| 0 <= j < |s| && s[j] == p[|p| - 1];
    TimesInSpan(s, i, j);
  }

  lemma SpanNotNegative(p: seq<Event>)
    ensures p != [] && Ascending(p) ==> p[|p| - 1].time - p[0].time >= 0
  {
    if |p| > 1 && Ascending(p) { assert Before(p[0], p[|p| - 1]); }
  }

  /** The engines detect the same starts on every partition. */
  ghost predicate SameDetections(steps: seq<PatternStep>, within: int)
    requires Common(steps)
  {
    forall g, s, a :: FullyLinked(g, s) ==> (NativeFrom(g, s, steps, within, a) <==> MatchFrom(steps, within, s, a))
  }

  /** One event per step, in order, each linked to the next. */
  function Sample(steps: seq<PatternStep>): seq<Event>
    requires Common(steps)
  {
    seq(|steps|, i requires 0 <= i < |steps| => Event(i, "p", steps[i].aliases[0], i, map[]))
  }

  function Chain(s: seq<Event>): TG.Graph
    requires s != []
  {
    TG.Graph(seq(|s|, i requires 0 <= i < |s| => VertexOf(s[i])),
             seq(|s| - 1, i requires 0 <= i < |s| - 1 => EdgeBetween(s[i], s[i + 1])))
  }

  lemma ChainLinked(s: seq<Event>)
    requires s != [] && Ascending(s) && DistinctIds(s)
    ensures FullyLinked(Chain(s), s)
  {
    var g := Chain(s);
    hide Ascending, DistinctIds, Onward, EdgeBetween;
    forall i | 0 <= i < |s| - 1 ensures EdgeBetween(s[i], s[i + 1]) in g.edges { assert g.edges[i] == EdgeBetween(s[i], s[i + 1]); }
    forall e | 0 <= e < |g.edges| ensures Onward(s, g.edges[e]) { NextOnward(s, e); }
  }

  lemma NextOnward(s: seq<Event>, i: nat)
    requires i + 1 < |s|
    ensures Onward(s, EdgeBetween(s[i], s[i + 1]))
  {}

  /** One event for each step. */
  lemma {:induction false} OneEach(steps: seq<PatternStep>, k: nat, p: seq<Event>)
    requires Common(steps) && k + |p| == |steps| && forall i :: 0 <= i < |p| ==> StepMatches(steps[k + i], p[i])
    ensures Splits(steps, k, p)
    decreases |p|
  {
    if p != [] {
      OneEach(steps, k + 1, p[1..]);
      assert p[..1] == [p[0]] && p == p[..1] + p[1..];
      AddBlock(steps, k, p[..1], p[1..]);
    }
  }

  lemma SampleMatches(steps: seq<PatternStep>)
    requires Common(steps)
    ensures FullyLinked(Chain(Sample(steps)), Sample(steps))
    ensures MatchFrom(steps, Span(Sample(steps)), Sample(steps), Sample(steps)[0])
  {
    var s := Sample(steps);
    ChainLinked(s);
    OneEach(steps, 0, s);
    assert ValidMatch(steps, Span(s), s, s);
  }

  /** For every pattern both engines understand, they detect the same on all partitions exactly when
      the window is not negative. */
  lemma WindowExactly(steps: seq<PatternStep>, within: int)
    requires Common(steps)
    ensures SameDetections(steps, within) <==> within >= 0
  {
    if within >= 0 {
      forall g, s, a | FullyLinked(g, s) ensures NativeFrom(g, s, steps, within, a) <==> MatchFrom(steps, within, s, a) {
        assert GoodGraph(g, s, within);
        SameStarts(g, s, steps, within, a);
      }
    } else {
      var s := Sample(steps);
      SampleMatches(steps);
      NegativeWindow(Chain(s), s, steps, within, s[0]);
      assert !(NativeFrom(Chain(s), s, steps, within, s[0]) <==> MatchFrom(steps, within, s, s[0]));
    }
  }
}
