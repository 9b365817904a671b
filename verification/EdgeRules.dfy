/** What the native engine emits and rejects, said of vertices, edges and steps alone: where a walk may
    go next, which paths are emitted, and how often each reject counter is raised. */
module EdgeRules {
  import opened TrendGraph
  import opened SearchSpec
  import opened BreadthFirst
  import opened Engines
  import opened Agreement
  import opened NativeTheorems
  import opened HybridTheorems
  import opened Parallel
  import opened NoSilentLoss

  // ---- The rules ----

  /** Vertex v is the first one with the id. */
  predicate Means(g: Graph, id: int, v: nat) {
    v < |g.vertices| && g.vertices[v].id == id && forall i :: 0 <= i < v ==> g.vertices[i].id != id
  }

  /** b is not before a, nor before the clock's start, nor further from it than the query allows. */
  predicate InTime(q: Query, start: int, a: Vertex, b: Vertex) {
    start <= b.time && a.time <= b.time && (q.withinMs >= 0 ==> b.time - start <= q.withinMs)
  }

  /** A window that is set holds the times of both ends. */
  predicate InWindow(e: Edge, a: Vertex, b: Vertex) {
    e.windowStart < e.windowEnd ==> e.windowStart <= a.time <= e.windowEnd && e.windowStart <= b.time <= e.windowEnd
  }

  /** Step k takes vertex b, which was reached from one id under another. */
  predicate Suits(q: Query, k: nat, from: int, to: int, b: Vertex) {
    k < |q.steps| && b.eventType == q.steps[k].name && q.steps[k].accepts(from, to)
  }

  /** A walk that waits for step k may take edge e and then waits for step k'. */
  ghost predicate Hop(g: Graph, q: Query, start: int, from: int, to: int, e: nat, k: nat, k': nat) {
    && k < |q.steps| && e < |g.edges| && g.edges[e].src == from && g.edges[e].dst == to
    && exists a: nat, b: nat :: Means(g, from, a) && Means(g, to, b) && HopBetween(g, q, start, g.vertices[a], g.vertices[b], e, k, k')
  }

  predicate HopBetween(g: Graph, q: Query, start: int, a: Vertex, b: Vertex, e: nat, k: nat, k': nat)
    requires k < |q.steps| && e < |g.edges|
  {
    && InTime(q, start, a, b) && InWindow(g.edges[e], a, b)
    && if Suits(q, k, a.id, b.id, b) then k' == k + 1 || (k' == k && q.steps[k].kleenePlus)
       else k' == k && q.skipTillAnyMatch
  }

  lemma MeansPosition(g: Graph, id: int, v: nat)
    ensures Means(g, id, v) <==> VPos(g, id) == v
  {
    if Means(g, id, v) { VPosFirst(g, id, v); }
    var p := VPosFrom(g, id, 0);
  }

  lemma MeansNothing(g: Graph, id: int)
    ensures VPos(g, id) < 0 <==> forall i :: 0 <= i < |g.vertices| ==> g.vertices[i].id != id
  {
    var p := VPosFrom(g, id, 0);
  }

  /** One allowed step of a run is one hop. */
  lemma ChildIsHop(g: Graph, q: Query, r: Run, c: Run)
    requires IsChild(g, q, r, c)
    ensures Hop(g, q, StartTime(r), Last(r), c.to, c.edge, Idx(r), Idx(c))
  {
    var e := g.edges[c.edge];
    var a, b := VPos(g, Last(r)), VPos(g, e.dst);
    SameId(g, Last(r), e.src);
    MeansPosition(g, Last(r), a);
    MeansPosition(g, e.dst, b);
    assert HopBetween(g, q, StartTime(r), g.vertices[a], g.vertices[b], c.edge, Idx(r), Idx(c));
  }

  lemma SameId(g: Graph, x: int, y: int)
    requires VPos(g, x) == VPos(g, y) >= 0
    ensures x == y
  {}

  /** And one hop is one allowed step. */
  lemma HopIsChild(g: Graph, q: Query, r: Run, to: int, e: nat, k': nat) returns (c: Run)
    requires Hop(g, q, StartTime(r), Last(r), to, e, Idx(r), k')
    ensures IsChild(g, q, r, c) && c.Take? && c.prev == r && c.to == to && c.edge == e && Idx(c) == k'
  {
    var a: nat, b: nat :| Means(g, Last(r), a) && Means(g, to, b) && HopBetween(g, q, StartTime(r), g.vertices[a], g.vertices[b], e, Idx(r), k');
    MeansPosition(g, Last(r), a);
    MeansPosition(g, to, b);
    var choice := if k' == Idx(r) + 1 then Advance else if Suits(q, Idx(r), Last(r), to, g.vertices[b]) then Stay else Skip;
    c := Take(r, e, to, choice);
  }

  // ---- Whole walks ----

  /** A walk along the ids p over the edges es, waiting for step ks[i] at p[i].  It starts at vertex v
      and keeps that vertex's clock until it waits for step n; then that of vertex f, the first with
      the start's id. */
  ghost predicate Walks(g: Graph, q: Query, n: nat, v: nat, f: nat, p: seq<int>, es: seq<nat>, ks: seq<nat>) {
    && v < |g.vertices| && Means(g, g.vertices[v].id, f)
    && |p| == |ks| == |es| + 1 && p[0] == g.vertices[v].id
    && q.steps != [] && g.vertices[v].eventType == q.steps[0].name && ks[0] == 1
    && forall i :: 0 <= i < |es| ==> HopAt(g, q, n, v, f, p, es, ks, i)
  }

  ghost predicate HopAt(g: Graph, q: Query, n: nat, v: nat, f: nat, p: seq<int>, es: seq<nat>, ks: seq<nat>, i: nat)
    requires v < |g.vertices| && f < |g.vertices| && i < |es| && |p| == |ks| == |es| + 1
  {
    Hop(g, q, g.vertices[if ks[i] < n then v else f].time, p[i], p[i + 1], es[i], ks[i], ks[i + 1])
  }

  function EdgesOf(r: Run): (es: seq<nat>)
    ensures |es| == Len(r) - 1
  {
    match r
    case Start(_, _, _) => []
    case Take(prev, e, _, _) => EdgesOf(prev) + [e]
  }

  function WaitsOf(r: Run): (ks: seq<nat>)
    ensures |ks| == Len(r) && ks[|ks| - 1] == Idx(r)
  {
    match r
    case Start(_, _, _) => [1]
    case Take(prev, _, _, _) => WaitsOf(prev) + [Idx(r)]
  }

  /** r is the run of that walk, on any clock. */
  ghost predicate Traces(r: Run, v: nat, p: seq<int>, es: seq<nat>, ks: seq<nat>) {
    Origin(r) == v && Path(r) == p && EdgesOf(r) == es && WaitsOf(r) == ks
  }

  lemma WalksMore(g: Graph, q: Query, n: nat, v: nat, f: nat, p: seq<int>, es: seq<nat>, ks: seq<nat>, to: int, e: nat, k: nat)
    requires |p| == |ks| == |es| + 1
    ensures Walks(g, q, n, v, f, p + [to], es + [e], ks + [k]) <==>
      && Walks(g, q, n, v, f, p, es, ks)
      && Hop(g, q, g.vertices[if ks[|es|] < n then v else f].time, p[|es|], to, e, ks[|es|], k)
  {
    hide Hop;
    var p', es', ks' := p + [to], es + [e], ks + [k];
    assert p'[0] == p[0] && ks'[0] == ks[0];
    if v < |g.vertices| && f < |g.vertices| {
      forall i | 0 <= i < |es| ensures HopAt(g, q, n, v, f, p', es', ks', i) <==> HopAt(g, q, n, v, f, p, es, ks, i) {}
      assert HopAt(g, q, n, v, f, p', es', ks', |es|) <==> Hop(g, q, g.vertices[if ks[|es|] < n then v else f].time, p[|es|], to, e, ks[|es|], k);
    }
  }

  lemma WalkStarts(g: Graph, q: Query, n: nat, v: nat, f: nat)
    requires v < |g.vertices| && Means(g, g.vertices[v].id, f)
    ensures Walks(g, q, n, v, f, [g.vertices[v].id], [], [1]) <==> IsStart(g, q, StartAt(g, v))
  {}

  /** A run of the query is a walk on one clock. */
  lemma {:induction false} PartialWalks(g: Graph, q: Query, n: nat, f: nat, r: Run)
    requires Partial(g, q, r) && Means(g, g.vertices[Start0(g, q, r)].id, f) && (r.Take? ==> Idx(r.prev) < n)
    ensures Walks(g, q, n, Origin(r), f, Path(r), EdgesOf(r), WaitsOf(r)) && StartTime(r) == g.vertices[Origin(r)].time
  {
    hide Hop, Walks;
    if r.Start? {
      WalkStarts(g, q, n, r.vertex, f);
    } else {
      if r.prev.Take? { assert Idx(r.prev.prev) <= Idx(r.prev); }
      PartialWalks(g, q, n, f, r.prev);
      ChildIsHop(g, q, r.prev, r);
      WalksMore(g, q, n, Origin(r), f, Path(r.prev), EdgesOf(r.prev), WaitsOf(r.prev), r.to, r.edge, Idx(r));
    }
  }

  function Start0(g: Graph, q: Query, r: Run): (v: nat)
    requires Partial(g, q, r)
    ensures v < |g.vertices| && v == Origin(r)
  {
    IdxBounded(g, q, r);
    Origin(r)
  }

  // ---- H-CET's runs ----

  /** The step at which the clock is restarted; a switch outside the query restarts none. */
  function Restart(q: Query, switchDepth: nat): nat {
    if 1 < switchDepth < |q.steps| then switchDepth else |q.steps|
  }

  lemma {:induction false} RebaseLists(g: Graph, r: Run)
    ensures EdgesOf(Rebase(g, r)) == EdgesOf(r) && WaitsOf(Rebase(g, r)) == WaitsOf(r)
  {
    RebaseSpells(g, r);
    if r.Take? { RebaseLists(g, r.prev); }
  }

  lemma {:induction false} PathStarts(g: Graph, q: Query, r: Run)
    requires Partial(g, q, r)
    ensures Origin(r) < |g.vertices| && Path(r)[0] == g.vertices[Origin(r)].id
  {
    if r.Take? { PathStarts(g, q, r.prev); }
  }

  /** The clock a resumed run is on. */
  lemma ResumedClock(g: Graph, q: Query, n: nat, s: Run, x: Run, f: nat)
    requires n <= |q.steps| && Resumed(g, q, n, s, x)
    requires Origin(s) < |g.vertices| && Means(g, g.vertices[Origin(s)].id, f)
    ensures StartTime(x) == g.vertices[f].time && Idx(x) >= n && Origin(x) == Origin(s)
  {
    hide Partial;
    PathStarts(g, Prefix(q, n), s);
    MeansPosition(g, g.vertices[Origin(s)].id, f);
    RebaseClock(g, s);
    RebaseSpells(g, s);
    RebaseKeepsOrigin(g, s);
    ReachesMeans(g, q, Rebase(g, s), x);
  }

  lemma {:induction false} ResumedWalks(g: Graph, q: Query, n: nat, f: nat, s: Run, x: Run)
    requires 0 < n <= |q.steps| && Resumed(g, q, n, s, x)
    requires Origin(s) < |g.vertices| && Means(g, g.vertices[Origin(s)].id, f)
    ensures Walks(g, q, n, Origin(s), f, Path(x), EdgesOf(x), WaitsOf(x))
  {
    hide Walks, Hop, Means;
    ResumedClock(g, q, n, s, x, f);
    if x == Rebase(g, s) {
      PrefixPartial(g, q, n, s);
      PartialWalks(g, q, n, f, s);
      RebaseSpells(g, s);
      RebaseLists(g, s);
    } else {
      ResumedWalks(g, q, n, f, s, x.prev);
      ResumedClock(g, q, n, s, x.prev, f);
      ChildIsHop(g, q, x.prev, x);
      WalksMore(g, q, n, Origin(s), f, Path(x.prev), EdgesOf(x.prev), WaitsOf(x.prev), x.to, x.edge, Idx(x));
    }
  }

  lemma OriginThere(g: Graph, q: Query, switchDepth: nat, x: Run)
    requires |q.steps| > 0 && HybridRun(g, q, switchDepth, x)
    ensures Origin(x) < |g.vertices|
  {
    if Partial(g, q, x) {
      IdxBounded(g, q, x);
    } else {
      var s :| Resumed(g, q, switchDepth, s, x);
      IdxBounded(g, Prefix(q, switchDepth), s);
      ResumedFacts(g, q, switchDepth, s, x);
    }
  }

  /** Every run H-CET searches is a walk. */
  lemma HybridWalks(g: Graph, q: Query, switchDepth: nat, f: nat, x: Run)
    requires |q.steps| > 0 && HybridRun(g, q, switchDepth, x) && Origin(x) < |g.vertices| && Means(g, g.vertices[Origin(x)].id, f)
    ensures Walks(g, q, Restart(q, switchDepth), Origin(x), f, Path(x), EdgesOf(x), WaitsOf(x))
  {
    hide Walks, Means;
    var n := Restart(q, switchDepth);
    if Partial(g, q, x) && (n == |q.steps| || Idx(x) < n) {
      PartialWalks(g, q, n, f, x);
    } else {
      var s :| Resumed(g, q, n, s, x);
      ResumedFacts(g, q, n, s, x);
      ResumedWalks(g, q, n, f, s, x);
    }
  }

  /** And every walk is one of the runs it searches. */
  lemma {:induction false} WalkSearched(g: Graph, q: Query, switchDepth: nat, v: nat, f: nat, p: seq<int>, es: seq<nat>, ks: seq<nat>)
    returns (r: Run)
    requires |q.steps| > 0 && Walks(g, q, Restart(q, switchDepth), v, f, p, es, ks)
    ensures HybridRun(g, q, switchDepth, r) && Traces(r, v, p, es, ks) && OnClock(g, q, switchDepth, v, f, r)
    decreases |es|
  {
    hide Hop, Resumed;
    var n := Restart(q, switchDepth);
    if es == [] {
      r := StartAt(g, v);
      assert p == [p[0]] && ks == [1];
    } else {
      var m := |es| - 1;
      var p0, es0, ks0, to, e, k := p[..m + 1], es[..m], ks[..m + 1], p[m + 1], es[m], ks[m + 1];
      assert p == p0 + [to] && es == es0 + [e] && ks == ks0 + [k];
      WalksMore(g, q, n, v, f, p0, es0, ks0, to, e, k);
      var r0 := WalkSearched(g, q, switchDepth, v, f, p0, es0, ks0);
      r := WalkGoesOn(g, q, switchDepth, v, f, r0, to, e, k);
    }
  }

  /** r is searched, and on the clock it should be on. */
  ghost predicate OnClock(g: Graph, q: Query, switchDepth: nat, v: nat, f: nat, r: Run)
    requires v < |g.vertices| && f < |g.vertices|
  {
    var n := Restart(q, switchDepth);
    && (Idx(r) < n || n == |q.steps| ==> Partial(g, q, r) && StartTime(r) == g.vertices[v].time)
    && (Idx(r) >= n && n < |q.steps| ==> StartTime(r) == g.vertices[f].time && exists s :: Resumed(g, q, n, s, r))
  }

  lemma WalkGoesOn(g: Graph, q: Query, switchDepth: nat, v: nat, f: nat, r0: Run, to: int, e: nat, k: nat) returns (r: Run)
    requires |q.steps| > 0 && v < |g.vertices| && f < |g.vertices| && Means(g, g.vertices[v].id, f) && Origin(r0) == v && OnClock(g, q, switchDepth, v, f, r0)
    requires Hop(g, q, g.vertices[if Idx(r0) < Restart(q, switchDepth) then v else f].time, Last(r0), to, e, Idx(r0), k)
    ensures HybridRun(g, q, switchDepth, r) && Traces(r, v, Path(r0) + [to], EdgesOf(r0) + [e], WaitsOf(r0) + [k])
    ensures OnClock(g, q, switchDepth, v, f, r)
  {
    hide Hop, Means, Resumed, IsChild, Partial;
    HopWaits(g, q, g.vertices[if Idx(r0) < Restart(q, switchDepth) then v else f].time, Last(r0), to, e, Idx(r0), k);
    var n := Restart(q, switchDepth);
    var c := HopIsChild(g, q, r0, to, e, k);
    ListsGrow(c);
    if Idx(r0) < n {
      ChildPartial(g, q, r0, c);
      if Idx(c) < n || n == |q.steps| {
        r := c;
      } else {
        SeedResumed(g, q, n, v, f, c);
        r := Rebase(g, c);
      }
    } else {
      var s :| Resumed(g, q, n, s, r0);
      ChildResumed(g, q, n, s, r0, c);
      r := c;
    }
    ClockSearched(g, q, switchDepth, v, f, r);
  }

  lemma HopWaits(g: Graph, q: Query, start: int, from: int, to: int, e: nat, k: nat, k': nat)
    requires Hop(g, q, start, from, to, e, k, k')
    ensures k < |q.steps|
  {}

  lemma ListsGrow(c: Run)
    requires c.Take?
    ensures Path(c) == Path(c.prev) + [c.to] && EdgesOf(c) == EdgesOf(c.prev) + [c.edge] && WaitsOf(c) == WaitsOf(c.prev) + [Idx(c)]
  {}

  lemma ClockSearched(g: Graph, q: Query, switchDepth: nat, v: nat, f: nat, r: Run)
    requires |q.steps| > 0 && v < |g.vertices| && f < |g.vertices| && OnClock(g, q, switchDepth, v, f, r)
    ensures HybridRun(g, q, switchDepth, r)
  {
    hide Partial, Resumed;
  }

  lemma ChildPartial(g: Graph, q: Query, r: Run, c: Run)
    requires Partial(g, q, r) && IsChild(g, q, r, c)
    ensures Partial(g, q, c) && StartTime(c) == StartTime(r) && Origin(c) == Origin(r)
  {}

  lemma ChildResumed(g: Graph, q: Query, n: nat, s: Run, r: Run, c: Run)
    requires n <= |q.steps| && Resumed(g, q, n, s, r) && IsChild(g, q, r, c)
    ensures Resumed(g, q, n, s, c) && StartTime(c) == StartTime(r) && Origin(c) == Origin(r) && Idx(c) >= Idx(r)
  {}

  /** A run that has just reached the switch is a seed, and its clock is restarted. */
  lemma SeedResumed(g: Graph, q: Query, n: nat, v: nat, f: nat, c: Run)
    requires 0 < n <= |q.steps| && Partial(g, q, c) && c.Take? && Idx(c.prev) < n <= Idx(c)
    requires Origin(c) == v < |g.vertices| && Means(g, g.vertices[v].id, f)
    ensures var r := Rebase(g, c);
      && Resumed(g, q, n, c, r) && StartTime(r) == g.vertices[f].time && Origin(r) == v
      && Path(r) == Path(c) && EdgesOf(r) == EdgesOf(c) && WaitsOf(r) == WaitsOf(c) && Idx(r) == Idx(c)
  {
    hide Means;
    PrefixPartial(g, q, n, c);
    RebaseLists(g, c);
    RebaseSpells(g, c);
    assert Resumed(g, q, n, c, Rebase(g, c));
    ResumedClock(g, q, n, c, Rebase(g, c), f);
  }

  // ---- What is emitted ----

  /** Some walk over all steps, from a vertex of the range, spells the path. */
  ghost predicate Matches(g: Graph, q: Query, n: nat, from: nat, to: nat, p: seq<int>) {
    exists v: nat, f: nat, es, ks :: from <= v < to && WalksThrough(g, q, n, v, f, p, es, ks)
  }

  /** A walk that ends with no step left to wait for. */
  ghost predicate WalksThrough(g: Graph, q: Query, n: nat, v: nat, f: nat, p: seq<int>, es: seq<nat>, ks: seq<nat>) {
    Walks(g, q, n, v, f, p, es, ks) && ks[|es|] == |q.steps|
  }

  lemma FinishedRuns(g: Graph, q: Query, switchDepth: nat, x: Run)
    requires |q.steps| > 0 && HybridRun(g, q, switchDepth, x)
    ensures Idx(x) <= |q.steps|
  {
    if Partial(g, q, x) {
      IdxBounded(g, q, x);
    } else {
      var s :| Resumed(g, q, switchDepth, s, x);
      ResumedFacts(g, q, switchDepth, s, x);
    }
  }

  lemma RunMatches(g: Graph, q: Query, switchDepth: nat, from: nat, to: nat, x: Run)
    requires |q.steps| > 0 && HybridInShard(g, q, switchDepth, from, to, x) && Idx(x) >= |q.steps|
    ensures Matches(g, q, Restart(q, switchDepth), from, to, Path(x))
  {
    hide Walks, Means, HybridRun;
    OriginThere(g, q, switchDepth, x);
    FinishedRuns(g, q, switchDepth, x);
    var f := FirstWith(g, Origin(x));
    HybridWalks(g, q, switchDepth, f, x);
    assert WalksThrough(g, q, Restart(q, switchDepth), Origin(x), f, Path(x), EdgesOf(x), WaitsOf(x));
  }

  lemma FirstWith(g: Graph, v: nat) returns (f: nat)
    requires v < |g.vertices|
    ensures Means(g, g.vertices[v].id, f)
  {
    MeansNothing(g, g.vertices[v].id);
    f := VPos(g, g.vertices[v].id);
    MeansPosition(g, g.vertices[v].id, f);
  }

  /** Whatever the ids and the capacities, every path H-CET emits is a match. */
  lemma HybridEmitsMatches(g: Graph, q: Query, lim: Limits, switchDepth: nat, from: nat, to: nat, runs: seq<Run>, o: Outcome)
    requires |q.steps| > 0 && HonestHybrid(g, q, lim, switchDepth, from, to, runs, o)
    ensures forall p :: p in o.paths ==> Matches(g, q, Restart(q, switchDepth), from, to, p)
  {
    hide Matches, HybridInShard;
    forall p | p in o.paths ensures Matches(g, q, Restart(q, switchDepth), from, to, p) {
      var i :| 0 <= i < |o.paths| && o.paths[i] == p;
      PathsAt(runs, i);
      RunMatches(g, q, switchDepth, from, to, runs[i]);
    }
  }

  /** Without overflow every match is emitted. */
  lemma HybridEmitsAll(g: Graph, q: Query, switchDepth: nat, from: nat, to: nat, s: seq<Run>, o: Outcome, p: seq<int>)
    requires |q.steps| > 0 && ListsHybrid(g, q, switchDepth, from, to, s) && Reports(g, q, s, o)
    requires Matches(g, q, Restart(q, switchDepth), from, to, p)
    ensures p in o.paths
  {
    hide Walks, HybridRun;
    var v: nat, f: nat, es, ks :| from <= v < to && WalksThrough(g, q, Restart(q, switchDepth), v, f, p, es, ks);
    WalkEnds(g, q, Restart(q, switchDepth), v, f, p, es, ks);
    var r := WalkSearched(g, q, switchDepth, v, f, p, es, ks);
    var done := Finished(q, s);
    FinishedMembers(q, s, r);
    var i :| 0 <= i < |done| && done[i] == r;
    PathsAt(done, i);
    assert p in multiset(Paths(done)) && p in multiset(o.paths);
  }

  lemma WalkEnds(g: Graph, q: Query, n: nat, v: nat, f: nat, p: seq<int>, es: seq<nat>, ks: seq<nat>)
    requires WalksThrough(g, q, n, v, f, p, es, ks)
    ensures Walks(g, q, n, v, f, p, es, ks) && |p| == |ks| == |es| + 1 && ks[|es|] == |q.steps|
  {}

  /** The outcome holds matches only; and all of them unless it reports overflow. */
  ghost predicate EmitsMatches(g: Graph, q: Query, n: nat, from: nat, to: nat, o: Outcome) {
    && (forall p :: p in o.paths ==> Matches(g, q, n, from, to, p))
    && (!o.c.overflow ==> forall p :: Matches(g, q, n, from, to, p) ==> p in o.paths)
  }

  lemma HcetEmits(g: Graph, q: Query, lim: Limits, switchDepth: nat, begin: nat, end: nat)
    requires |q.steps| > 0 && lim.maxPathLen >= 1
    ensures EmitsMatches(g, q, Restart(q, switchDepth), Clamp(begin, |g.vertices|), ShardEnd(g, begin, end),
                         HcetOutcome(g, q, lim, switchDepth, begin, end))
  {
    hide Matches, HcetOutcome, HonestHybrid, Honest, ListsHybrid, Reports, PhaseOne, Enumerates;
    var from, to, o := Clamp(begin, |g.vertices|), ShardEnd(g, begin, end), HcetOutcome(g, q, lim, switchDepth, begin, end);
    var runs := HcetHonest(g, q, lim, switchDepth, begin, end);
    HybridEmitsMatches(g, q, lim, switchDepth, from, to, runs, o);
    if !o.c.overflow {
      var s, sp := HcetComplete(g, q, lim, switchDepth, begin, end);
      forall p | Matches(g, q, Restart(q, switchDepth), from, to, p) ensures p in o.paths { HybridEmitsAll(g, q, switchDepth, from, to, s, o, p); }
    }
  }

  /** T-CET is H-CET that never switches. */
  lemma TcetEmits(g: Graph, q: Query, lim: Limits, begin: nat, end: nat)
    requires |q.steps| > 0 && lim.maxPathLen >= 1
    ensures EmitsMatches(g, q, |q.steps|, Clamp(begin, |g.vertices|), ShardEnd(g, begin, end), TcetOutcome(g, q, lim, begin, end))
  {
    hide EmitsMatches, TcetOutcome;
    HcetEmits(g, q, lim, 0, begin, end);
  }

  lemma McetEmits(g: Graph, q: Query, lim: Limits)
    requires |q.steps| > 0 && lim.maxPathLen >= 1
    ensures EmitsMatches(g, q, |q.steps|, 0, |g.vertices|, McetOutcome(g, q, lim))
  {
    hide Matches, McetOutcome, Reports, Accepting;
    var n, o := |g.vertices|, McetOutcome(g, q, lim);
    var runs := McetHonest(g, q, lim);
    assert HonestHybrid(g, q, lim, 0, 0, n, runs, o) by { AcceptingSearched(g, q, n, runs); }
    HybridEmitsMatches(g, q, lim, 0, 0, n, runs, o);
    if !o.c.overflow {
      McetComplete(g, q, lim);
      forall p | Matches(g, q, |q.steps|, 0, n, p) ensures p in o.paths { HybridEmitsAll(g, q, 0, 0, n, McetVisits(g, q, lim), o, p); }
    }
  }

  lemma AcceptingSearched(g: Graph, q: Query, n: nat, runs: seq<Run>)
    requires forall r :: r in runs ==> Accepting(g, q, r) && 0 <= Origin(r) < n
    ensures forall r :: r in runs ==> HybridInShard(g, q, 0, 0, n, r) && Idx(r) >= |q.steps|
  {}

  /** The parallel run emits matches only; and all of them if sequential H-CET reports no overflow. */
  lemma ParallelEmits(g: Graph, q: Query, lim: Limits, switchDepth: nat, k: nat)
    requires 0 < k && |q.steps| > 0 && lim.maxPathLen >= 1
    ensures var n, o := Restart(q, switchDepth), ParallelOutcome(g, q, lim, switchDepth, k);
      && (forall p :: p in o.paths ==> Matches(g, q, n, 0, |g.vertices|, p))
      && (!HcetOutcome(g, q, lim, switchDepth, 0, |g.vertices|).c.overflow ==>
          forall p :: Matches(g, q, n, 0, |g.vertices|, p) ==> p in o.paths)
  {
    hide Matches, HcetOutcome, ParallelOutcome, HonestHybrid, Honest;
    var o, h := ParallelOutcome(g, q, lim, switchDepth, k), HcetOutcome(g, q, lim, switchDepth, 0, |g.vertices|);
    var runs := ParallelHonest(g, q, lim, switchDepth, k);
    HybridEmitsMatches(g, q, lim, switchDepth, 0, |g.vertices|, runs, o);
    if !h.c.overflow {
      HcetEmits(g, q, lim, switchDepth, 0, |g.vertices|);
      ParallelEqualsSequential(g, q, lim, switchDepth, k);
      forall p | p in h.paths ensures p in o.paths { assert p in multiset(h.paths); assert p in multiset(o.paths); }
    }
  }

  // ---- What is rejected ----

  datatype Fault = Timing | Window | Typing

  /** The edge leaves the run's last vertex, and this is what keeps the run from matching its end. */
  ghost predicate Faulty(g: Graph, q: Query, r: Run, e: nat, fault: Fault)
    requires e < |g.edges|
  {
    && g.edges[e].src == Last(r)
    && exists a: nat :: Means(g, Last(r), a) && FaultFrom(g, q, r, a, e, fault)
  }

  ghost predicate FaultFrom(g: Graph, q: Query, r: Run, a: nat, e: nat, fault: Fault)
    requires e < |g.edges| && a < |g.vertices|
  {
    var to := g.edges[e].dst;
    match fault
    case Timing => !exists b: nat :: Means(g, to, b) && InTime(q, StartTime(r), g.vertices[a], g.vertices[b])
    case Window => exists b: nat :: Means(g, to, b) && InTime(q, StartTime(r), g.vertices[a], g.vertices[b])
                     && !InWindow(g.edges[e], g.vertices[a], g.vertices[b])
    case Typing => exists b: nat :: Means(g, to, b) && InTime(q, StartTime(r), g.vertices[a], g.vertices[b])
                     && InWindow(g.edges[e], g.vertices[a], g.vertices[b]) && !Suits(q, Idx(r), Last(r), to, g.vertices[b])
  }

  /** An edge out of a run's last vertex raises one counter, and only if it is at fault. */
  lemma RejectMeans(g: Graph, q: Query, r: Run, e: nat)
    requires e < |g.edges| && VPos(g, Last(r)) >= 0 && g.edges[e].src == Last(r)
    ensures EdgeRejects(g, q, r, e) == Rejects(if Faulty(g, q, r, e, Timing) then 1 else 0, if Faulty(g, q, r, e, Window) then 1 else 0,
                                               if Faulty(g, q, r, e, Typing) then 1 else 0)
  {
    var a, b := VPos(g, Last(r)), VPos(g, g.edges[e].dst);
    MeansPosition(g, Last(r), a);
    forall a': nat | Means(g, Last(r), a') ensures a' == a { MeansPosition(g, Last(r), a'); }
    forall b': nat | Means(g, g.edges[e].dst, b') ensures b' == b { MeansPosition(g, g.edges[e].dst, b'); }
    if b >= 0 { MeansPosition(g, g.edges[e].dst, b); }
    hide Means;
    assert forall fault :: Faulty(g, q, r, e, fault) <==> FaultFrom(g, q, r, a, e, fault);
  }

  /** How many of the first n edges are at fault that way. */
  ghost function Faults(g: Graph, q: Query, r: Run, n: nat, fault: Fault): nat
    requires n <= |g.edges|
  {
    if n == 0 then 0 else Faults(g, q, r, n - 1, fault) + if Faulty(g, q, r, n - 1, fault) then 1 else 0
  }

  ghost function AllFaults(g: Graph, q: Query, s: seq<Run>, fault: Fault): nat {
    if s == [] then 0
    else AllFaults(g, q, s[..|s| - 1], fault) + if Idx(s[|s| - 1]) < |q.steps| then Faults(g, q, s[|s| - 1], |g.edges|, fault) else 0
  }

  lemma {:induction false} RejectsOfRun(g: Graph, q: Query, r: Run, n: nat)
    requires n <= |g.edges| && VPos(g, Last(r)) >= 0
    ensures RejectsOver(g, q, r, OutEdges(g, VPos(g, Last(r)), n)) ==
      Rejects(Faults(g, q, r, n, Timing), Faults(g, q, r, n, Window), Faults(g, q, r, n, Typing))
  {
    hide EdgeRejects, Faulty, VPos, Last, RejectsOver;
    if n == 0 {
      NothingOver(g, q, r);
    } else {
      var p, e := VPos(g, Last(r)), n - 1;
      RejectsOfRun(g, q, r, e);
      if VPos(g, g.edges[e].src) == p {
        SameId(g, g.edges[e].src, Last(r));
        RejectMeans(g, q, r, e);
        OneOver(g, q, r, e, OutEdges(g, p, e));
      } else {
        OtherEdge(g, q, r, e);
      }
    }
  }

  lemma NothingOver(g: Graph, q: Query, r: Run)
    ensures RejectsOver(g, q, r, []) == NoRejects
  {}

  lemma OneOver(g: Graph, q: Query, r: Run, e: nat, rest: seq<nat>)
    requires e < |g.edges| && InRange(rest, |g.edges|)
    ensures InRange([e] + rest, |g.edges|) && RejectsOver(g, q, r, [e] + rest) == EdgeRejects(g, q, r, e).Plus(RejectsOver(g, q, r, rest))
  {
    assert ([e] + rest)[1..] == rest;
  }

  lemma OtherEdge(g: Graph, q: Query, r: Run, e: nat)
    requires e < |g.edges| && VPos(g, g.edges[e].src) != VPos(g, Last(r))
    ensures forall fault :: !Faulty(g, q, r, e, fault)
  {}

  lemma NodeCounted(g: Graph, q: Query, r: Run)
    requires VPos(g, Last(r)) >= 0
    ensures NodeRejects(g, q, r) == if Idx(r) >= |q.steps| then NoRejects
      else Rejects(Faults(g, q, r, |g.edges|, Timing), Faults(g, q, r, |g.edges|, Window), Faults(g, q, r, |g.edges|, Typing))
  {
    hide Faults, RejectsOver, OutEdges;
    RejectsOfRun(g, q, r, |g.edges|);
  }

  lemma AllFaultsSnoc(g: Graph, q: Query, s: seq<Run>, r: Run, fault: Fault)
    ensures AllFaults(g, q, s + [r], fault) ==
      AllFaults(g, q, s, fault) + if Idx(r) < |q.steps| then Faults(g, q, r, |g.edges|, fault) else 0
  {
    assert (s + [r])[..|s|] == s;
  }

  /** The reject counters for a list of searched runs count the faults of each kind over all edges. */
  lemma {:induction false} RejectsCounted(g: Graph, q: Query, s: seq<Run>)
    requires forall r :: r in s ==> VPos(g, Last(r)) >= 0
    ensures QueueRejects(g, q, s) == Rejects(AllFaults(g, q, s, Timing), AllFaults(g, q, s, Window), AllFaults(g, q, s, Typing))
  {
    hide Faults, NodeRejects, VPos, Last, AllFaults, QueueRejects;
    if s == [] {
      NothingCounted(g, q);
    } else {
      var t, r := s[..|s| - 1], s[|s| - 1];
      assert s == t + [r] && r in s && forall x :: x in t ==> x in s;
      RejectsCounted(g, q, t);
      NodeCounted(g, q, r);
      QueueRejectsSnoc(g, q, t, r);
      AllFaultsSnoc(g, q, t, r, Timing);
      AllFaultsSnoc(g, q, t, r, Window);
      AllFaultsSnoc(g, q, t, r, Typing);
    }
  }

  lemma NothingCounted(g: Graph, q: Query)
    ensures QueueRejects(g, q, []) == NoRejects && forall fault :: AllFaults(g, q, [], fault) == 0
  {}

  /** So a search that lost nothing reports each fault of each run it looked at. */
  lemma RejectsReported(g: Graph, q: Query, from: nat, to: nat, s: seq<Run>, o: Outcome)
    requires Enumerates(g, q, from, to, s) && Reports(g, q, s, o)
    ensures o.c.rejects == Rejects(AllFaults(g, q, s, Timing), AllFaults(g, q, s, Window), AllFaults(g, q, s, Typing))
  {
    hide AllFaults, Finished, Paths, Deepest;
    forall r | r in s ensures VPos(g, Last(r)) >= 0 { IdxBounded(g, q, r); }
    RejectsCounted(g, q, s);
  }
}
