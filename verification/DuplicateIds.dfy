/** What becomes of H-CET when ids are not unique.  The graph accepts two vertices with one id, and a
    seed's clock then restarts from the first of them: H-CET can lose runs, and emit paths of no run
    at all.  It agrees with the others for certain exactly when the start ids resolve. */
module DuplicateIds {
  import opened TrendGraph
  import opened SearchSpec
  import opened BreadthFirst
  import opened Engines
  import opened Agreement
  import opened NativeTheorems
  import opened HybridTheorems

  // ---- Room for a search of bounded depth ----

  /** If all runs are short, there are capacities with which no executor overflows. */
  lemma BigEnough(g: Graph, q: Query, n: nat, len: nat) returns (lim: Limits)
    requires 1 < n < |q.steps| && len >= 1
    requires (forall r :: Partial(g, q, r) ==> Len(r) <= len) && forall r :: HybridRun(g, q, n, r) ==> Len(r) <= len
    ensures Fits(g, lim) && !McetOutcome(g, q, lim).c.overflow && !TcetOutcome(g, q, lim, 0, |g.vertices|).c.overflow
    ensures !HcetOutcome(g, q, lim, n, 0, |g.vertices|).c.overflow
  {
    var p, v := Prefix(q, n), |g.vertices|;
    var s := EnumerateShort(g, q, len);
    forall r | Partial(g, p, r) ensures Len(r) <= len { PrefixPartial(g, q, n, r); }
    var sp := EnumerateShort(g, p, len);
    forall i | 0 <= i < |sp| ensures sp[i] in s {
      assert sp[i] in sp;
      PrefixPartial(g, q, n, sp[i]);
    }
    Pigeonhole(sp, s);
    var lim0 := Limits(v, |g.edges|, |s|, len + 1);
    var t := HybridRuns(g, q, lim0, n, sp);
    LateRunsExact(g, q, lim0, n, 0, v, sp);
    HybridRunsExact(g, q, lim0, n, 0, v, sp);
    FinishedShort(q, s);
    FinishedShort(q, t);
    lim := Limits(v, |g.edges|, |s| + |t|, len + 1);
    McetOverflowExact(g, q, lim);
    TcetOverflowExact(g, q, lim, 0, v);
    HcetOverflowExact(g, q, lim, n, 0, v);
    assert QueueSuffices(g, p, lim, 0, v) && LateSuffices(g, q, lim, n, 0, v);
  }

  // ---- The extension that tells the engines apart ----

  /** Vertices with ids of their own, and edges, added to a graph. */
  ghost predicate Extends(g: Graph, g': Graph) {
    && g.vertices <= g'.vertices && g.edges <= g'.edges
    && forall i, j :: |g.vertices| <= i < |g'.vertices| && 0 <= j < i ==> g'.vertices[j].id != g'.vertices[i].id
  }

  /** The engines agree on the graph and its extensions, for every query with this first step. */
  ghost predicate AgreeWhenever(g: Graph, name: string) {
    forall g': Graph, q: Query, lim: Limits, switchDepth: nat ::
      Extends(g, g') && |q.steps| > 0 && q.steps[0].name == name && lim.maxPathLen >= 1 ==> AllAgree(g', q, lim, switchDepth)
  }

  lemma VPosExtended(g: Graph, g': Graph, x: int)
    requires g.vertices <= g'.vertices && VPos(g, x) >= 0
    ensures VPos(g', x) == VPos(g, x)
  {
    var p, found := VPos(g, x), VPosFrom(g, x, 0);
    assert forall i :: 0 <= i < p ==> g'.vertices[i] == g.vertices[i];
    VPosFirst(g', x, p);
  }

  lemma PositionOfVertex(g: Graph, v: nat)
    requires v < |g.vertices|
    ensures 0 <= VPos(g, g.vertices[v].id) <= v
  {
    var found := VPosFrom(g, g.vertices[v].id, 0);
  }

  lemma ResolveExtended(g: Graph, g': Graph, q: Query, q': Query)
    requires |q.steps| > 0 && |q'.steps| > 0 && q'.steps[0].name == q.steps[0].name && Extends(g, g') && StartsResolve(g, q)
    ensures StartsResolve(g', q')
  {
    forall v | 0 <= v < |g'.vertices| && g'.vertices[v].eventType == q'.steps[0].name
      ensures var p := VPos(g', g'.vertices[v].id); p >= 0 && g'.vertices[p].time == g'.vertices[v].time
    {
      if v < |g.vertices| {
        assert g'.vertices[v] == g.vertices[v];
        VPosExtended(g, g', g.vertices[v].id);
      } else {
        VPosFirst(g', g'.vertices[v].id, v);
      }
    }
  }

  // ---- Fresh names, ids and times ----

  function LongestType(vs: seq<Vertex>): (n: nat)
    ensures forall i :: 0 <= i < |vs| ==> |vs[i].eventType| <= n
  {
    if vs == [] then 0 else Max(LongestType(vs[..|vs| - 1]), |vs[|vs| - 1].eventType|)
  }

  function LargestId(vs: seq<Vertex>): (n: int)
    ensures forall i :: 0 <= i < |vs| ==> vs[i].id <= n
  {
    if vs == [] then 0
    else
      var n := LargestId(vs[..|vs| - 1]);
      if vs[|vs| - 1].id > n then vs[|vs| - 1].id else n
  }

  function LargestEnd(es: seq<Edge>): (n: int)
    ensures forall i :: 0 <= i < |es| ==> es[i].dst <= n && es[i].src <= n
  {
    if es == [] then 0
    else
      var n, e := LargestEnd(es[..|es| - 1]), es[|es| - 1];
      if e.dst > n && e.dst > e.src then e.dst else if e.src > n then e.src else n
  }

  function LatestTime(vs: seq<Vertex>): (n: int)
    ensures forall i :: 0 <= i < |vs| ==> vs[i].time <= n
  {
    if vs == [] then 0
    else
      var n := LatestTime(vs[..|vs| - 1]);
      if vs[|vs| - 1].time > n then vs[|vs| - 1].time else n
  }

  /** A type no vertex has. */
  function NewType(g: Graph, extra: nat): string {
    seq(LongestType(g.vertices) + extra, i => 'x')
  }

  function NewId(g: Graph): int {
    var a, b := LargestId(g.vertices), LargestEnd(g.edges);
    1 + if a > b then a else b
  }

  function Window(g: Graph, lo: int): int {
    var t := LatestTime(g.vertices);
    1 + if t > lo then t - lo else 0
  }

  /** A B event at the end of the window that opens at lo, and a C event just past it, both reached
      from the given id. */
  function Extended(g: Graph, id: int, lo: int): Graph {
    var b, w := NewId(g), Window(g, lo);
    Graph(g.vertices + [Vertex(b, NewType(g, 1), lo + w), Vertex(b + 1, NewType(g, 2), lo + w + 1)],
          g.edges + [Edge(id, b, 0, 0), Edge(b, b + 1, 0, 0)])
  }

  function Probe(g: Graph, name: string, lo: int): Query {
    var any := (prev: int, curr: int) => true;
    Query([Step(name, false, any), Step(NewType(g, 1), false, any), Step(NewType(g, 2), false, any)], Window(g, lo), false)
  }

  /** Vertex v has the type and an id that leads to vertex p; lo is a time of the graph's. */
  ghost predicate Setting(g: Graph, name: string, id: int, p: nat, lo: int) {
    p < |g.vertices| && VPos(g, id) == p && |name| <= LongestType(g.vertices)
  }

  lemma ExtendedIds(g: Graph, name: string, id: int, p: nat, lo: int)
    requires Setting(g, name, id, p, lo)
    ensures var g', b := Extended(g, id, lo), NewId(g);
      && Extends(g, g') && VPos(g', id) == p && VPos(g', b) == |g.vertices| && VPos(g', b + 1) == |g.vertices| + 1
      && id < b
  {
    var g', b := Extended(g, id, lo), NewId(g);
    VPosExtended(g, g', id);
    assert forall i :: 0 <= i < |g.vertices| ==> g'.vertices[i] == g.vertices[i] && g'.vertices[i].id < b;
    VPosFirst(g', b, |g.vertices|);
    VPosFirst(g', b + 1, |g.vertices| + 1);
    assert g.vertices[p].id == id;
  }

  function WalkB(g: Graph, r: Run): Run { Take(r, |g.edges|, NewId(g), Advance) }

  function WalkC(g: Graph, r: Run): Run { Take(r, |g.edges| + 1, NewId(g) + 1, Advance) }

  lemma NamesDiffer(g: Graph, name: string)
    requires |name| <= LongestType(g.vertices)
    ensures name != NewType(g, 1) && name != NewType(g, 2) && NewType(g, 1) != NewType(g, 2)
  {
    assert |NewType(g, 1)| == LongestType(g.vertices) + 1 && |NewType(g, 2)| == LongestType(g.vertices) + 2;
  }

  /** The new types are found at the new vertices only. */
  lemma OnlyNew(g: Graph, name: string, id: int, p: nat, lo: int, x: int)
    requires Setting(g, name, id, p, lo)
    ensures var g', pos := Extended(g, id, lo), VPos(Extended(g, id, lo), x);
      && (pos >= 0 && g'.vertices[pos].eventType == NewType(g, 1) ==> x == NewId(g))
      && (pos >= 0 && g'.vertices[pos].eventType == NewType(g, 2) ==> x == NewId(g) + 1)
  {
    var g', pos := Extended(g, id, lo), VPos(Extended(g, id, lo), x);
    NamesDiffer(g, name);
    if 0 <= pos < |g.vertices| {
      assert g'.vertices[pos] == g.vertices[pos];
      NamesDiffer(g, g.vertices[pos].eventType);
    }
  }

  /** In the extension a run can only go on from the id to B, in the window, and from B to C. */
  lemma OnlySteps(g: Graph, name: string, id: int, p: nat, lo: int, r: Run, x: Run)
    requires Setting(g, name, id, p, lo) && IsChild(Extended(g, id, lo), Probe(g, name, lo), r, x)
    ensures (Idx(r) == 1 && Last(r) == id && x == WalkB(g, r) && StartTime(r) >= lo)
      || (Idx(r) == 2 && Last(r) == NewId(g) && x == WalkC(g, r) && StartTime(r) >= lo + 1)
  {
    var g', q, e := Extended(g, id, lo), Probe(g, name, lo), x.edge;
    ExtendedIds(g, name, id, p, lo);
    OnlyNew(g, name, id, p, lo, x.to);
    NamesDiffer(g, name);
    SamePosition(g', Last(r), g'.edges[e].src);
  }

  lemma SamePosition(g: Graph, a: int, b: int)
    requires VPos(g, a) == VPos(g, b) >= 0
    ensures a == b
  {}

  /** And those steps are there, for clocks not past the new events. */
  lemma StepsThere(g: Graph, name: string, id: int, p: nat, lo: int, r: Run)
    requires Setting(g, name, id, p, lo) && lo <= StartTime(r) <= LatestTime(g.vertices)
    ensures var g', q := Extended(g, id, lo), Probe(g, name, lo);
      && (Idx(r) == 1 && Last(r) == id ==> IsChild(g', q, r, WalkB(g, r)))
      && (Idx(r) == 2 && Last(r) == NewId(g) && StartTime(r) >= lo + 1 ==> IsChild(g', q, r, WalkC(g, r)))
  {
    var g', q := Extended(g, id, lo), Probe(g, name, lo);
    ExtendedIds(g, name, id, p, lo);
    assert g'.edges[|g.edges|] == Edge(id, NewId(g), 0, 0) && g'.edges[|g.edges| + 1] == Edge(NewId(g), NewId(g) + 1, 0, 0);
    assert g'.vertices[p] == g.vertices[p] && g.vertices[p].time <= LatestTime(g.vertices);
  }

  /** The run from vertex u to C, on a clock of its own. */
  function Walk(g: Graph, u: nat, id: int, clock: int): Run {
    WalkC(g, WalkB(g, Start(u, id, clock)))
  }

  ghost predicate IsSource(g: Graph, name: string, id: int, u: nat) {
    u < |g.vertices| && g.vertices[u].eventType == name && g.vertices[u].id == id
  }

  lemma StartsAre(g: Graph, name: string, id: int, p: nat, lo: int, r: Run)
    requires Setting(g, name, id, p, lo)
    ensures IsStart(Extended(g, id, lo), Probe(g, name, lo), r) <==>
      r.Start? && r.vertex < |g.vertices| && g.vertices[r.vertex].eventType == name && r == StartAt(g, r.vertex)
  {
    NamesDiffer(g, name);
    var g' := Extended(g, id, lo);
    if r.Start? && r.vertex < |g.vertices| { assert g'.vertices[r.vertex] == g.vertices[r.vertex]; }
  }

  /** Every run of the extension has as many vertices as steps. */
  lemma {:induction false} RunsAre(g: Graph, name: string, id: int, p: nat, lo: int, r: Run)
    requires Setting(g, name, id, p, lo) && Partial(Extended(g, id, lo), Probe(g, name, lo), r)
    ensures Len(r) == Idx(r) <= 3
    ensures Idx(r) == 2 ==>
      IsSource(g, name, id, Origin(r)) && g.vertices[Origin(r)].time >= lo && r == WalkB(g, StartAt(g, Origin(r)))
    ensures Idx(r) == 3 ==>
      && IsSource(g, name, id, Origin(r)) && g.vertices[Origin(r)].time >= lo + 1
      && r == Walk(g, Origin(r), id, g.vertices[Origin(r)].time)
  {
    if r.Start? {
      StartsAre(g, name, id, p, lo, r);
    } else {
      RunsAre(g, name, id, p, lo, r.prev);
      OnlySteps(g, name, id, p, lo, r.prev, r);
      if r.prev.Start? { StartsAre(g, name, id, p, lo, r.prev); }
    }
  }

  lemma WalkRuns(g: Graph, name: string, id: int, p: nat, lo: int, u: nat)
    requires Setting(g, name, id, p, lo) && IsSource(g, name, id, u) && g.vertices[u].time >= lo
    ensures var g', q, r := Extended(g, id, lo), Probe(g, name, lo), WalkB(g, StartAt(g, u));
      && Partial(g', q, r) && Idx(r) == 2
      && (g.vertices[u].time >= lo + 1 ==> Partial(g', q, Walk(g, u, id, g.vertices[u].time)))
  {
    StartsAre(g, name, id, p, lo, StartAt(g, u));
    StepsThere(g, name, id, p, lo, StartAt(g, u));
    StepsThere(g, name, id, p, lo, WalkB(g, StartAt(g, u)));
  }

  /** What H-CET makes of the extension: it follows every source inside the first window, but on the
      clock of the vertex the id leads to. */
  lemma HybridRunsAre(g: Graph, name: string, id: int, p: nat, lo: int, x: Run)
    requires Setting(g, name, id, p, lo) && HybridRun(Extended(g, id, lo), Probe(g, name, lo), 2, x)
    ensures Len(x) == Idx(x) <= 3
    ensures Idx(x) == 3 ==>
      && IsSource(g, name, id, Origin(x)) && g.vertices[Origin(x)].time >= lo && g.vertices[p].time >= lo + 1
      && x == Walk(g, Origin(x), id, g.vertices[p].time)
  {
    var g', q := Extended(g, id, lo), Probe(g, name, lo);
    if Partial(g', q, x) && Idx(x) < 2 {
      RunsAre(g, name, id, p, lo, x);
    } else {
      var s :| Resumed(g', q, 2, s, x);
      hide Resumed, HybridRun, Partial, Setting, Extended, Probe;
      ResumedAre(g, name, id, p, lo, s, x);
    }
  }

  lemma WalkCounts(g: Graph, u: nat, id: int, clock: int)
    ensures var f := WalkB(g, Start(u, id, clock));
      Idx(f) == Len(f) == 2 && Last(f) == NewId(g) && StartTime(f) == clock && Origin(f) == u && Origin(WalkC(g, f)) == u && Idx(WalkC(g, f)) == Len(WalkC(g, f)) == 3
  {}

  lemma ResumedAre(g: Graph, name: string, id: int, p: nat, lo: int, s: Run, x: Run)
    requires Setting(g, name, id, p, lo) && Resumed(Extended(g, id, lo), Probe(g, name, lo), 2, s, x)
    ensures Len(x) == Idx(x) <= 3
    ensures Idx(x) == 3 ==>
      && IsSource(g, name, id, Origin(x)) && g.vertices[Origin(x)].time >= lo && g.vertices[p].time >= lo + 1
      && x == Walk(g, Origin(x), id, g.vertices[p].time)
  {
    SeedsAre(g, name, id, p, lo, s);
    var f := WalkB(g, Start(Origin(s), id, g.vertices[p].time));
    WalkCounts(g, Origin(s), id, g.vertices[p].time);
    if x != f { OneStepOn(g, name, id, p, lo, f, x); }
  }

  lemma SeedsAre(g: Graph, name: string, id: int, p: nat, lo: int, s: Run)
    requires Setting(g, name, id, p, lo) && Partial(Extended(g, id, lo), Prefix(Probe(g, name, lo), 2), s) && Idx(s) >= 2
    ensures IsSource(g, name, id, Origin(s)) && g.vertices[Origin(s)].time >= lo
    ensures Rebase(Extended(g, id, lo), s) == WalkB(g, Start(Origin(s), id, g.vertices[p].time))
  {
    var g', q := Extended(g, id, lo), Probe(g, name, lo);
    PrefixPartial(g', q, 2, s);
    IdxBounded(g', Prefix(q, 2), s);
    RunsAre(g, name, id, p, lo, s);
    ExtendedIds(g, name, id, p, lo);
    assert g'.vertices[p] == g.vertices[p];
  }

  lemma {:induction false} OneStepOn(g: Graph, name: string, id: int, p: nat, lo: int, f: Run, x: Run)
    requires Setting(g, name, id, p, lo) && Reaches(Extended(g, id, lo), Probe(g, name, lo), f, x) && x != f && Idx(f) == 2
    ensures x == WalkC(g, f) && StartTime(f) >= lo + 1
  {
    OnlySteps(g, name, id, p, lo, x.prev, x);
    ReachesMeans(Extended(g, id, lo), Probe(g, name, lo), f, x.prev);
    if x.prev != f { OneStepOn(g, name, id, p, lo, f, x.prev); }
  }

  lemma HybridFollows(g: Graph, name: string, id: int, p: nat, lo: int, u: nat)
    requires Setting(g, name, id, p, lo) && IsSource(g, name, id, u) && g.vertices[u].time >= lo && g.vertices[p].time >= lo + 1
    ensures HybridRun(Extended(g, id, lo), Probe(g, name, lo), 2, Walk(g, u, id, g.vertices[p].time))
  {
    hide IsChild, VPos;
    var g', q, s := Extended(g, id, lo), Probe(g, name, lo), WalkB(g, StartAt(g, u));
    ExtendedIds(g, name, id, p, lo);
    WalkRuns(g, name, id, p, lo, u);
    PrefixPartial(g', q, 2, s);
    var f := WalkB(g, Start(u, id, g.vertices[p].time));
    assert g'.vertices[p] == g.vertices[p] && Rebase(g', s) == f;
    WalkCounts(g, u, id, g.vertices[p].time);
    StepsThere(g, name, id, p, lo, f);
    assert Reaches(g', q, f, f);
    assert WalkC(g, f).prev == f && Reaches(g', q, f, WalkC(g, f));
    assert Resumed(g', q, 2, s, WalkC(g, f));
  }

  // ---- The engines part ----

  function Walks(g: Graph, id: int, clock: int, us: seq<nat>): (rs: seq<Run>)
    ensures |rs| == |us| && forall i :: 0 <= i < |us| ==> rs[i] == Walk(g, us[i], id, clock)
  {
    seq(|us|, i requires 0 <= i < |us| => Walk(g, us[i], id, clock))
  }

  lemma WalksDistinct(g: Graph, id: int, clock: int, us: seq<nat>)
    requires Distinct(us)
    ensures Distinct(Walks(g, id, clock, us))
  {
    forall i, j | 0 <= i < j < |us| ensures Walk(g, us[i], id, clock) != Walk(g, us[j], id, clock) {}
  }

  function Origins(a: seq<Run>): (us: seq<nat>)
    ensures |us| == |a| && forall i :: 0 <= i < |a| ==> us[i] == Origin(a[i])
  {
    seq(|a|, i requires 0 <= i < |a| => Origin(a[i]))
  }

  lemma OriginsDistinct(g: Graph, id: int, a: seq<Run>, v: nat)
    requires Distinct(a)
    requires forall i :: 0 <= i < |a| ==>
      Origin(a[i]) < |g.vertices| && Origin(a[i]) != v && a[i] == Walk(g, Origin(a[i]), id, g.vertices[Origin(a[i])].time)
    ensures Distinct(Origins(a) + [v])
  {
    hide Walk;
    var us := Origins(a) + [v];
    forall i, j | 0 <= i < j < |us| ensures us[i] != us[j] {
      if j < |a| { assert a[i] != a[j]; }
    }
  }

  /** On the extension H-CET and M-CET emit different numbers of paths. */
  lemma CountsDiffer(g: Graph, name: string, id: int, p: nat, v: nat, lo: int, a: seq<Run>, b: seq<Run>)
    requires Setting(g, name, id, p, lo) && IsSource(g, name, id, v) && g.vertices[v].time != g.vertices[p].time
    requires lo == if g.vertices[v].time < g.vertices[p].time then g.vertices[v].time else g.vertices[p].time
    requires Distinct(a) && forall r :: r in a <==> Partial(Extended(g, id, lo), Probe(g, name, lo), r) && Idx(r) >= 3
    requires Distinct(b) && forall r :: r in b <==> HybridRun(Extended(g, id, lo), Probe(g, name, lo), 2, r) && Idx(r) >= 3
    ensures |a| != |b|
  {
    hide Partial, HybridRun, Extended, Probe, VPos, Walk, Idx;
    var tp, tv := g.vertices[p].time, g.vertices[v].time;
    if tp == lo {
      WalkRuns(g, name, id, p, lo, v);
      WalkIdx(g, v, id, tv);
      assert Walk(g, v, id, tv) in a;
      if b != [] { assert b[0] in b; HybridRunsAre(g, name, id, p, lo, b[0]); }
    } else {
      forall i | 0 <= i < |a|
        ensures IsSource(g, name, id, Origin(a[i])) && g.vertices[Origin(a[i])].time >= lo + 1
        ensures a[i] == Walk(g, Origin(a[i]), id, g.vertices[Origin(a[i])].time)
      {
        assert a[i] in a;
        RunsAre(g, name, id, p, lo, a[i]);
      }
      var us := Origins(a) + [v];
      var c := Walks(g, id, tp, us);
      OriginsDistinct(g, id, a, v);
      WalksDistinct(g, id, tp, us);
      forall i | 0 <= i < |c| ensures c[i] in b {
        HybridFollows(g, name, id, p, lo, us[i]);
        WalkIdx(g, us[i], id, tp);
      }
      Pigeonhole(c, b);
    }
  }

  lemma WalkIdx(g: Graph, u: nat, id: int, clock: int)
    ensures Idx(Walk(g, u, id, clock)) == 3
  {
    assert Idx(WalkB(g, Start(u, id, clock))) == 2;
  }

  lemma UnresolvedParts(g: Graph, name: string, v: nat)
    requires v < |g.vertices| && g.vertices[v].eventType == name
    requires g.vertices[VPos(g, g.vertices[v].id)].time != g.vertices[v].time
    ensures !AgreeWhenever(g, name)
  {
    PositionOfVertex(g, v);
    var id := g.vertices[v].id;
    var p := VPos(g, id);
    var lo := if g.vertices[v].time < g.vertices[p].time then g.vertices[v].time else g.vertices[p].time;
    var g', q := Extended(g, id, lo), Probe(g, name, lo);
    ExtendedIds(g, name, id, p, lo);
    forall r | Partial(g', q, r) ensures Len(r) <= 3 { RunsAre(g, name, id, p, lo, r); }
    forall r | HybridRun(g', q, 2, r) ensures Len(r) <= 3 { HybridRunsAre(g, name, id, p, lo, r); }
    var lim := BigEnough(g', q, 2, 3);
    Emitted(g, name, id, p, v, lo, lim);
    AgreeingSizes(g', q, lim, 2);
    assert !AllAgree(g', q, lim, 2);
  }

  lemma AgreeingSizes(g: Graph, q: Query, lim: Limits, d: nat)
    requires !McetOutcome(g, q, lim).c.overflow && !HcetOutcome(g, q, lim, d, 0, |g.vertices|).c.overflow
    ensures AllAgree(g, q, lim, d) ==> |McetOutcome(g, q, lim).paths| == |HcetOutcome(g, q, lim, d, 0, |g.vertices|).paths|
  {
    if AllAgree(g, q, lim, d) { SameSize(McetOutcome(g, q, lim).paths, HcetOutcome(g, q, lim, d, 0, |g.vertices|).paths); }
  }

  lemma Emitted(g: Graph, name: string, id: int, p: nat, v: nat, lo: int, lim: Limits)
    requires Setting(g, name, id, p, lo) && IsSource(g, name, id, v) && g.vertices[v].time != g.vertices[p].time
    requires lo == if g.vertices[v].time < g.vertices[p].time then g.vertices[v].time else g.vertices[p].time
    requires var g', q := Extended(g, id, lo), Probe(g, name, lo);
      lim.maxPathLen >= 1 && !McetOutcome(g', q, lim).c.overflow && !HcetOutcome(g', q, lim, 2, 0, |g'.vertices|).c.overflow
    ensures var g', q := Extended(g, id, lo), Probe(g, name, lo);
      |McetOutcome(g', q, lim).paths| != |HcetOutcome(g', q, lim, 2, 0, |g'.vertices|).paths|
  {
    hide McetOutcome, HcetOutcome, Partial, HybridRun, Setting, Paths;
    var g', q := Extended(g, id, lo), Probe(g, name, lo);
    var a := McetFinished(g', q, lim);
    var b := HcetFinished(g, name, id, p, lo, lim);
    CountsDiffer(g, name, id, p, v, lo, a, b);
    SameSize(McetOutcome(g', q, lim).paths, Paths(a));
    SameSize(HcetOutcome(g', q, lim, 2, 0, |g'.vertices|).paths, Paths(b));
  }

  lemma McetFinished(g: Graph, q: Query, lim: Limits) returns (a: seq<Run>)
    requires |q.steps| == 3 && lim.maxPathLen >= 1 && !McetOutcome(g, q, lim).c.overflow
    ensures Distinct(a) && forall r :: r in a <==> Partial(g, q, r) && Idx(r) >= 3
    ensures multiset(McetOutcome(g, q, lim).paths) == multiset(Paths(a))
  {
    McetComplete(g, q, lim);
    var s := McetVisits(g, q, lim);
    a := Finished(q, s);
    FinishedDistinct(q, s);
    forall r ensures r in a <==> Partial(g, q, r) && Idx(r) >= 3 {
      FinishedMembers(q, s, r);
      if Partial(g, q, r) { IdxBounded(g, q, r); }
    }
  }

  lemma HcetFinished(g: Graph, name: string, id: int, p: nat, lo: int, lim: Limits) returns (b: seq<Run>)
    requires Setting(g, name, id, p, lo) && lim.maxPathLen >= 1
    requires var g', q := Extended(g, id, lo), Probe(g, name, lo); !HcetOutcome(g', q, lim, 2, 0, |g'.vertices|).c.overflow
    ensures var g', q := Extended(g, id, lo), Probe(g, name, lo);
      && Distinct(b) && (forall r :: r in b <==> HybridRun(g', q, 2, r) && Idx(r) >= 3)
      && multiset(HcetOutcome(g', q, lim, 2, 0, |g'.vertices|).paths) == multiset(Paths(b))
  {
    hide HybridRun, HcetOutcome, Finished, Paths, Setting;
    var g', q := Extended(g, id, lo), Probe(g, name, lo);
    var t, tp := HcetComplete(g', q, lim, 2, 0, |g'.vertices|);
    b := Finished(q, t);
    FinishedDistinct(q, t);
    forall r ensures r in b <==> HybridRun(g', q, 2, r) && Idx(r) >= 3 {
      FinishedMembers(q, t, r);
      if HybridRun(g', q, 2, r) && Idx(r) >= 3 { HybridRunsAre(g, name, id, p, lo, r); }
    }
  }

  lemma SameSize(a: seq<seq<int>>, b: seq<seq<int>>)
    requires multiset(a) == multiset(b)
    ensures |a| == |b|
  {
    assert |multiset(a)| == |a| && |multiset(b)| == |b|;
  }

  /** The three executors agree on the graph and on everything that can be added to it, for every
      query with this first step, exactly when the start ids resolve. */
  lemma ResolvingExactly(g: Graph, q: Query)
    requires |q.steps| > 0
    ensures AgreeWhenever(g, q.steps[0].name) <==> StartsResolve(g, q)
  {
    var name := q.steps[0].name;
    if StartsResolve(g, q) {
      forall g': Graph, q': Query, lim: Limits, switchDepth: nat |
        Extends(g, g') && |q'.steps| > 0 && q'.steps[0].name == name && lim.maxPathLen >= 1
        ensures AllAgree(g', q', lim, switchDepth)
      {
        ResolveExtended(g, g', q, q');
        EnginesAgree(g', q', lim, switchDepth);
      }
    } else {
      var v :| 0 <= v < |g.vertices| && g.vertices[v].eventType == name
        && !(var p := VPos(g, g.vertices[v].id); p >= 0 && g.vertices[p].time == g.vertices[v].time);
      PositionOfVertex(g, v);
      UnresolvedParts(g, name, v);
    }
  }

  // ---- What goes wrong: lost runs, and paths of no run ----

  /** Two events with id 1, and B and C events to go on to. */
  function TwiceOne(first: string, time0: int, time1: int): Graph {
    Graph([Vertex(1, first, time0), Vertex(1, "A", time1), Vertex(2, "B", 60), Vertex(3, "C", 100)],
          [Edge(1, 2, 0, 0), Edge(2, 3, 0, 0)])
  }

  function Abc(): Query {
    var any := (prev: int, curr: int) => true;
    Query([Step("A", false, any), Step("B", false, any), Step("C", false, any)], 60, false)
  }

  lemma Positions(first: string, time0: int, time1: int)
    ensures var g := TwiceOne(first, time0, time1); VPos(g, 1) == 0 && VPos(g, 2) == 2 && VPos(g, 3) == 3
  {
    var g := TwiceOne(first, time0, time1);
    VPosFirst(g, 1, 0);
    VPosFirst(g, 2, 2);
    VPosFirst(g, 3, 3);
  }

  /** The only way is 1, 2, 3; and it ends before 3 on a clock more than 60 behind it. */
  lemma Onward(first: string, time0: int, time1: int, r: Run, x: Run)
    requires IsChild(TwiceOne(first, time0, time1), Abc(), r, x)
    ensures Last(x) == Last(r) + 1 <= 3 && (Last(r) == 1 || Last(r) == 2) && Idx(x) == Idx(r) + 1 && (Idx(r) == 2 ==> StartTime(r) >= 40)
  {
    var g := TwiceOne(first, time0, time1);
    Positions(first, time0, time1);
    SamePosition(g, Last(r), g.edges[x.edge].src);
  }

  lemma {:induction false} ReachesOnward(first: string, time0: int, time1: int, f: Run, x: Run)
    requires Reaches(TwiceOne(first, time0, time1), Abc(), f, x) && Last(f) == Len(f) <= 3
    ensures Last(x) == Len(x) <= 3 && (x != f && Idx(f) == 2 ==> StartTime(f) >= 40)
  {
    if x != f {
      ReachesOnward(first, time0, time1, f, x.prev);
      Onward(first, time0, time1, x.prev, x);
    }
  }

  lemma {:induction false} WalksOneTwoThree(first: string, time0: int, time1: int, r: Run)
    requires Partial(TwiceOne(first, time0, time1), Abc(), r)
    ensures Last(r) == Len(r) <= 3
  {
    if r.Take? {
      WalksOneTwoThree(first, time0, time1, r.prev);
      assert IsChild(TwiceOne(first, time0, time1), Abc(), r.prev, r);
      Onward(first, time0, time1, r.prev, r);
    }
  }

  /** The seeds are the start and B, on the clock of the first vertex. */
  lemma ResumedFromFirst(first: string, time0: int, time1: int, s: Run, x: Run)
    requires Resumed(TwiceOne(first, time0, time1), Abc(), 2, s, x)
    ensures Last(x) == Len(x) <= 3 && (Idx(x) == 3 ==> time0 >= 40)
  {
    var g, q := TwiceOne(first, time0, time1), Abc();
    Positions(first, time0, time1);
    PrefixPartial(g, q, 2, s);
    WalksOneTwoThree(first, time0, time1, s);
    IdxBounded(g, Prefix(q, 2), s);
    RebaseSpells(g, s);
    RebaseClock(g, s);
    StartId(first, time0, time1, s);
    assert Last(Rebase(g, s)) == Last(s);
    ReachesOnward(first, time0, time1, Rebase(g, s), x);
  }

  lemma {:induction false} StartId(first: string, time0: int, time1: int, r: Run)
    requires Partial(TwiceOne(first, time0, time1), Abc(), r)
    ensures Path(r)[0] == 1
  {
    if r.Take? { StartId(first, time0, time1, r.prev); }
  }

  /** There are capacities under which nothing overflows. */
  lemma RoomForTwiceOne(first: string, time0: int, time1: int) returns (lim: Limits)
    ensures var g, q := TwiceOne(first, time0, time1), Abc();
      lim.maxPathLen >= 1 && !McetOutcome(g, q, lim).c.overflow && !HcetOutcome(g, q, lim, 2, 0, 4).c.overflow
  {
    var g, q := TwiceOne(first, time0, time1), Abc();
    forall r | Partial(g, q, r) ensures Len(r) <= 3 { WalksOneTwoThree(first, time0, time1, r); }
    forall r | HybridRun(g, q, 2, r) ensures Len(r) <= 3 {
      if s :| Resumed(g, q, 2, s, r) { ResumedFromFirst(first, time0, time1, s, r); }
    }
    lim := BigEnough(g, q, 2, 3);
  }

  function ToC(clock: int): Run {
    Take(Take(Start(1, 1, clock), 0, 2, Advance), 1, 3, Advance)
  }

  lemma PathToC(clock: int)
    ensures Path(ToC(clock)) == [1, 2, 3] && Idx(ToC(clock)) == 3
  {
    assert Path(Take(Start(1, 1, clock), 0, 2, Advance)) == [1, 2] && Idx(Take(Start(1, 1, clock), 0, 2, Advance)) == 2;
  }

  lemma EmitsPath(q: Query, s: seq<Run>, paths: seq<seq<int>>, r: Run)
    requires multiset(paths) == multiset(Paths(Finished(q, s))) && r in s && Idx(r) >= |q.steps|
    ensures Path(r) in paths
  {
    hide Finished, Paths, Idx;
    var done := Finished(q, s);
    FinishedMembers(q, s, r);
    var i :| 0 <= i < |done| && done[i] == r;
    PathsAt(done, i);
    assert Path(r) in multiset(Paths(done));
    assert Path(r) in multiset(paths);
  }

  lemma Invented()
    ensures HybridRun(TwiceOne("X", 50, 0), Abc(), 2, ToC(50))
  {
    var g, q := TwiceOne("X", 50, 0), Abc();
    Positions("X", 50, 0);
    var a, f := Start(1, 1, 0), Take(Start(1, 1, 50), 0, 2, Advance);
    var s := Take(a, 0, 2, Advance);
    assert IsStart(g, q, a) && Enabled(g, q, a, 0, Advance);
    PrefixPartial(g, q, 2, s);
    assert Rebase(g, s) == f;
    assert Idx(f) == 2 && Enabled(g, q, f, 1, Advance);
    assert Reaches(g, q, f, f) && Reaches(g, q, f, ToC(50));
    assert Resumed(g, q, 2, s, ToC(50));
  }

  /** The first event starts nothing but lends the second its clock: H-CET emits a path although the
      query has no accepting run. */
  lemma HcetInventsPath(lim: Limits)
    requires lim.maxPathLen >= 1 && !HcetOutcome(TwiceOne("X", 50, 0), Abc(), lim, 2, 0, 4).c.overflow
    ensures [1, 2, 3] in HcetOutcome(TwiceOne("X", 50, 0), Abc(), lim, 2, 0, 4).paths
    ensures forall r :: !Accepting(TwiceOne("X", 50, 0), Abc(), r)
  {
    hide HybridRun;
    var g, q := TwiceOne("X", 50, 0), Abc();
    forall r ensures !Accepting(g, q, r) { NeverAccepts(r); }
    Invented();
    var runs, sp := HcetComplete(g, q, lim, 2, 0, 4);
    PathToC(50);
    EmitsPath(q, runs, HcetOutcome(g, q, lim, 2, 0, 4).paths, ToC(50));
  }

  lemma {:induction false} NeverAccepts(r: Run)
    ensures Partial(TwiceOne("X", 50, 0), Abc(), r) ==> StartTime(r) == 0 && Idx(r) <= 2
  {
    if r.Take? && Partial(TwiceOne("X", 50, 0), Abc(), r) {
      NeverAccepts(r.prev);
      assert IsChild(TwiceOne("X", 50, 0), Abc(), r.prev, r);
      Onward("X", 50, 0, r.prev, r);
    }
  }

  /** The first event starts too early: on its clock H-CET loses the run M-CET emits. */
  lemma HcetLosesPath(lim: Limits)
    requires lim.maxPathLen >= 1 && !McetOutcome(TwiceOne("A", 0, 50), Abc(), lim).c.overflow
    requires !HcetOutcome(TwiceOne("A", 0, 50), Abc(), lim, 2, 0, 4).c.overflow
    ensures [1, 2, 3] in McetOutcome(TwiceOne("A", 0, 50), Abc(), lim).paths
    ensures HcetOutcome(TwiceOne("A", 0, 50), Abc(), lim, 2, 0, 4).paths == []
  {
    var g, q := TwiceOne("A", 0, 50), Abc();
    Positions("A", 0, 50);
    var a, b := Start(1, 1, 50), Take(Start(1, 1, 50), 0, 2, Advance);
    assert IsStart(g, q, a) && Enabled(g, q, a, 0, Advance);
    assert Idx(b) == 2 && Enabled(g, q, b, 1, Advance);
    assert Partial(g, q, b) && Partial(g, q, ToC(50));
    McetComplete(g, q, lim);
    PathToC(50);
    EmitsPath(q, McetVisits(g, q, lim), McetOutcome(g, q, lim).paths, ToC(50));
    var runs, sp := HcetComplete(g, q, lim, 2, 0, 4);
    forall x | x in runs ensures Idx(x) < 3 { NeverResumes(x); }
    NothingFinished(q, runs);
    assert |multiset(HcetOutcome(g, q, lim, 2, 0, 4).paths)| == 0;
  }

  lemma NeverResumes(x: Run)
    requires HybridRun(TwiceOne("A", 0, 50), Abc(), 2, x)
    ensures Idx(x) < 3
  {
    var g, q := TwiceOne("A", 0, 50), Abc();
    if !(Partial(g, q, x) && Idx(x) < 2) {
      var s :| Resumed(g, q, 2, s, x);
      ResumedFacts(g, q, 2, s, x);
      ResumedFromFirst("A", 0, 50, s, x);
    }
  }

  lemma {:induction false} NothingFinished(q: Query, s: seq<Run>)
    requires forall x :: x in s ==> Idx(x) < |q.steps|
    ensures Finished(q, s) == []
  {
    if s != [] {
      assert s[|s| - 1] in s;
      forall x | x in s[..|s| - 1] ensures x in s {}
      NothingFinished(q, s[..|s| - 1]);
    }
  }
}
