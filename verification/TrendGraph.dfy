/** The event graph, the compiled query and the runs the native engine searches for.

    A run is one way of walking the graph: the start vertex, then for each edge taken the
    choice the matcher makes there.  It is the reference the three executors are proved
    against; nothing here mentions queues, recursion or capacities. */
module TrendGraph {
  datatype Vertex = Vertex(id: int, eventType: string, time: int)
  datatype Edge = Edge(src: int, dst: int, windowStart: int, windowEnd: int)
  datatype Graph = Graph(vertices: seq<Vertex>, edges: seq<Edge>)

  /** A null C predicate is the one that accepts everything. */
  datatype Step = Step(name: string, kleenePlus: bool, accepts: (int, int) -> bool)
  datatype Query = Query(steps: seq<Step>, withinMs: int, skipTillAnyMatch: bool)

  /** Capacities of the fixed-size C buffers. */
  datatype Limits = Limits(maxEvents: nat, maxEdges: nat, maxPaths: nat, maxPathLen: nat)

  predicate Fits(g: Graph, lim: Limits) {
    |g.vertices| <= lim.maxEvents && |g.edges| <= lim.maxEdges && lim.maxPathLen >= 1
  }

  datatype Choice = Stay | Advance | Skip
  datatype Run =
    | Start(vertex: nat, id: int, time: int)
    | Take(prev: Run, edge: nat, to: int, choice: Choice)

  function Path(r: Run): (p: seq<int>)
    ensures |p| == Len(r) && p[|p| - 1] == Last(r)
  {
    match r
    case Start(_, id, _) => [id]
    case Take(prev, _, to, _) => Path(prev) + [to]
  }

  function Len(r: Run): (n: nat)
    ensures n >= 1
  {
    match r
    case Start(_, _, _) => 1
    case Take(prev, _, _, _) => Len(prev) + 1
  }

  function Last(r: Run): int {
    if r.Start? then r.id else r.to
  }

  /** The index of the query step the run is waiting for. */
  function Idx(r: Run): (i: nat)
    ensures i >= 1
  {
    match r
    case Start(_, _, _) => 1
    case Take(prev, _, _, choice) => Idx(prev) + if choice == Advance then 1 else 0
  }

  function Origin(r: Run): nat {
    match r
    case Start(v, _, _) => v
    case Take(prev, _, _, _) => Origin(prev)
  }

  function StartTime(r: Run): int {
    match r
    case Start(_, _, t) => t
    case Take(prev, _, _, _) => StartTime(prev)
  }

  /** Position of the first vertex with this id, or -1. */
  function VPos(g: Graph, id: int): (p: int)
    ensures -1 <= p < |g.vertices|
    ensures p >= 0 ==> g.vertices[p].id == id
  {
    VPosFrom(g, id, 0)
  }

  /** VPos is the first position holding the id, and -1 only if no position does. */
  lemma VPosFirst(g: Graph, id: int, p: int)
    requires -1 <= p < |g.vertices| && (p >= 0 ==> g.vertices[p].id == id)
    requires forall i :: 0 <= i < (if p >= 0 then p else |g.vertices|) ==> g.vertices[i].id != id
    ensures VPos(g, id) == p
  {
    var v := VPosFrom(g, id, 0);
  }

  function VPosFrom(g: Graph, id: int, from: nat): (p: int)
    requires from <= |g.vertices|
    ensures p == -1 || from <= p < |g.vertices|
    ensures p >= 0 ==> g.vertices[p].id == id
    ensures forall i :: from <= i < (if p >= 0 then p else |g.vertices|) ==> g.vertices[i].id != id
    decreases |g.vertices| - from
  {
    if from == |g.vertices| then -1
    else if g.vertices[from].id == id then from
    else VPosFrom(g, id, from + 1)
  }

  datatype Gate = Pass | TemporalReject | WindowReject

  /** Why an edge may or may not be taken, before event types are looked at. */
  function EdgeGate(g: Graph, q: Query, prevId: int, startTime: int, e: Edge): Gate {
    var p, n := VPos(g, prevId), VPos(g, e.dst);
    if p < 0 || n < 0 then TemporalReject
    else
      var pt, nt := g.vertices[p].time, g.vertices[n].time;
      if nt < startTime || nt < pt then TemporalReject
      else if q.withinMs >= 0 && nt - startTime > q.withinMs then TemporalReject
      else if e.windowEnd > e.windowStart &&
              !(e.windowStart <= pt <= e.windowEnd && e.windowStart <= nt <= e.windowEnd) then WindowReject
      else Pass
  }

  predicate TypeMatches(g: Graph, q: Query, prevId: int, currId: int, idx: nat) {
    var p := VPos(g, currId);
    p >= 0 && idx < |q.steps| && g.vertices[p].eventType == q.steps[idx].name && q.steps[idx].accepts(prevId, currId)
  }

  /** The run r may take edge e with choice c. */
  predicate Enabled(g: Graph, q: Query, r: Run, e: nat, c: Choice) {
    && Idx(r) < |q.steps|
    && e < |g.edges|
    && VPos(g, g.edges[e].src) == VPos(g, Last(r)) >= 0
    && Allowed(g, q, r, g.edges[e], c)
  }

  /** The choices left once e is known to start at the run's last vertex. */
  predicate Allowed(g: Graph, q: Query, r: Run, e: Edge, c: Choice)
    requires Idx(r) < |q.steps|
  {
    && EdgeGate(g, q, Last(r), StartTime(r), e) == Pass
    && if TypeMatches(g, q, Last(r), e.dst, Idx(r))
       then c == Advance || (c == Stay && q.steps[Idx(r)].kleenePlus)
       else c == Skip && q.skipTillAnyMatch
  }

  predicate IsStart(g: Graph, q: Query, r: Run) {
    && r.Start?
    && r.vertex < |g.vertices|
    && |q.steps| > 0
    && g.vertices[r.vertex].eventType == q.steps[0].name
    && r.id == g.vertices[r.vertex].id
    && r.time == g.vertices[r.vertex].time
  }

  /** Every step of r is allowed: r is a (not necessarily finished) run of the query. */
  predicate Partial(g: Graph, q: Query, r: Run) {
    match r
    case Start(_, _, _) => IsStart(g, q, r)
    case Take(prev, e, to, c) => Partial(g, q, prev) && Enabled(g, q, prev, e, c) && to == g.edges[e].dst
  }

  predicate Accepting(g: Graph, q: Query, r: Run) {
    Partial(g, q, r) && Idx(r) == |q.steps|
  }

  lemma {:induction false} IdxBounded(g: Graph, q: Query, r: Run)
    requires Partial(g, q, r)
    ensures Idx(r) <= |q.steps| && Origin(r) < |g.vertices| && VPos(g, Last(r)) >= 0
  {
    if r.Take? {
      IdxBounded(g, q, r.prev);
    }
  }

  // ---- One step of the search, in adjacency order ----

  predicate InRange(es: seq<nat>, n: nat) {
    forall i :: 0 <= i < |es| ==> es[i] < n
  }

  /** Indices below n of the edges leaving vertex p, most recently added first. */
  function OutEdges(g: Graph, p: int, n: nat): (es: seq<nat>)
    requires n <= |g.edges|
    ensures InRange(es, n) && (p < 0 ==> es == [])
  {
    if n == 0 then []
    else if p >= 0 && VPos(g, g.edges[n - 1].src) == p then [n - 1] + OutEdges(g, p, n - 1)
    else OutEdges(g, p, n - 1)
  }

  function Out(g: Graph, r: Run): seq<nat> {
    OutEdges(g, VPos(g, Last(r)), |g.edges|)
  }

  predicate ChildrenOf(cs: seq<Run>, r: Run) {
    forall i :: 0 <= i < |cs| ==> cs[i].Take? && cs[i].prev == r
  }

  function EdgeChildren(g: Graph, q: Query, r: Run, e: nat): (cs: seq<Run>)
    requires e < |g.edges| && Idx(r) < |q.steps|
    ensures ChildrenOf(cs, r)
  {
    var to := g.edges[e].dst;
    if EdgeGate(g, q, Last(r), StartTime(r), g.edges[e]) != Pass then []
    else if TypeMatches(g, q, Last(r), to, Idx(r)) then
      (if q.steps[Idx(r)].kleenePlus then [Take(r, e, to, Stay)] else []) + [Take(r, e, to, Advance)]
    else if q.skipTillAnyMatch then [Take(r, e, to, Skip)]
    else []
  }

  lemma EdgeChildrenExact(g: Graph, q: Query, r: Run, e: nat, c: Run)
    requires e < |g.edges| && Idx(r) < |q.steps|
    ensures c in EdgeChildren(g, q, r, e) <==>
      c.Take? && c.prev == r && c.edge == e && c.to == g.edges[e].dst && Allowed(g, q, r, g.edges[e], c.choice)
  {
    var to := g.edges[e].dst;
    if c.Take? && c.prev == r && c.edge == e && c.to == to && Allowed(g, q, r, g.edges[e], c.choice) {
      assert c == Take(r, e, to, c.choice);
      match c.choice {
        case Stay => assert EdgeChildren(g, q, r, e)[0] == c;
        case Advance => assert EdgeChildren(g, q, r, e)[|EdgeChildren(g, q, r, e)| - 1] == c;
        case Skip => assert EdgeChildren(g, q, r, e)[0] == c;
      }
    }
  }

  function ChildrenOver(g: Graph, q: Query, r: Run, es: seq<nat>): (cs: seq<Run>)
    requires Idx(r) < |q.steps| && InRange(es, |g.edges|)
    ensures ChildrenOf(cs, r)
  {
    if es == [] then [] else EdgeChildren(g, q, r, es[0]) + ChildrenOver(g, q, r, es[1..])
  }

  function Children(g: Graph, q: Query, r: Run): (cs: seq<Run>)
    requires Idx(r) < |q.steps|
    ensures ChildrenOf(cs, r)
  {
    ChildrenOver(g, q, r, Out(g, r))
  }

  lemma Regroup<T>(a: seq<T>, b: seq<T>, c: seq<T>)
    ensures a + (b + c) == a + b + c
  {}

  lemma TailOfConcat<T>(a: seq<T>, b: seq<T>)
    requires a != []
    ensures (a + b)[0] == a[0] && (a + b)[1..] == a[1..] + b
  {}

  ghost predicate Distinct<T>(s: seq<T>) {
    forall i, j :: 0 <= i < j < |s| ==> s[i] != s[j]
  }

  lemma DistinctAppend<T>(a: seq<T>, b: seq<T>)
    requires Distinct(a) && Distinct(b) && forall x :: x in a ==> x !in b
    ensures Distinct(a + b)
  {
    forall i, j | 0 <= i < j < |a + b| ensures (a + b)[i] != (a + b)[j] {
      if i < |a| <= j { assert a[i] in a && b[j - |a|] in b; }
    }
  }

  lemma {:induction false} OutEdgesMembers(g: Graph, p: int, n: nat, e: nat)
    requires n <= |g.edges|
    ensures e in OutEdges(g, p, n) <==> e < n && p >= 0 && VPos(g, g.edges[e].src) == p
  {
    if n > 0 {
      OutEdgesMembers(g, p, n - 1, e);
    }
  }

  lemma {:induction false} OutEdgesDistinct(g: Graph, p: int, n: nat)
    requires n <= |g.edges|
    ensures Distinct(OutEdges(g, p, n))
  {
    if n > 0 {
      OutEdgesDistinct(g, p, n - 1);
      OutEdgesMembers(g, p, n - 1, n - 1);
      DistinctAppend([n - 1], OutEdges(g, p, n - 1));
    }
  }

  lemma {:induction false} ChildrenOverMembers(g: Graph, q: Query, r: Run, es: seq<nat>, c: Run)
    requires Idx(r) < |q.steps| && InRange(es, |g.edges|)
    ensures c in ChildrenOver(g, q, r, es) <==>
      exists e :: e in es && c in EdgeChildren(g, q, r, e)
  {
    if es != [] {
      ChildrenOverMembers(g, q, r, es[1..], c);
      forall e | e in es ensures e == es[0] || e in es[1..] {}
    }
  }

  lemma {:induction false} ChildrenOverDistinct(g: Graph, q: Query, r: Run, es: seq<nat>)
    requires Idx(r) < |q.steps| && Distinct(es) && InRange(es, |g.edges|)
    ensures Distinct(ChildrenOver(g, q, r, es))
  {
    if es != [] {
      assert es[0] !in es[1..];
      ChildrenOverDistinct(g, q, r, es[1..]);
      forall c | c in EdgeChildren(g, q, r, es[0]) ensures c !in ChildrenOver(g, q, r, es[1..]) {
        ChildrenOverMembers(g, q, r, es[1..], c);
        EdgeChildrenExact(g, q, r, es[0], c);
        forall e | e in es[1..] && c in EdgeChildren(g, q, r, e) ensures false {
          EdgeChildrenExact(g, q, r, e, c);
        }
      }
      DistinctAppend(EdgeChildren(g, q, r, es[0]), ChildrenOver(g, q, r, es[1..]));
    }
  }

  /** c continues r by one allowed step. */
  predicate IsChild(g: Graph, q: Query, r: Run, c: Run) {
    c.Take? && c.prev == r && Enabled(g, q, r, c.edge, c.choice) && c.to == g.edges[c.edge].dst
  }

  lemma ChildExact(g: Graph, q: Query, r: Run, c: Run)
    requires Idx(r) < |q.steps|
    ensures c in Children(g, q, r) <==> IsChild(g, q, r, c)
  {
    var es := Out(g, r);
    ChildrenOverMembers(g, q, r, es, c);
    if c in Children(g, q, r) {
      var e :| e in es && c in EdgeChildren(g, q, r, e);
      EdgeChildrenExact(g, q, r, e, c);
      OutEdgesMembers(g, VPos(g, Last(r)), |g.edges|, e);
    }
    if IsChild(g, q, r, c) {
      EdgeChildrenExact(g, q, r, c.edge, c);
      OutEdgesMembers(g, VPos(g, Last(r)), |g.edges|, c.edge);
    }
  }

  /** The enumeration of a run's successors is exactly the relation Enabled, without repeats. */
  lemma ChildrenExact(g: Graph, q: Query, r: Run)
    requires Idx(r) < |q.steps|
    ensures Distinct(Children(g, q, r))
    ensures forall c: Run :: c in Children(g, q, r) <==> IsChild(g, q, r, c)
  {
    OutEdgesDistinct(g, VPos(g, Last(r)), |g.edges|);
    ChildrenOverDistinct(g, q, r, Out(g, r));
    forall c: Run ensures c in Children(g, q, r) <==> IsChild(g, q, r, c) {
      ChildExact(g, q, r, c);
    }
  }
}
