/** Breadth-first search through the bounded queue, as a value: the sequence of runs that got
    into the queue, and the runs turned away for want of room. */
module BreadthFirst {
  import opened TrendGraph
  import opened SearchSpec

  datatype Trace = Trace(queue: seq<Run>, lost: seq<Run>)

  function Push(lim: Limits, t: Trace, r: Run): (t': Trace)
    requires |t.queue| <= lim.maxPaths
    ensures |t'.queue| <= lim.maxPaths
  {
    if |t.queue| >= lim.maxPaths then t.(lost := t.lost + [r]) else t.(queue := t.queue + [r])
  }

  function PushAll(lim: Limits, t: Trace, cs: seq<Run>): (t': Trace)
    requires |t.queue| <= lim.maxPaths
    ensures |t'.queue| <= lim.maxPaths
    decreases |cs|
  {
    if cs == [] then t else PushAll(lim, Push(lim, t, cs[0]), cs[1..])
  }

  /** A run that already fills its path array loses one child per edge it could follow. */
  function BfsEdge(g: Graph, q: Query, lim: Limits, t: Trace, r: Run, e: nat): (t': Trace)
    requires |t.queue| <= lim.maxPaths && e < |g.edges| && Idx(r) < |q.steps|
    ensures |t'.queue| <= lim.maxPaths
  {
    var cs := EdgeChildren(g, q, r, e);
    if cs == [] then t
    else if Len(r) >= lim.maxPathLen then t.(lost := t.lost + [cs[0]])
    else PushAll(lim, t, cs)
  }

  function BfsEdges(g: Graph, q: Query, lim: Limits, t: Trace, r: Run, es: seq<nat>): (t': Trace)
    requires |t.queue| <= lim.maxPaths && InRange(es, |g.edges|) && Idx(r) < |q.steps|
    ensures |t'.queue| <= lim.maxPaths
    decreases |es|
  {
    if es == [] then t else BfsEdges(g, q, lim, BfsEdge(g, q, lim, t, r, es[0]), r, es[1..])
  }

  /** Popping r: finished runs are emitted, others put their children in the queue. */
  function BfsPop(g: Graph, q: Query, lim: Limits, t: Trace, r: Run): (t': Trace)
    requires |t.queue| <= lim.maxPaths
    ensures |t'.queue| <= lim.maxPaths
  {
    if Idx(r) >= |q.steps| then t else BfsEdges(g, q, lim, t, r, Out(g, r))
  }

  function BfsFrom(g: Graph, q: Query, lim: Limits, t: Trace, head: nat): (t': Trace)
    requires |t.queue| <= lim.maxPaths
    ensures |t'.queue| <= lim.maxPaths
    decreases lim.maxPaths - head
  {
    if head >= |t.queue| then t else BfsFrom(g, q, lim, BfsPop(g, q, lim, t, t.queue[head]), head + 1)
  }

  function StartAt(g: Graph, v: nat): Run
    requires v < |g.vertices|
  {
    Start(v, g.vertices[v].id, g.vertices[v].time)
  }

  /** The start states of vertices from..to are queued until one does not fit. */
  function PushStarts(g: Graph, q: Query, lim: Limits, t: Trace, from: nat, to: nat): (t': Trace)
    requires |t.queue| <= lim.maxPaths && to <= |g.vertices| && |q.steps| > 0
    ensures |t'.queue| <= lim.maxPaths
    decreases if from < to then to - from else 0
  {
    if from >= to then t
    else if g.vertices[from].eventType != q.steps[0].name then PushStarts(g, q, lim, t, from + 1, to)
    else if |t.queue| >= lim.maxPaths then Push(lim, t, StartAt(g, from))
    else PushStarts(g, q, lim, Push(lim, t, StartAt(g, from)), from + 1, to)
  }

  function Clamp(n: nat, hi: nat): nat { if n > hi then hi else n }

  function TcetTrace(g: Graph, q: Query, lim: Limits, begin: nat, end: nat): (t: Trace)
    requires |q.steps| > 0
    ensures |t.queue| <= lim.maxPaths
  {
    BfsFrom(g, q, lim, PushStarts(g, q, lim, Trace([], []), Clamp(begin, |g.vertices|), Clamp(end, |g.vertices|)), 0)
  }

  // ---- What a queue of runs adds up to ----

  /** The runs of s that have matched every step. */
  function Finished(q: Query, s: seq<Run>): seq<Run> {
    if s == [] then []
    else Finished(q, s[..|s| - 1]) + if Idx(s[|s| - 1]) >= |q.steps| then [s[|s| - 1]] else []
  }

  function Paths(s: seq<Run>): (ps: seq<seq<int>>)
    ensures |ps| == |s|
  {
    if s == [] then [] else Paths(s[..|s| - 1]) + [Path(s[|s| - 1])]
  }

  lemma {:induction false} PathsAt(s: seq<Run>, i: nat)
    requires i < |s|
    ensures Paths(s)[i] == Path(s[i])
  {
    if i < |s| - 1 {
      PathsAt(s[..|s| - 1], i);
    }
  }

  lemma {:induction false} PathsHead(s: seq<Run>)
    requires s != []
    ensures Paths(s) == [Path(s[0])] + Paths(s[1..])
  {
    if |s| > 1 {
      PathsHead(s[..|s| - 1]);
      assert s[..|s| - 1][1..] == s[1..][..|s| - 2];
    }
  }

  function NodeRejects(g: Graph, q: Query, r: Run): Rejects {
    if Idx(r) >= |q.steps| then NoRejects else RejectsOver(g, q, r, Out(g, r))
  }

  function QueueRejects(g: Graph, q: Query, s: seq<Run>): Rejects {
    if s == [] then NoRejects else QueueRejects(g, q, s[..|s| - 1]).Plus(NodeRejects(g, q, s[|s| - 1]))
  }

  function Deepest(s: seq<Run>): nat {
    if s == [] then 0 else Max(Deepest(s[..|s| - 1]), Len(s[|s| - 1]))
  }

  function TraceOutcome(g: Graph, q: Query, t: Trace): Outcome {
    Outcome(Paths(Finished(q, t.queue)),
            Counters(|Finished(q, t.queue)|, 0, |t.queue|, |t.lost|, 0, Deepest(t.queue),
                     QueueRejects(g, q, t.queue), t.lost != []))
  }

  function TcetOutcome(g: Graph, q: Query, lim: Limits, begin: nat, end: nat): Outcome {
    if q.steps == [] then Fresh else TraceOutcome(g, q, TcetTrace(g, q, lim, begin, end))
  }

  // ---- H-CET ----

  function Prefix(q: Query, n: nat): Query
    requires n <= |q.steps|
  {
    q.(steps := q.steps[..n])
  }

  /** H-CET restarts the clock of a seed from the first vertex carrying its start id. */
  function Rebase(g: Graph, r: Run): Run {
    match r
    case Start(v, id, t) => Start(v, id, if VPos(g, id) >= 0 then g.vertices[VPos(g, id)].time else 0)
    case Take(prev, e, to, c) => Take(Rebase(g, prev), e, to, c)
  }

  function Rebased(g: Graph, s: seq<Run>): (t: seq<Run>)
    ensures |t| == |s| && forall i :: 0 <= i < |s| ==> t[i] == Rebase(g, s[i])
  {
    if s == [] then [] else Rebased(g, s[..|s| - 1]) + [Rebase(g, s[|s| - 1])]
  }

  lemma {:induction false} RebaseSpells(g: Graph, r: Run)
    ensures Path(Rebase(g, r)) == Path(r) && Len(Rebase(g, r)) == Len(r) && Idx(Rebase(g, r)) == Idx(r)
  {
    if r.Take? {
      RebaseSpells(g, r.prev);
    }
  }

  function SwitchLen(q: Query, switchDepth: nat): (n: nat)
    ensures n <= |q.steps|
  {
    if |q.steps| > switchDepth then switchDepth else |q.steps|
  }

  /** The counters H-CET starts its second phase with. */
  function SeedOutcome(prefix: Outcome): Outcome {
    Outcome([], prefix.c.(seedPaths := |prefix.paths|, pathsEmitted := 0))
  }

  function Seeds(g: Graph, q: Query, lim: Limits, n: nat, begin: nat, end: nat): seq<Run>
    requires 0 < n <= |q.steps|
  {
    Finished(Prefix(q, n), TcetTrace(g, Prefix(q, n), lim, begin, end).queue)
  }

  function HcetOutcome(g: Graph, q: Query, lim: Limits, switchDepth: nat, begin: nat, end: nat): Outcome {
    if switchDepth <= 1 then TcetOutcome(g, q, lim, begin, end)
    else if q.steps == [] then Fresh
    else
      var n := SwitchLen(q, switchDepth);
      var seeds := Seeds(g, q, lim, n, begin, end);
      var o := SeedOutcome(TcetOutcome(g, Prefix(q, n), lim, begin, end));
      if n == |q.steps| then EmitAll(lim, o, Paths(seeds))
      else AfterAll(g, q, lim, o, VisitRoots(g, q, lim, Rebased(g, seeds)))
  }

  // ---- M-CET ----

  /** The start runs of vertices begin..end. */
  function Starts(g: Graph, q: Query, begin: nat, end: nat): seq<Run>
    requires end <= |g.vertices| && |q.steps| > 0
  {
    if end <= begin then []
    else Starts(g, q, begin, end - 1) +
         if g.vertices[end - 1].eventType == q.steps[0].name then [StartAt(g, end - 1)] else []
  }

  function McetOutcome(g: Graph, q: Query, lim: Limits): Outcome {
    if q.steps == [] then Fresh
    else AfterAll(g, q, lim, Fresh, VisitRoots(g, q, lim, Starts(g, q, 0, |g.vertices|)))
  }
}
