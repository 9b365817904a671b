/** What the executors compute, as values: the order in which depth-first search visits runs,
    what each visit does to the result buffer and the counters, and the order-independent
    tally of a set of visited runs. */
module SearchSpec {
  import opened TrendGraph

  datatype Rejects = Rejects(temporal: nat, window: nat, predicate_: nat) {
    function Plus(o: Rejects): Rejects {
      Rejects(temporal + o.temporal, window + o.window, predicate_ + o.predicate_)
    }
  }

  const NoRejects := Rejects(0, 0, 0)

  /** What looking at edge e from run r adds to the reject counters. */
  function EdgeRejects(g: Graph, q: Query, r: Run, e: nat): Rejects
    requires e < |g.edges|
  {
    var gate := EdgeGate(g, q, Last(r), StartTime(r), g.edges[e]);
    if gate != Pass || TypeMatches(g, q, Last(r), g.edges[e].dst, Idx(r)) then GateRejects(gate) else Rejects(0, 0, 1)
  }

  function GateRejects(gate: Gate): Rejects {
    match gate
    case Pass => NoRejects
    case TemporalReject => Rejects(1, 0, 0)
    case WindowReject => Rejects(0, 1, 0)
  }

  function RejectsOver(g: Graph, q: Query, r: Run, es: seq<nat>): Rejects
    requires InRange(es, |g.edges|)
  {
    if es == [] then NoRejects else EdgeRejects(g, q, r, es[0]).Plus(RejectsOver(g, q, r, es[1..]))
  }

  lemma PlusAssociates(a: Rejects, b: Rejects, c: Rejects)
    ensures a.Plus(b).Plus(c) == a.Plus(b.Plus(c))
  {}

  // ---- The result buffer and the counters ----

  datatype Counters = Counters(
    pathsEmitted: nat, pathsTruncated: nat, statesEnqueued: nat, statesTruncated: nat, seedPaths: nat,
    maxDepth: nat, rejects: Rejects, overflow: bool)

  const NoCounts := Counters(0, 0, 0, 0, 0, 0, NoRejects, false)

  /** The result buffer's paths together with the execution counters. */
  datatype Outcome = Outcome(paths: seq<seq<int>>, c: Counters)

  const Fresh := Outcome([], NoCounts)

  function Max(a: nat, b: nat): nat { if a >= b then a else b }

  function NoteDepth(o: Outcome, depth: nat): Outcome {
    o.(c := o.c.(maxDepth := Max(o.c.maxDepth, depth)))
  }

  function AddRejects(o: Outcome, r: Rejects): Outcome {
    o.(c := o.c.(rejects := o.c.rejects.Plus(r)))
  }

  /** A path lost to a capacity limit is counted and flagged, never dropped silently. */
  function TruncatePath(o: Outcome): Outcome {
    o.(c := o.c.(pathsTruncated := o.c.pathsTruncated + 1, overflow := true))
  }

  function Emit(lim: Limits, o: Outcome, p: seq<int>): Outcome {
    var d := NoteDepth(o, |p|);
    if |p| > lim.maxPathLen || |o.paths| >= lim.maxPaths then TruncatePath(d)
    else Outcome(d.paths + [p], d.c.(pathsEmitted := d.c.pathsEmitted + 1))
  }

  function EmitAll(lim: Limits, o: Outcome, ps: seq<seq<int>>): Outcome
    decreases |ps|
  {
    if ps == [] then o else EmitAll(lim, Emit(lim, o, ps[0]), ps[1..])
  }

  predicate TooDeep(lim: Limits, r: Run) { Len(r) >= lim.maxPathLen }

  /** What depth-first search does on reaching run r, its children aside. */
  function AfterNode(g: Graph, q: Query, lim: Limits, o: Outcome, r: Run): Outcome {
    var d := NoteDepth(o, Len(r));
    if TooDeep(lim, r) then TruncatePath(d)
    else if Idx(r) >= |q.steps| then Emit(lim, d, Path(r))
    else AddRejects(d, RejectsOver(g, q, r, Out(g, r)))
  }

  function AfterAll(g: Graph, q: Query, lim: Limits, o: Outcome, vis: seq<Run>): Outcome
    decreases |vis|
  {
    if vis == [] then o else AfterAll(g, q, lim, AfterNode(g, q, lim, o, vis[0]), vis[1..])
  }

  lemma {:induction false} AfterAllAppend(g: Graph, q: Query, lim: Limits, o: Outcome, a: seq<Run>, b: seq<Run>)
    ensures AfterAll(g, q, lim, o, a + b) == AfterAll(g, q, lim, AfterAll(g, q, lim, o, a), b)
    decreases |a|
  {
    if a == [] {
      assert a + b == b;
    } else {
      TailOfConcat(a, b);
      AfterAllAppend(g, q, lim, AfterNode(g, q, lim, o, a[0]), a[1..], b);
    }
  }

  /** Counting an edge's rejection before or after a subtree is explored makes no difference. */
  lemma {:induction false} RejectsCommute(g: Graph, q: Query, lim: Limits, o: Outcome, x: Rejects, vis: seq<Run>)
    ensures AfterAll(g, q, lim, AddRejects(o, x), vis) == AddRejects(AfterAll(g, q, lim, o, vis), x)
    decreases |vis|
  {
    hide AfterNode, AddRejects;
    if vis != [] {
      NodeCommutes(g, q, lim, o, x, vis[0]);
      RejectsCommute(g, q, lim, AfterNode(g, q, lim, o, vis[0]), x, vis[1..]);
    }
  }

  lemma NodeCommutes(g: Graph, q: Query, lim: Limits, o: Outcome, x: Rejects, r: Run)
    ensures AfterNode(g, q, lim, AddRejects(o, x), r) == AddRejects(AfterNode(g, q, lim, o, r), x)
  {}

  // ---- Depth-first order ----

  function Room(lim: Limits, len: nat): nat { if len < lim.maxPathLen then lim.maxPathLen - len else 0 }

  /** The runs depth-first search visits from r, in order. */
  function Visit(g: Graph, q: Query, lim: Limits, r: Run): (vis: seq<Run>)
    decreases Room(lim, Len(r)), 0, 0
  {
    [r] + if TooDeep(lim, r) || Idx(r) >= |q.steps| then [] else VisitAll(g, q, lim, r, Children(g, q, r))
  }

  function VisitAll(g: Graph, q: Query, lim: Limits, r: Run, cs: seq<Run>): seq<Run>
    requires ChildrenOf(cs, r)
    decreases Room(lim, Len(r) + 1), 1, |cs|
  {
    if cs == [] then [] else Visit(g, q, lim, cs[0]) + VisitAll(g, q, lim, r, cs[1..])
  }

  /** The concatenated visits from a list of roots of any length. */
  function VisitRoots(g: Graph, q: Query, lim: Limits, roots: seq<Run>): seq<Run> {
    if roots == [] then [] else Visit(g, q, lim, roots[0]) + VisitRoots(g, q, lim, roots[1..])
  }

  lemma {:induction false} VisitAllAppend(g: Graph, q: Query, lim: Limits, r: Run, a: seq<Run>, b: seq<Run>)
    requires ChildrenOf(a, r) && ChildrenOf(b, r)
    ensures ChildrenOf(a + b, r)
    ensures VisitAll(g, q, lim, r, a + b) == VisitAll(g, q, lim, r, a) + VisitAll(g, q, lim, r, b)
  {
    if a == [] {
      assert a + b == b;
    } else {
      TailOfConcat(a, b);
      VisitAllAppend(g, q, lim, r, a[1..], b);
    }
  }

  lemma {:induction false} VisitRootsAppend(g: Graph, q: Query, lim: Limits, a: seq<Run>, b: seq<Run>)
    ensures VisitRoots(g, q, lim, a + b) == VisitRoots(g, q, lim, a) + VisitRoots(g, q, lim, b)
  {
    if a == [] {
      assert a + b == b;
    } else {
      TailOfConcat(a, b);
      VisitRootsAppend(g, q, lim, a[1..], b);
    }
  }

  /** x continues r by allowed steps only. */
  predicate Reaches(g: Graph, q: Query, r: Run, x: Run) {
    x == r || (x.Take? && Reaches(g, q, r, x.prev) && IsChild(g, q, x.prev, x))
  }

  lemma {:induction false} ReachesMeans(g: Graph, q: Query, r: Run, x: Run)
    requires Reaches(g, q, r, x)
    ensures Len(r) <= Len(x) && Idx(r) <= Idx(x) && Origin(r) == Origin(x) && StartTime(r) == StartTime(x)
    ensures x != r ==> Len(r) < Len(x) && Idx(r) < |q.steps| && Idx(x) <= |q.steps|
    ensures Partial(g, q, r) ==> Partial(g, q, x)
  {
    if x != r {
      ReachesMeans(g, q, r, x.prev);
    }
  }

  /** The unique child of r on the way to x. */
  function Toward(r: Run, x: Run): Run {
    if x.Take? && x.prev != r then Toward(r, x.prev) else x
  }

  lemma {:induction false} TowardStep(g: Graph, q: Query, r: Run, x: Run)
    requires Reaches(g, q, r, x) && x != r
    ensures IsChild(g, q, r, Toward(r, x)) && Reaches(g, q, Toward(r, x), x)
  {
    if x.prev != r {
      TowardStep(g, q, r, x.prev);
    }
  }

  lemma {:induction false} ReachesFromChild(g: Graph, q: Query, r: Run, c: Run, x: Run)
    requires IsChild(g, q, r, c) && Reaches(g, q, c, x)
    ensures Reaches(g, q, r, x) && x != r
  {
    ReachesMeans(g, q, c, x);
    if x != c {
      ReachesFromChild(g, q, r, c, x.prev);
    }
  }

  lemma {:induction false} AncestorUnique(g: Graph, q: Query, a: Run, b: Run, x: Run)
    requires Reaches(g, q, a, x) && Reaches(g, q, b, x) && Len(a) == Len(b)
    ensures a == b
  {
    if x != a && x != b {
      AncestorUnique(g, q, a, b, x.prev);
    } else {
      ReachesMeans(g, q, a, x);
      ReachesMeans(g, q, b, x);
    }
  }

  /** A proper continuation of r goes through exactly one of its children. */
  lemma ReachesByChild(g: Graph, q: Query, r: Run, x: Run)
    requires Idx(r) < |q.steps|
    ensures Reaches(g, q, r, x) && x != r <==> exists c :: c in Children(g, q, r) && Reaches(g, q, c, x)
  {
    ChildrenExact(g, q, r);
    if Reaches(g, q, r, x) && x != r {
      TowardStep(g, q, r, x);
      assert Toward(r, x) in Children(g, q, r);
    }
    forall c | c in Children(g, q, r) && Reaches(g, q, c, x) ensures Reaches(g, q, r, x) && x != r {
      ReachesFromChild(g, q, r, c, x);
    }
  }

  /** Depth-first search visits exactly the continuations of r up to the length limit, once each. */
  lemma {:induction false} VisitExact(g: Graph, q: Query, lim: Limits, r: Run)
    requires Len(r) <= lim.maxPathLen
    ensures Distinct(Visit(g, q, lim, r))
    ensures forall x :: x in Visit(g, q, lim, r) <==> Reaches(g, q, r, x) && Len(x) <= lim.maxPathLen
    decreases Room(lim, Len(r)), 0, 0
  {
    if TooDeep(lim, r) || Idx(r) >= |q.steps| {
      assert Visit(g, q, lim, r) == [r];
      forall x | Reaches(g, q, r, x) ensures x != r ==> Len(x) > lim.maxPathLen {
        ReachesMeans(g, q, r, x);
      }
    } else {
      var cs := Children(g, q, r);
      ChildrenExact(g, q, r);
      VisitAllExact(g, q, lim, r, cs);
      var rest := VisitAll(g, q, lim, r, cs);
      assert Visit(g, q, lim, r) == [r] + rest;
      forall x ensures x in rest <==> Reaches(g, q, r, x) && x != r && Len(x) <= lim.maxPathLen {
        ReachesByChild(g, q, r, x);
      }
      DistinctAppend([r], rest);
    }
  }

  lemma {:induction false} VisitAllExact(g: Graph, q: Query, lim: Limits, r: Run, cs: seq<Run>)
    requires Len(r) < lim.maxPathLen && Distinct(cs) && ChildrenOf(cs, r)
    ensures Distinct(VisitAll(g, q, lim, r, cs))
    ensures forall x :: x in VisitAll(g, q, lim, r, cs) <==>
      (exists c :: c in cs && Reaches(g, q, c, x)) && Len(x) <= lim.maxPathLen
    decreases Room(lim, Len(r) + 1), 1, |cs|
  {
    if cs != [] {
      VisitExact(g, q, lim, cs[0]);
      VisitAllExact(g, q, lim, r, cs[1..]);
      forall x | x in Visit(g, q, lim, cs[0]) ensures x !in VisitAll(g, q, lim, r, cs[1..]) {
        forall c | c in cs[1..] && Reaches(g, q, c, x) ensures false {
          AncestorUnique(g, q, cs[0], c, x);
        }
      }
      DistinctAppend(Visit(g, q, lim, cs[0]), VisitAll(g, q, lim, r, cs[1..]));
      assert forall c :: c in cs <==> c == cs[0] || c in cs[1..];
    }
  }
}
