/** The three native executors over shared mutable buffers: recursive depth-first search
    (M-CET), breadth-first search through a bounded queue (T-CET) and the hybrid (H-CET). */
module Executors {
  import opened TrendGraph
  import opened SearchSpec
  import opened Adjacency

  /** Fixed-size result table; a row and its length are one sequence. */
  class ResultBuf {
    const paths: array<seq<int>>
    var count: nat

    constructor (lim: Limits)
      ensures fresh(paths) && paths.Length == lim.maxPaths && count == 0
    {
      paths := new seq<int>[lim.maxPaths](_ => []);
      count := 0;
    }

    ghost predicate Valid(lim: Limits)
      reads this
    {
      count <= paths.Length == lim.maxPaths
    }

    ghost function Contents(): seq<seq<int>>
      requires count <= paths.Length
      reads this, paths
    {
      paths[..count]
    }
  }

  /** The diagnostics record, updated in place field by field. */
  class ExecStats {
    var counts: Counters

    constructor ()
      ensures counts == NoCounts
    {
      counts := NoCounts;
    }

    method NoteDepth(depth: nat)
      modifies this
      ensures counts == old(counts).(maxDepth := Max(old(counts).maxDepth, depth))
    {
      if depth > counts.maxDepth {
        counts := counts.(maxDepth := depth);
      }
    }

    method TruncatePath()
      modifies this
      ensures counts == old(counts).(pathsTruncated := old(counts).pathsTruncated + 1, overflow := true)
    {
      counts := counts.(pathsTruncated := counts.pathsTruncated + 1);
      counts := counts.(overflow := true);
    }

    method TruncateState()
      modifies this
      ensures counts == old(counts).(statesTruncated := old(counts).statesTruncated + 1, overflow := true)
    {
      counts := counts.(statesTruncated := counts.statesTruncated + 1);
      counts := counts.(overflow := true);
    }

    method Reject(why: Rejects)
      modifies this
      ensures counts == Charge(old(counts), why)
    {
      counts := counts.(rejects := counts.rejects.Plus(why));
    }

    /** Adds another worker's counters; a worker's overflow is never lost. */
    method Merge(src: ExecStats)
      modifies this
      ensures counts == MergeCounters(old(counts), old(src.counts))
    {
      var s := src.counts;
      counts := counts.(pathsEmitted := counts.pathsEmitted + s.pathsEmitted);
      counts := counts.(pathsTruncated := counts.pathsTruncated + s.pathsTruncated);
      counts := counts.(statesEnqueued := counts.statesEnqueued + s.statesEnqueued);
      counts := counts.(statesTruncated := counts.statesTruncated + s.statesTruncated);
      counts := counts.(seedPaths := counts.seedPaths + s.seedPaths);
      if s.maxDepth > counts.maxDepth { counts := counts.(maxDepth := s.maxDepth); }
      counts := counts.(rejects := counts.rejects.Plus(s.rejects));
      if s.overflow { counts := counts.(overflow := true); }
    }
  }

  function MergeCounters(d: Counters, s: Counters): Counters {
    Counters(d.pathsEmitted + s.pathsEmitted, d.pathsTruncated + s.pathsTruncated,
             d.statesEnqueued + s.statesEnqueued, d.statesTruncated + s.statesTruncated,
             d.seedPaths + s.seedPaths, Max(d.maxDepth, s.maxDepth), d.rejects.Plus(s.rejects),
             d.overflow || s.overflow)
  }

  function Charge(c: Counters, r: Rejects): Counters {
    c.(rejects := c.rejects.Plus(r))
  }

  ghost function View(out: ResultBuf, stats: ExecStats): Outcome
    requires out.count <= out.paths.Length
    reads out, out.paths, stats
  {
    Outcome(out.Contents(), stats.counts)
  }

  method EmitEx(lim: Limits, out: ResultBuf, path: seq<int>, stats: ExecStats)
    requires out.Valid(lim)
    modifies out, out.paths, stats
    ensures out.Valid(lim)
    ensures View(out, stats) == Emit(lim, old(View(out, stats)), path)
  {
    stats.NoteDepth(|path|);
    if |path| > lim.maxPathLen || out.count >= lim.maxPaths {
      stats.TruncatePath();
      return;
    }
    ghost var before := out.Contents();
    out.paths[out.count] := path;
    out.count := out.count + 1;
    assert out.Contents() == before + [path];
    stats.counts := stats.counts.(pathsEmitted := stats.counts.pathsEmitted + 1);
  }

  method EdgeTemporalOk(g: Graph, q: Query, prevId: int, startTime: int, e: AdjEdge, stats: ExecStats) returns (ok: bool)
    modifies stats
    ensures var gate := EdgeGate(g, q, prevId, startTime, Edge(prevId, e.to, e.windowStart, e.windowEnd));
      && ok == (gate == Pass)
      && stats.counts == Charge(old(stats.counts), GateRejects(gate))
  {
    var p := VertexPosition(g, prevId);
    var n := VertexPosition(g, e.to);
    if p < 0 || n < 0 {
      stats.Reject(GateRejects(TemporalReject));
      return false;
    }
    var pt, nt := g.vertices[p].time, g.vertices[n].time;
    if nt < startTime || nt < pt {
      stats.Reject(GateRejects(TemporalReject));
      return false;
    }
    if q.withinMs >= 0 && nt - startTime > q.withinMs {
      stats.Reject(GateRejects(TemporalReject));
      return false;
    }
    if e.windowEnd > e.windowStart {
      if pt < e.windowStart || pt > e.windowEnd || nt < e.windowStart || nt > e.windowEnd {
        stats.Reject(GateRejects(WindowReject));
        return false;
      }
    }
    return true;
  }

  method TypeAndPredMatch(g: Graph, q: Query, prevId: int, currId: int, idx: nat, stats: ExecStats) returns (ok: bool)
    modifies stats
    ensures ok == TypeMatches(g, q, prevId, currId, idx)
    ensures stats.counts == Charge(old(stats.counts), if ok then NoRejects else Rejects(0, 0, 1))
  {
    var p := VertexPosition(g, currId);
    ok := p >= 0 && idx < |q.steps| && g.vertices[p].eventType == q.steps[idx].name && q.steps[idx].accepts(prevId, currId);
    if !ok {
      stats.Reject(Rejects(0, 0, 1));
    }
  }

  /** What the depth-first search from r still owes when edges `rest` of r are left. */
  ghost function Owed(g: Graph, q: Query, lim: Limits, o: Outcome, r: Run, rest: seq<nat>): Outcome
    requires InRange(rest, |g.edges|) && Idx(r) < |q.steps|
  {
    AfterAll(g, q, lim, AddRejects(o, RejectsOver(g, q, r, rest)),
             VisitAll(g, q, lim, r, ChildrenOver(g, q, r, rest)))
  }

  lemma Interleave(g: Graph, q: Query, lim: Limits, o: Outcome, x: Rejects, y: Rejects, vc: seq<Run>, vd: seq<Run>)
    ensures AfterAll(g, q, lim, AddRejects(o, x.Plus(y)), vc + vd) ==
      AfterAll(g, q, lim, AddRejects(AfterAll(g, q, lim, AddRejects(o, x), vc), y), vd)
  {
    PlusAssociates(o.c.rejects, x, y);
    var ox := AddRejects(o, x);
    assert AddRejects(o, x.Plus(y)) == AddRejects(ox, y);
    AfterAllAppend(g, q, lim, AddRejects(ox, y), vc, vd);
    RejectsCommute(g, q, lim, ox, y, vc);
  }

  lemma VisitUnfolds(g: Graph, q: Query, lim: Limits, o: Outcome, r: Run)
    requires !TooDeep(lim, r) && Idx(r) < |q.steps|
    ensures AfterAll(g, q, lim, o, Visit(g, q, lim, r)) == Owed(g, q, lim, NoteDepth(o, Len(r)), r, Out(g, r))
  {
    var vs := VisitAll(g, q, lim, r, Children(g, q, r));
    assert Visit(g, q, lim, r) == [r] + vs;
    assert ([r] + vs)[1..] == vs;
  }

  lemma VisitStops(g: Graph, q: Query, lim: Limits, o: Outcome, r: Run)
    requires TooDeep(lim, r) || Idx(r) >= |q.steps|
    ensures AfterAll(g, q, lim, o, Visit(g, q, lim, r)) == AfterNode(g, q, lim, o, r)
  {
    assert Visit(g, q, lim, r) == [r];
    assert [r][1..] == [];
  }

  lemma OwedNothing(g: Graph, q: Query, lim: Limits, o: Outcome, r: Run)
    requires Idx(r) < |q.steps|
    ensures Owed(g, q, lim, o, r, []) == o
  {}

  datatype Verdict = Blocked | Match | Mismatch

  /** How the run r finds the edge e. */
  function EdgeVerdict(g: Graph, q: Query, r: Run, e: nat): Verdict
    requires e < |g.edges|
  {
    if EdgeGate(g, q, Last(r), StartTime(r), g.edges[e]) != Pass then Blocked
    else if TypeMatches(g, q, Last(r), g.edges[e].dst, Idx(r)) then Match
    else Mismatch
  }

  /** What the visits below one edge amount to, in the shape of the loop body. */
  function AfterEdge(g: Graph, q: Query, lim: Limits, o: Outcome, r: Run, e: nat): Outcome
    requires e < |g.edges| && Idx(r) < |q.steps|
  {
    var to := g.edges[e].dst;
    match EdgeVerdict(g, q, r, e)
    case Blocked => o
    case Match =>
      var o' := if q.steps[Idx(r)].kleenePlus then AfterAll(g, q, lim, o, Visit(g, q, lim, Take(r, e, to, Stay))) else o;
      AfterAll(g, q, lim, o', Visit(g, q, lim, Take(r, e, to, Advance)))
    case Mismatch =>
      if q.skipTillAnyMatch then AfterAll(g, q, lim, o, Visit(g, q, lim, Take(r, e, to, Skip))) else o
  }

  lemma VisitOne(g: Graph, q: Query, lim: Limits, c: Run)
    requires c.Take?
    ensures VisitAll(g, q, lim, c.prev, [c]) == Visit(g, q, lim, c)
  {
    assert [c][1..] == [];
  }

  lemma EdgeVisits(g: Graph, q: Query, lim: Limits, o: Outcome, r: Run, e: nat)
    requires e < |g.edges| && Idx(r) < |q.steps|
    ensures AfterAll(g, q, lim, o, VisitAll(g, q, lim, r, EdgeChildren(g, q, r, e))) == AfterEdge(g, q, lim, o, r, e)
  {
    hide EdgeRejects, AfterNode;
    var to := g.edges[e].dst;
    var stay, adv, skip := Take(r, e, to, Stay), Take(r, e, to, Advance), Take(r, e, to, Skip);
    VisitOne(g, q, lim, stay);
    VisitOne(g, q, lim, adv);
    VisitOne(g, q, lim, skip);
    VisitAllAppend(g, q, lim, r, [stay], [adv]);
    assert [] + [adv] == [adv];
    AfterAllAppend(g, q, lim, o, Visit(g, q, lim, stay), Visit(g, q, lim, adv));
  }

  lemma HeadOver(g: Graph, q: Query, r: Run, e: nat, rest: seq<nat>)
    requires InRange([e] + rest, |g.edges|) && InRange(rest, |g.edges|) && e < |g.edges| && Idx(r) < |q.steps|
    ensures ChildrenOver(g, q, r, [e] + rest) == EdgeChildren(g, q, r, e) + ChildrenOver(g, q, r, rest)
    ensures RejectsOver(g, q, r, [e] + rest) == EdgeRejects(g, q, r, e).Plus(RejectsOver(g, q, r, rest))
  {
    assert ([e] + rest)[1..] == rest;
  }

  lemma VisitsOver(g: Graph, q: Query, lim: Limits, r: Run, e: nat, rest: seq<nat>)
    requires InRange([e] + rest, |g.edges|) && InRange(rest, |g.edges|) && e < |g.edges| && Idx(r) < |q.steps|
    ensures VisitAll(g, q, lim, r, ChildrenOver(g, q, r, [e] + rest)) ==
      VisitAll(g, q, lim, r, EdgeChildren(g, q, r, e)) + VisitAll(g, q, lim, r, ChildrenOver(g, q, r, rest))
  {
    HeadOver(g, q, r, e, rest);
    VisitAllAppend(g, q, lim, r, EdgeChildren(g, q, r, e), ChildrenOver(g, q, r, rest));
  }

  /** Owing edges [e] + rest is owing e's rejection, then e's subtrees, then the rest. */
  lemma OwedStep(g: Graph, q: Query, lim: Limits, o: Outcome, r: Run, e: nat, rest: seq<nat>)
    requires InRange([e] + rest, |g.edges|) && InRange(rest, |g.edges|) && e < |g.edges| && Idx(r) < |q.steps|
    ensures Owed(g, q, lim, o, r, [e] + rest) ==
      Owed(g, q, lim, AfterEdge(g, q, lim, AddRejects(o, EdgeRejects(g, q, r, e)), r, e), r, rest)
  {
    var x, y := EdgeRejects(g, q, r, e), RejectsOver(g, q, r, rest);
    var vc := VisitAll(g, q, lim, r, EdgeChildren(g, q, r, e));
    var vd := VisitAll(g, q, lim, r, ChildrenOver(g, q, r, rest));
    calc {
      Owed(g, q, lim, o, r, [e] + rest);
      { HeadOver(g, q, r, e, rest); VisitsOver(g, q, lim, r, e, rest); }
      AfterAll(g, q, lim, AddRejects(o, x.Plus(y)), vc + vd);
      { Interleave(g, q, lim, o, x, y, vc, vd); }
      AfterAll(g, q, lim, AddRejects(AfterAll(g, q, lim, AddRejects(o, x), vc), y), vd);
      { EdgeVisits(g, q, lim, AddRejects(o, x), r, e); }
      Owed(g, q, lim, AfterEdge(g, q, lim, AddRejects(o, x), r, e), r, rest);
    }
  }

  /** Both edge tests, charging the counters for the first that fails. */
  method Examine(g: Graph, q: Query, prev: int, ae: AdjEdge, idx: nat, startTime: int, stats: ExecStats,
                 ghost r: Run, ghost e: nat) returns (verdict: Verdict)
    requires Copies(g, ae, e) && prev == Last(r) && idx == Idx(r) && startTime == StartTime(r)
    modifies stats
    ensures verdict == EdgeVerdict(g, q, r, e)
    ensures stats.counts == Charge(old(stats.counts), EdgeRejects(g, q, r, e))
  {
    var ok := EdgeTemporalOk(g, q, prev, startTime, ae, stats);
    if !ok { return Blocked; }
    var matches := TypeAndPredMatch(g, q, prev, ae.to, idx, stats);
    return if matches then Match else Mismatch;
  }

  ghost predicate Spells(path: array<int>, r: Run)
    reads path
  {
    Len(r) <= path.Length && path[..Len(r)] == Path(r)
  }

  lemma SpellsPrefix(path: array<int>, r: Run)
    requires r.Take? && Spells(path, r)
    ensures Spells(path, r.prev)
  {
    assert path[..Len(r.prev)] == path[..Len(r)][..Len(r.prev)];
  }

  ghost predicate Ready(lim: Limits, path: array<int>, out: ResultBuf)
    reads out
  {
    out.Valid(lim) && path.Length == lim.maxPathLen && path as object != out.paths as object
  }

  /** Recursive depth-first search from a run whose vertices are path[..len].  The caller's part
      of the shared path buffer survives, and buffer and counters end exactly as after visiting,
      in depth-first order, every continuation of r. */
  method Dfs(g: Graph, q: Query, lim: Limits, a: AdjIndex, path: array<int>, len: nat, idx: nat, startTime: int,
             out: ResultBuf, stats: ExecStats, ghost r: Run)
    requires Built(g, a) && Ready(lim, path, out)
    requires Spells(path, r) && len == Len(r) && idx == Idx(r) && startTime == StartTime(r)
    modifies path, out, out.paths, stats
    ensures Ready(lim, path, out) && Spells(path, r)
    ensures View(out, stats) == AfterAll(g, q, lim, old(View(out, stats)), Visit(g, q, lim, r))
    decreases lim.maxPathLen - len, 2
  {
    ghost var o := View(out, stats);
    stats.NoteDepth(len);
    if len >= lim.maxPathLen {
      stats.TruncatePath();
      VisitStops(g, q, lim, o, r);
      return;
    }
    if idx >= |q.steps| {
      EmitEx(lim, out, path[..len], stats);
      VisitStops(g, q, lim, o, r);
      return;
    }
    FollowEdges(g, q, lim, a, path, len, idx, startTime, out, stats, r);
    VisitUnfolds(g, q, lim, o, r);
  }

  /** The adjacency loop of Dfs. */
  method FollowEdges(g: Graph, q: Query, lim: Limits, a: AdjIndex, path: array<int>, len: nat, idx: nat, startTime: int,
                     out: ResultBuf, stats: ExecStats, ghost r: Run)
    requires Built(g, a) && Ready(lim, path, out)
    requires Spells(path, r) && len == Len(r) < path.Length && idx == Idx(r) < |q.steps| && startTime == StartTime(r)
    modifies path, out, out.paths, stats
    ensures Ready(lim, path, out) && Spells(path, r)
    ensures View(out, stats) == Owed(g, q, lim, old(View(out, stats)), r, Out(g, r))
    decreases lim.maxPathLen - len, 1
  {
    hide Owed;
    var p := VertexPosition(g, path[len - 1]);
    if p < 0 {
      OwedNothing(g, q, lim, View(out, stats), r);
      return;
    }
    ghost var target := Owed(g, q, lim, View(out, stats), r, Out(g, r));
    var ei := a.head[p];
    while ei != -1
      invariant Ready(lim, path, out) && -1 <= ei < |a.slots| && Spells(path, r)
      invariant InRange(From(g, a, ei), |g.edges|)
      invariant Owed(g, q, lim, View(out, stats), r, From(g, a, ei)) == target
      decreases ei
    {
      ghost var e := Next(g, a, ei);
      var ae := a.slots[ei];
      ei := ae.next;
      OwedStep(g, q, lim, View(out, stats), r, e, From(g, a, ei));
      FollowEdge(g, q, lim, a, path, len, idx, startTime, out, stats, ae, r, e);
    }
    OwedNothing(g, q, lim, View(out, stats), r);
  }

  /** One round of the adjacency loop of Dfs. */
  method FollowEdge(g: Graph, q: Query, lim: Limits, a: AdjIndex, path: array<int>, len: nat, idx: nat, startTime: int,
                    out: ResultBuf, stats: ExecStats, ae: AdjEdge, ghost r: Run, ghost e: nat)
    requires Built(g, a) && Ready(lim, path, out)
    requires Spells(path, r) && len == Len(r) < path.Length && idx == Idx(r) < |q.steps| && startTime == StartTime(r)
    requires Copies(g, ae, e)
    modifies path, out, out.paths, stats
    ensures Ready(lim, path, out) && Spells(path, r)
    ensures View(out, stats) ==
      AfterEdge(g, q, lim, AddRejects(old(View(out, stats)), EdgeRejects(g, q, r, e)), r, e)
    decreases lim.maxPathLen - len, 0
  {
    hide EdgeVerdict, EdgeRejects, Visit, AfterAll;
    var prev := path[len - 1];
    var verdict := Examine(g, q, prev, ae, idx, startTime, stats, r, e);
    if verdict == Blocked { return; }
    if verdict == Match {
      path[len] := ae.to;
      assert path[..len + 1] == Path(r) + [ae.to];
      if q.steps[idx].kleenePlus {
        Dfs(g, q, lim, a, path, len + 1, idx, startTime, out, stats, Take(r, e, ae.to, Stay));
      }
      Dfs(g, q, lim, a, path, len + 1, idx + 1, startTime, out, stats, Take(r, e, ae.to, Advance));
      SpellsPrefix(path, Take(r, e, ae.to, Advance));
    } else if q.skipTillAnyMatch {
      path[len] := ae.to;
      assert path[..len + 1] == Path(r) + [ae.to];
      Dfs(g, q, lim, a, path, len + 1, idx, startTime, out, stats, Take(r, e, ae.to, Skip));
      SpellsPrefix(path, Take(r, e, ae.to, Skip));
    }
  }
}
