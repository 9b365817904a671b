/** M-CET, T-CET and H-CET, run over the mutable buffers and proved to leave exactly the
    outcomes of McetOutcome, TcetOutcome and HcetOutcome. */
module Engines {
  import opened TrendGraph
  import opened SearchSpec
  import opened BreadthFirst
  import opened Adjacency
  import opened Executors
  import opened BreadthFirstFacts

  datatype State = State(path: seq<int>, idx: nat, startTs: int)

  function StateOf(r: Run): State {
    State(Path(r), Idx(r), StartTime(r))
  }

  /** The counters c with those that describe the queue set from the trace. */
  function Book(c: Counters, t: Trace): Counters {
    c.(statesEnqueued := |t.queue|, statesTruncated := |t.lost|, maxDepth := Deepest(t.queue), overflow := t.lost != [])
  }

  lemma DeepestSnoc(s: seq<Run>, r: Run)
    ensures Deepest(s + [r]) == Max(Deepest(s), Len(r))
  {
    assert (s + [r])[..|s|] == s;
  }

  function States(s: seq<Run>): seq<State> {
    if s == [] then [] else States(s[..|s| - 1]) + [StateOf(s[|s| - 1])]
  }

  lemma {:induction false} StatesAt(s: seq<Run>, i: nat)
    requires i < |s|
    ensures |States(s)| == |s| && States(s)[i] == StateOf(s[i])
  {
    if |s| > 1 {
      StatesAt(s[..|s| - 1], if i < |s| - 1 then i else 0);
    }
  }

  lemma StatesSnoc(s: seq<Run>, r: Run)
    ensures States(s + [r]) == States(s) + [StateOf(r)]
  {
    assert (s + [r])[..|s|] == s;
  }

  class StateQueue {
    const buf: array<State>
    var tail: nat

    constructor (lim: Limits)
      ensures fresh(buf) && Holds(lim, Trace([], []))
    {
      buf := new State[lim.maxPaths](_ => State([], 0, 0));
      tail := 0;
    }

    /** buf[..tail] are the states of the runs queued so far. */
    ghost predicate Holds(lim: Limits, t: Trace)
      reads this, buf
    {
      buf.Length == lim.maxPaths && tail == |t.queue| <= buf.Length && buf[..tail] == States(t.queue)
    }

    method Enqueue(lim: Limits, s: State, stats: ExecStats, ghost t: Trace, ghost r: Run) returns (ok: bool, ghost t': Trace)
      requires Holds(lim, t) && s == StateOf(r) && stats.counts == Book(stats.counts, t)
      modifies this, buf, stats
      ensures t' == Push(lim, t, r) && ok == (|t.queue| < lim.maxPaths)
      ensures Holds(lim, t') && stats.counts == Book(old(stats.counts), t')
    {
      hide Deepest, States;
      t' := Push(lim, t, r);
      if tail >= lim.maxPaths {
        stats.TruncateState();
        return false, t';
      }
      DeepestSnoc(t.queue, r);
      StatesSnoc(t.queue, r);
      buf[tail] := s;
      tail := tail + 1;
      assert buf[..tail] == States(t.queue) + [s];
      stats.counts := stats.counts.(statesEnqueued := stats.counts.statesEnqueued + 1);
      stats.NoteDepth(|s.path|);
      return true, t';
    }
  }

  /** One edge of a popped state: push the continuations it allows. */
  method ExpandEdge(g: Graph, q: Query, lim: Limits, s: State, ae: AdjEdge, queue: StateQueue, stats: ExecStats,
                    ghost t: Trace, ghost r: Run, ghost e: nat) returns (ghost t': Trace)
    requires queue.Holds(lim, t) && stats.counts == Book(stats.counts, t)
    requires s == StateOf(r) && s.idx < |q.steps| && Copies(g, ae, e)
    modifies queue, queue.buf, stats
    ensures t' == BfsEdge(g, q, lim, t, r, e)
    ensures queue.Holds(lim, t') && stats.counts == Book(Charge(old(stats.counts), EdgeRejects(g, q, r, e)), t')
  {
    hide BfsEdge, PushAll, EdgeChildren, EdgeGate, TypeMatches, Deepest, States, EdgeVerdict, EdgeRejects;
    t' := t;
    EdgePushes(g, q, lim, t, r, e);
    var verdict := Examine(g, q, s.path[|s.path| - 1], ae, s.idx, s.startTs, stats, r, e);
    if verdict == Blocked || (verdict == Mismatch && !q.skipTillAnyMatch) { return; }
    if |s.path| >= lim.maxPathLen {
      stats.TruncateState();
      t' := BfsEdge(g, q, lim, t, r, e);
      return;
    }
    var path := s.path + [ae.to];
    var pushed: bool;
    if verdict == Match {
      if q.steps[s.idx].kleenePlus {
        pushed, t' := queue.Enqueue(lim, State(path, s.idx, s.startTs), stats, t', Take(r, e, ae.to, Stay));
      }
      pushed, t' := queue.Enqueue(lim, State(path, s.idx + 1, s.startTs), stats, t', Take(r, e, ae.to, Advance));
    } else {
      pushed, t' := queue.Enqueue(lim, State(path, s.idx, s.startTs), stats, t', Take(r, e, ae.to, Skip));
    }
  }

  /** BfsEdge, case by case, as the loop body pushes the continuations. */
  lemma EdgePushes(g: Graph, q: Query, lim: Limits, t: Trace, r: Run, e: nat)
    requires |t.queue| <= lim.maxPaths && e < |g.edges| && Idx(r) < |q.steps|
    ensures var to, verdict := g.edges[e].dst, EdgeVerdict(g, q, r, e);
      BfsEdge(g, q, lim, t, r, e) ==
        if verdict == Blocked || (verdict == Mismatch && !q.skipTillAnyMatch) then t
        else if Len(r) >= lim.maxPathLen then t.(lost := t.lost + [Take(r, e, to, if verdict == Mismatch then Skip else if q.steps[Idx(r)].kleenePlus then Stay else Advance)])
        else if verdict == Match then
          Push(lim, if q.steps[Idx(r)].kleenePlus then Push(lim, t, Take(r, e, to, Stay)) else t, Take(r, e, to, Advance))
        else Push(lim, t, Take(r, e, to, Skip))
  {
    var cs := EdgeChildren(g, q, r, e);
    if cs != [] {
      PushOne(lim, t, cs);
      PushOne(lim, Push(lim, t, cs[0]), cs[1..]);
    }
  }

  lemma PushOne(lim: Limits, t: Trace, cs: seq<Run>)
    requires |t.queue| <= lim.maxPaths
    ensures cs != [] ==> PushAll(lim, t, cs) == PushAll(lim, Push(lim, t, cs[0]), cs[1..])
    ensures |cs| == 1 ==> PushAll(lim, t, cs) == Push(lim, t, cs[0])
  {
    if |cs| == 1 { assert cs[1..] == []; }
  }

  /** The adjacency loop of T-CET for one popped, unfinished state. */
  method Expand(g: Graph, q: Query, lim: Limits, a: AdjIndex, s: State, queue: StateQueue, stats: ExecStats,
                ghost t: Trace, ghost r: Run) returns (ghost t': Trace)
    requires Built(g, a) && queue.Holds(lim, t) && stats.counts == Book(stats.counts, t)
    requires s == StateOf(r) && s.idx < |q.steps|
    modifies queue, queue.buf, stats
    ensures t' == BfsEdges(g, q, lim, t, r, Out(g, r))
    ensures queue.Holds(lim, t') && stats.counts == Book(Charge(old(stats.counts), RejectsOver(g, q, r, Out(g, r))), t')
  {
    hide BfsEdge, EdgeRejects, Deepest, States, OutEdges, Chain, Origins, ChildrenOver;
    t' := t;
    var p := VertexPosition(g, s.path[|s.path| - 1]);
    if p < 0 { return; }
    FromEnd(g, a);
    ghost var all := Out(g, r);
    var ei := a.head[p];
    while ei != -1
      invariant -1 <= ei < |a.slots| && InRange(From(g, a, ei), |g.edges|)
      invariant queue.Holds(lim, t') && stats.counts == Book(stats.counts, t')
      invariant BfsEdges(g, q, lim, t', r, From(g, a, ei)) == BfsEdges(g, q, lim, t, r, all)
      invariant Book(Charge(stats.counts, RejectsOver(g, q, r, From(g, a, ei))), t') ==
        Book(Charge(old(stats.counts), RejectsOver(g, q, r, all)), t')
      decreases ei
    {
      ghost var e := Next(g, a, ei);
      var ae := a.slots[ei];
      ei := ae.next;
      ghost var rest := From(g, a, ei);
      HeadOver(g, q, r, e, rest);
      assert ([e] + rest)[1..] == rest;
      PlusAssociates(stats.counts.rejects, EdgeRejects(g, q, r, e), RejectsOver(g, q, r, rest));
      t' := ExpandEdge(g, q, lim, s, ae, queue, stats, t', r, e);
    }
  }

  lemma FinishedSnoc(q: Query, s: seq<Run>, r: Run)
    ensures Finished(q, s + [r]) == Finished(q, s) + if Idx(r) >= |q.steps| then [r] else []
  {
    assert (s + [r])[..|s|] == s;
  }

  lemma PathsSnoc(s: seq<Run>, r: Run)
    ensures Paths(s + [r]) == Paths(s) + [Path(r)]
  {
    assert (s + [r])[..|s|] == s;
  }

  lemma QueueRejectsSnoc(g: Graph, q: Query, s: seq<Run>, r: Run)
    ensures QueueRejects(g, q, s + [r]) == QueueRejects(g, q, s).Plus(NodeRejects(g, q, r))
  {
    assert (s + [r])[..|s|] == s;
  }

  lemma {:induction false} FinishedShort(q: Query, s: seq<Run>)
    ensures |Finished(q, s)| <= |s|
  {
    if s != [] { FinishedShort(q, s[..|s| - 1]); }
  }

  lemma {:induction false} DeepestCovers(s: seq<Run>, i: nat)
    requires i < |s|
    ensures Len(s[i]) <= Deepest(s)
  {
    if i < |s| - 1 { DeepestCovers(s[..|s| - 1], i); }
  }

  /** What T-CET has written once the runs `done` have been popped and the queue stands at t. */
  function Popped(g: Graph, q: Query, done: seq<Run>, t: Trace): Outcome {
    Outcome(Paths(Finished(q, done)),
            Book(Counters(|Finished(q, done)|, 0, 0, 0, 0, 0, QueueRejects(g, q, done), false), t))
  }

  lemma PoppedNothing(g: Graph, q: Query, t: Trace)
    ensures Popped(g, q, t.queue[..0], t) == Outcome([], Book(NoCounts, t)) && Deepest([]) == 0
  {
    assert t.queue[..0] == [];
  }

  method Reset(out: ResultBuf, stats: ExecStats)
    modifies out, stats
    ensures out.count == 0 && View(out, stats) == Fresh
  {
    out.count := 0;
    stats.counts := NoCounts;
  }

  method Tcet(g: Graph, q: Query, lim: Limits, begin: nat, end: nat, out: ResultBuf, stats: ExecStats)
    requires Fits(g, lim) && out.paths.Length == lim.maxPaths
    modifies out, out.paths, stats
    ensures out.Valid(lim) && View(out, stats) == TcetOutcome(g, q, lim, begin, end)
  {
    hide Deepest, States, Finished, Paths, QueueRejects, BfsPop, Built;
    Reset(out, stats);
    if |q.steps| == 0 { return; }
    var from := if begin > |g.vertices| then |g.vertices| else begin;
    var to := if end > |g.vertices| then |g.vertices| else end;
    if to < from { to := from; }
    var a := BuildAdj(g, lim);
    var queue := new StateQueue(lim);
    ghost var t := EnqueueStarts(g, q, lim, from, to, queue, stats);
    ghost var t0 := t;
    PoppedNothing(g, q, t);
    StartsShort(g, q, lim, Trace([], []), from, to);
    var head := 0;
    while head < queue.tail
      invariant queue.Holds(lim, t) && head <= queue.tail && out.Valid(lim) && Deepest(t.queue) <= lim.maxPathLen
      invariant BfsFrom(g, q, lim, t, head) == BfsFrom(g, q, lim, t0, 0)
      invariant View(out, stats) == Popped(g, q, t.queue[..head], t)
      decreases lim.maxPaths - head
    {
      t := PopOne(g, q, lim, a, queue, head, out, stats, t);
      head := head + 1;
    }
    assert t.queue[..head] == t.queue;
  }

  method EnqueueStarts(g: Graph, q: Query, lim: Limits, from: nat, to: nat, queue: StateQueue, stats: ExecStats)
    returns (ghost t: Trace)
    requires |q.steps| > 0 && from <= to <= |g.vertices| && queue.Holds(lim, Trace([], [])) && stats.counts == NoCounts
    modifies queue, queue.buf, stats
    ensures t == PushStarts(g, q, lim, Trace([], []), from, to)
    ensures queue.Holds(lim, t) && stats.counts == Book(NoCounts, t)
  {
    t := Trace([], []);
    for i := from to to
      invariant queue.Holds(lim, t) && stats.counts == Book(NoCounts, t)
      invariant PushStarts(g, q, lim, t, i, to) == PushStarts(g, q, lim, Trace([], []), from, to)
    {
      if g.vertices[i].eventType == q.steps[0].name {
        var ok;
        ok, t := queue.Enqueue(lim, State([g.vertices[i].id], 1, g.vertices[i].time), stats, t, StartAt(g, i));
        if !ok { return; }
      }
    }
  }

  lemma PoppedEmit(g: Graph, q: Query, lim: Limits, t: Trace, head: nat)
    requires head < |t.queue| <= lim.maxPaths && Deepest(t.queue) <= lim.maxPathLen && Idx(t.queue[head]) >= |q.steps|
    ensures Emit(lim, Popped(g, q, t.queue[..head], t), Path(t.queue[head])) == Popped(g, q, t.queue[..head + 1], t)
  {
    hide Finished, Paths, QueueRejects, Deepest, Path;
    var done, r := t.queue[..head], t.queue[head];
    assert t.queue[..head + 1] == done + [r];
    FinishedSnoc(q, done, r);
    PathsSnoc(Finished(q, done), r);
    QueueRejectsSnoc(g, q, done, r);
    FinishedShort(q, done);
    DeepestCovers(t.queue, head);
    var before := Popped(g, q, done, t);
    assert |before.paths| < lim.maxPaths && |Path(r)| <= lim.maxPathLen;
  }

  lemma PoppedExpand(g: Graph, q: Query, t: Trace, t': Trace, head: nat)
    requires head < |t.queue| && Idx(t.queue[head]) < |q.steps| && t.queue <= t'.queue
    ensures var before := Popped(g, q, t.queue[..head], t);
      Outcome(before.paths, Book(Charge(before.c, RejectsOver(g, q, t.queue[head], Out(g, t.queue[head]))), t')) ==
        Popped(g, q, t'.queue[..head + 1], t')
  {
    var done, r := t.queue[..head], t.queue[head];
    assert t'.queue[..head + 1] == done + [r];
    FinishedSnoc(q, done, r);
    QueueRejectsSnoc(g, q, done, r);
    assert done + [r] == t.queue[..head + 1];
    assert Finished(q, done + [r]) == Finished(q, done);
  }

  /** Pops the state at head: a finished one is emitted, another is expanded. */
  method PopOne(g: Graph, q: Query, lim: Limits, a: AdjIndex, queue: StateQueue, head: nat, out: ResultBuf, stats: ExecStats,
                ghost t: Trace) returns (ghost t': Trace)
    requires Built(g, a) && queue.Holds(lim, t) && head < queue.tail && out.Valid(lim)
      && queue.buf as object != out.paths as object
    requires View(out, stats) == Popped(g, q, t.queue[..head], t) && Deepest(t.queue) <= lim.maxPathLen
    modifies queue, queue.buf, out, out.paths, stats
    ensures queue.Holds(lim, t') && out.Valid(lim) && head < queue.tail && Deepest(t'.queue) <= lim.maxPathLen
    ensures t' == BfsPop(g, q, lim, t, t.queue[head])
    ensures View(out, stats) == Popped(g, q, t'.queue[..head + 1], t')
  {
    hide Deepest, States, Finished, Paths, QueueRejects, BfsEdges, RejectsOver, OutEdges;
    StatesAt(t.queue, head);
    var s := queue.buf[head];
    t' := t;
    if s.idx >= |q.steps| {
      PoppedEmit(g, q, lim, t, head);
      EmitEx(lim, out, s.path, stats);
    } else {
      ghost var r := t.queue[head];
      t' := Expand(g, q, lim, a, s, queue, stats, t, r);
      DeepestCovers(t.queue, head);
      QueueGrows(g, q, lim, t, r, Out(g, r));
      PoppedExpand(g, q, t, t', head);
    }
  }

  lemma {:induction false} QueueGrows(g: Graph, q: Query, lim: Limits, t: Trace, r: Run, es: seq<nat>)
    requires |t.queue| <= lim.maxPaths && InRange(es, |g.edges|) && Idx(r) < |q.steps|
    requires Deepest(t.queue) <= lim.maxPathLen
    ensures t.queue <= BfsEdges(g, q, lim, t, r, es).queue
    ensures Deepest(BfsEdges(g, q, lim, t, r, es).queue) <= lim.maxPathLen
    decreases |es|
  {
    if es != [] {
      var cs := EdgeChildren(g, q, r, es[0]);
      if Len(r) < lim.maxPathLen {
        PushAllGrows(lim, t, cs, r);
      }
      QueueGrows(g, q, lim, BfsEdge(g, q, lim, t, r, es[0]), r, es[1..]);
    }
  }

  lemma {:induction false} PushAllGrows(lim: Limits, t: Trace, cs: seq<Run>, r: Run)
    requires |t.queue| <= lim.maxPaths && ChildrenOf(cs, r) && Len(r) < lim.maxPathLen && Deepest(t.queue) <= lim.maxPathLen
    ensures t.queue <= PushAll(lim, t, cs).queue
    ensures Deepest(PushAll(lim, t, cs).queue) <= lim.maxPathLen
    decreases |cs|
  {
    if cs != [] {
      DeepestSnoc(t.queue, cs[0]);
      PushAllGrows(lim, Push(lim, t, cs[0]), cs[1..], r);
    }
  }

  lemma {:induction false} StartsShort(g: Graph, q: Query, lim: Limits, t: Trace, from: nat, to: nat)
    requires |t.queue| <= lim.maxPaths && to <= |g.vertices| && |q.steps| > 0 && lim.maxPathLen >= 1
    requires Deepest(t.queue) <= lim.maxPathLen
    ensures Deepest(PushStarts(g, q, lim, t, from, to).queue) <= lim.maxPathLen
    decreases if from < to then to - from else 0
  {
    if from < to {
      DeepestSnoc(t.queue, StartAt(g, from));
      if g.vertices[from].eventType != q.steps[0].name {
        StartsShort(g, q, lim, t, from + 1, to);
      } else if |t.queue| < lim.maxPaths {
        StartsShort(g, q, lim, Push(lim, t, StartAt(g, from)), from + 1, to);
      }
    }
  }

  // ---- M-CET ----

  lemma OneMoreRoot(g: Graph, q: Query, lim: Limits, o: Outcome, roots: seq<Run>, r: Run)
    ensures AfterAll(g, q, lim, o, VisitRoots(g, q, lim, roots + [r])) ==
      AfterAll(g, q, lim, AfterAll(g, q, lim, o, VisitRoots(g, q, lim, roots)), Visit(g, q, lim, r))
  {
    VisitRootsAppend(g, q, lim, roots, [r]);
    assert [r][1..] == [];
    assert VisitRoots(g, q, lim, [r]) == Visit(g, q, lim, r);
    AfterAllAppend(g, q, lim, o, VisitRoots(g, q, lim, roots), Visit(g, q, lim, r));
  }

  method Mcet(g: Graph, q: Query, lim: Limits, out: ResultBuf, stats: ExecStats)
    requires Fits(g, lim) && out.paths.Length == lim.maxPaths
    modifies out, out.paths, stats
    ensures out.Valid(lim) && View(out, stats) == McetOutcome(g, q, lim)
  {
    hide Built, Visit;
    Reset(out, stats);
    if |q.steps| == 0 { return; }
    var a := BuildAdj(g, lim);
    var path := new int[lim.maxPathLen];
    for i := 0 to |g.vertices|
      invariant Ready(lim, path, out)
      invariant View(out, stats) == AfterAll(g, q, lim, Fresh, VisitRoots(g, q, lim, Starts(g, q, 0, i)))
    {
      if g.vertices[i].eventType == q.steps[0].name {
        OneMoreRoot(g, q, lim, Fresh, Starts(g, q, 0, i), StartAt(g, i));
        path[0] := g.vertices[i].id;
        assert path[..1] == [g.vertices[i].id];
        Dfs(g, q, lim, a, path, 1, 1, g.vertices[i].time, out, stats, StartAt(g, i));
      } else {
        assert Starts(g, q, 0, i + 1) == Starts(g, q, 0, i);
      }
    }
  }

  // ---- H-CET ----

  lemma FirstRootLeft(g: Graph, q: Query, lim: Limits, o: Outcome, roots: seq<Run>)
    requires roots != []
    ensures AfterAll(g, q, lim, o, VisitRoots(g, q, lim, roots)) ==
      AfterAll(g, q, lim, AfterAll(g, q, lim, o, Visit(g, q, lim, roots[0])), VisitRoots(g, q, lim, roots[1..]))
  {
    AfterAllAppend(g, q, lim, o, Visit(g, q, lim, roots[0]), VisitRoots(g, q, lim, roots[1..]));
  }

  lemma {:induction false} RebaseClock(g: Graph, r: Run)
    ensures Path(r)[0] == Path(Rebase(g, r))[0]
    ensures StartTime(Rebase(g, r)) == if VPos(g, Path(r)[0]) >= 0 then g.vertices[VPos(g, Path(r)[0])].time else 0
  {
    if r.Take? {
      RebaseClock(g, r.prev);
      RebaseSpells(g, r.prev);
      assert Path(r)[0] == Path(r.prev)[0];
    }
  }

  lemma {:induction false} FinishedMembers(q: Query, s: seq<Run>, r: Run)
    ensures r in Finished(q, s) <==> r in s && Idx(r) >= |q.steps|
  {
    if s != [] {
      FinishedMembers(q, s[..|s| - 1], r);
      assert s == s[..|s| - 1] + [s[|s| - 1]];
    }
  }

  lemma {:induction false} TraceShort(g: Graph, q: Query, lim: Limits, t: Trace, head: nat)
    requires |t.queue| <= lim.maxPaths && Deepest(t.queue) <= lim.maxPathLen
    ensures Deepest(BfsFrom(g, q, lim, t, head).queue) <= lim.maxPathLen
    decreases lim.maxPaths - head
  {
    if head < |t.queue| {
      var r := t.queue[head];
      if Idx(r) < |q.steps| { QueueGrows(g, q, lim, t, r, Out(g, r)); }
      TraceShort(g, q, lim, BfsPop(g, q, lim, t, r), head + 1);
    }
  }

  lemma SeedsShort(g: Graph, q: Query, lim: Limits, n: nat, begin: nat, end: nat, r: Run)
    requires 0 < n <= |q.steps| && lim.maxPathLen >= 1 && r in Seeds(g, q, lim, n, begin, end)
    ensures Len(r) <= lim.maxPathLen && Idx(r) == n
  {
    var p := Prefix(q, n);
    var from, to := Clamp(begin, |g.vertices|), Clamp(end, |g.vertices|);
    StartsShort(g, p, lim, Trace([], []), from, to);
    TraceShort(g, p, lim, PushStarts(g, p, lim, Trace([], []), from, to), 0);
    var queue := TcetTrace(g, p, lim, begin, end).queue;
    FinishedMembers(p, queue, r);
    var i :| 0 <= i < |queue| && queue[i] == r;
    DeepestCovers(queue, i);
    TraceFacts(g, p, lim, begin, end);
    IdxBounded(g, p, r);
  }

  method Hcet(g: Graph, q: Query, lim: Limits, switchDepth: nat, begin: nat, end: nat, out: ResultBuf, stats: ExecStats)
    requires Fits(g, lim) && out.paths.Length == lim.maxPaths
    modifies out, out.paths, stats
    ensures out.Valid(lim) && View(out, stats) == HcetOutcome(g, q, lim, switchDepth, begin, end)
  {
    if switchDepth <= 1 {
      Tcet(g, q, lim, begin, end, out, stats);
      return;
    }
    Reset(out, stats);
    if |q.steps| == 0 { return; }
    var n := if |q.steps| > switchDepth then switchDepth else |q.steps|;
    var prefix := q.(steps := q.steps[..n]);
    var seeds := new ResultBuf(lim);
    var prefixStats := new ExecStats();
    Tcet(g, prefix, lim, begin, end, seeds, prefixStats);
    stats.counts := prefixStats.counts.(seedPaths := seeds.count, pathsEmitted := 0);
    var a := BuildAdj(g, lim);
    ghost var runs := Seeds(g, q, lim, n, begin, end);
    assert seeds.Contents() == Paths(runs);
    if n == |q.steps| {
      EmitSeeds(lim, seeds, out, stats);
    } else {
      SearchSeeds(g, q, lim, a, n, begin, end, seeds, out, stats);
    }
  }

  /** The query prefix was the whole query: seeds are results. */
  method EmitSeeds(lim: Limits, seeds: ResultBuf, out: ResultBuf, stats: ExecStats)
    requires seeds.Valid(lim) && out.Valid(lim) && seeds != out && seeds.paths != out.paths
    modifies out, out.paths, stats
    ensures out.Valid(lim)
    ensures View(out, stats) == EmitAll(lim, old(View(out, stats)), seeds.Contents())
  {
    ghost var paths := seeds.Contents();
    ghost var o := View(out, stats);
    for i := 0 to seeds.count
      invariant out.Valid(lim) && seeds.Contents() == paths
      invariant EmitAll(lim, View(out, stats), paths[i..]) == EmitAll(lim, o, paths)
    {
      assert seeds.paths[i] == paths[i] && paths[i..][1..] == paths[i + 1..];
      EmitEx(lim, out, seeds.paths[i], stats);
    }
  }

  /** Depth-first search from every seed, the clock restarted from its first vertex. */
  method SearchSeeds(g: Graph, q: Query, lim: Limits, a: AdjIndex, n: nat, ghost begin: nat, ghost end: nat,
                     seeds: ResultBuf, out: ResultBuf, stats: ExecStats)
    requires Fits(g, lim) && Built(g, a) && seeds.Valid(lim) && out.Valid(lim) && seeds != out && seeds.paths != out.paths
    requires 0 < n < |q.steps| && seeds.Contents() == Paths(Seeds(g, q, lim, n, begin, end))
    modifies out, out.paths, stats
    ensures out.Valid(lim)
    ensures View(out, stats) ==
      AfterAll(g, q, lim, old(View(out, stats)), VisitRoots(g, q, lim, Rebased(g, Seeds(g, q, lim, n, begin, end))))
  {
    hide Seeds, Built, Visit;
    ghost var runs := Seeds(g, q, lim, n, begin, end);
    ghost var roots := Rebased(g, runs);
    ghost var o := View(out, stats);
    for i := 0 to seeds.count
      invariant out.Valid(lim) && seeds.Contents() == Paths(runs) && seeds.count == |runs|
      invariant AfterAll(g, q, lim, View(out, stats), VisitRoots(g, q, lim, roots[i..])) ==
        AfterAll(g, q, lim, o, VisitRoots(g, q, lim, roots))
    {
      assert runs[i] in runs && roots[i..][1..] == roots[i + 1..];
      SeedsShort(g, q, lim, n, begin, end, runs[i]);
      RebaseSpells(g, runs[i]);
      FirstRootLeft(g, q, lim, View(out, stats), roots[i..]);
      PathsAt(runs, i);
      assert seeds.paths[i] == seeds.Contents()[i];
      SearchSeed(g, q, lim, a, n, seeds.paths[i], out, stats, runs[i]);
    }
    assert roots[|runs|..] == [];
  }

  method SearchSeed(g: Graph, q: Query, lim: Limits, a: AdjIndex, n: nat, seed: seq<int>, out: ResultBuf, stats: ExecStats,
                    ghost r: Run)
    requires Built(g, a) && out.Valid(lim)
    requires seed == Path(r) && Len(r) <= lim.maxPathLen && Idx(r) == n
    modifies out, out.paths, stats
    ensures out.Valid(lim)
    ensures View(out, stats) == AfterAll(g, q, lim, old(View(out, stats)), Visit(g, q, lim, Rebase(g, r)))
  {
    hide Built, Visit;
    RebaseSpells(g, r);
    RebaseClock(g, r);
    var path := new int[lim.maxPathLen];
    for k := 0 to |seed|
      invariant out.Valid(lim) && View(out, stats) == old(View(out, stats))
      invariant forall j :: 0 <= j < k ==> path[j] == seed[j]
    {
      path[k] := seed[k];
    }
    assert path[..|seed|] == seed;
    var start := VertexPosition(g, path[0]);
    Dfs(g, q, lim, a, path, |seed|, n, if start >= 0 then g.vertices[start].time else 0, out, stats, Rebase(g, r));
  }
}
