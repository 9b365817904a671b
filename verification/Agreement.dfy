/** The executors agree: whenever none of them reports overflow, M-CET, T-CET and H-CET emit one
    path per accepting run and charge the same counters. */
module Agreement {
  import opened TrendGraph
  import opened SearchSpec
  import opened BreadthFirst
  import opened BreadthFirstFacts
  import opened Executors
  import opened Engines

  // ---- An order-independent account of a list of runs ----

  datatype Tally = Tally(nodes: nat, paths: multiset<seq<int>>, rejects: Rejects, depth: nat) {
    function Plus(o: Tally): Tally {
      Tally(nodes + o.nodes, paths + o.paths, rejects.Plus(o.rejects), Max(depth, o.depth))
    }
  }

  const NoTally := Tally(0, multiset{}, NoRejects, 0)

  function NodeTally(g: Graph, q: Query, r: Run): Tally {
    Tally(1, if Idx(r) >= |q.steps| then multiset{Path(r)} else multiset{}, NodeRejects(g, q, r), Len(r))
  }

  function TallyOf(g: Graph, q: Query, s: seq<Run>): Tally {
    if s == [] then NoTally else TallyOf(g, q, s[..|s| - 1]).Plus(NodeTally(g, q, s[|s| - 1]))
  }

  lemma {:induction false} TallyParts(g: Graph, q: Query, s: seq<Run>)
    ensures TallyOf(g, q, s) == Tally(|s|, multiset(Paths(Finished(q, s))), QueueRejects(g, q, s), Deepest(s))
  {
    if s != [] {
      var t, r := s[..|s| - 1], s[|s| - 1];
      TallyParts(g, q, t);
      assert s == t + [r];
      QueueRejectsSnoc(g, q, t, r);
      FinishedSnoc(q, t, r);
      DeepestSnoc(t, r);
      if Idx(r) >= |q.steps| {
        PathsSnoc(Finished(q, t), r);
      } else {
        assert Finished(q, t) + [] == Finished(q, t);
      }
    }
  }

  lemma TallyLaws(x: Tally, y: Tally, z: Tally)
    ensures x.Plus(y).Plus(z) == x.Plus(y.Plus(z))
    ensures NoTally.Plus(x) == x == x.Plus(NoTally)
    ensures x.Plus(y).Plus(z) == x.Plus(z).Plus(y)
  {}

  lemma {:induction false} TallyAppend(g: Graph, q: Query, a: seq<Run>, b: seq<Run>)
    ensures TallyOf(g, q, a + b) == TallyOf(g, q, a).Plus(TallyOf(g, q, b))
  {
    hide NodeTally, Tally.Plus;
    if b == [] {
      assert a + b == a;
      TallyLaws(TallyOf(g, q, a), NoTally, NoTally);
    } else {
      var b', r := b[..|b| - 1], b[|b| - 1];
      assert (a + b)[..|a + b| - 1] == a + b';
      TallyAppend(g, q, a, b');
      TallyLaws(TallyOf(g, q, a), TallyOf(g, q, b'), NodeTally(g, q, r));
    }
  }

  lemma TallyOne(g: Graph, q: Query, r: Run)
    ensures TallyOf(g, q, [r]) == NodeTally(g, q, r)
  {
    hide NodeTally, Tally.Plus;
    assert [r][..0] == [];
    TallyLaws(NodeTally(g, q, r), NoTally, NoTally);
  }

  ghost predicate Within(a: seq<Run>, b: seq<Run>) {
    forall i :: 0 <= i < |a| ==> a[i] in b
  }

  lemma DropOne(a: seq<Run>, b: seq<Run>, i: nat)
    requires b != [] && i < |a| && a[i] == b[|b| - 1]
    requires Distinct(a) && Distinct(b) && Within(a, b) && Within(b, a)
    ensures Within(a[..i] + a[i + 1..], b[..|b| - 1]) && Within(b[..|b| - 1], a[..i] + a[i + 1..])
    ensures Distinct(a[..i] + a[i + 1..])
  {
    var x, b' := a[..i] + a[i + 1..], b[..|b| - 1];
    forall k | 0 <= k < |x| ensures x[k] in b' {
      var j := if k < i then k else k + 1;
      assert a[j] == x[k] && a[j] in b && a[j] != b[|b| - 1];
    }
    forall k | 0 <= k < |b'| ensures b'[k] in x {
      var j :| 0 <= j < |a| && a[j] == b[k];
      assert x[if j < i then j else j - 1] == b[k];
    }
  }

  /** Listing the same runs in another order does not change the account. */
  lemma {:induction false} SameRunsSameTally(g: Graph, q: Query, a: seq<Run>, b: seq<Run>)
    requires Distinct(a) && Distinct(b) && Within(a, b) && Within(b, a)
    ensures TallyOf(g, q, a) == TallyOf(g, q, b)
    decreases |b|
  {
    if b != [] {
      var r, b' := b[|b| - 1], b[..|b| - 1];
      var i :| 0 <= i < |a| && a[i] == r;
      var x, y := a[..i], a[i + 1..];
      assert a == x + [r] + y;
      DropOne(a, b, i);
      SameRunsSameTally(g, q, x + y, b');
      TallyAppend(g, q, x + [r], y);
      TallyAppend(g, q, x, [r]);
      TallyAppend(g, q, x, y);
      TallyOne(g, q, r);
      TallyLaws(TallyOf(g, q, x), NodeTally(g, q, r), TallyOf(g, q, y));
    }
  }

  // ---- What it means to have searched everything ----

  /** s lists every run of the shard, finished or not, exactly once. */
  ghost predicate Enumerates(g: Graph, q: Query, from: nat, to: nat, s: seq<Run>) {
    Distinct(s) && forall r :: r in s <==> InShard(g, q, from, to, r)
  }

  /** o emits one path per finished run of s, lost nothing, and charged each run's rejects. */
  ghost predicate Reports(g: Graph, q: Query, s: seq<Run>, o: Outcome) {
    && multiset(o.paths) == multiset(Paths(Finished(q, s)))
    && o.c.pathsEmitted == |o.paths| && o.c.pathsTruncated == 0 && o.c.statesTruncated == 0 && !o.c.overflow
    && o.c.rejects == QueueRejects(g, q, s) && o.c.maxDepth == Deepest(s)
  }

  /** Unless one of them reports overflow, the outcomes have the same paths, rejects and depth. */
  ghost predicate Agree(a: Outcome, b: Outcome) {
    !a.c.overflow && !b.c.overflow ==>
      && multiset(a.paths) == multiset(b.paths) && a.c.pathsEmitted == b.c.pathsEmitted
      && a.c.rejects == b.c.rejects && a.c.maxDepth == b.c.maxDepth
  }

  /** The finished runs of an enumeration are the accepting runs, once each. */
  lemma OnePathPerAcceptingRun(g: Graph, q: Query, from: nat, to: nat, s: seq<Run>, o: Outcome)
    requires Enumerates(g, q, from, to, s) && Reports(g, q, s, o)
    ensures var runs := Finished(q, s);
      && Distinct(runs)
      && (forall r :: r in runs <==> Accepting(g, q, r) && from <= Origin(r) < to)
      && multiset(o.paths) == multiset(Paths(runs))
  {
    FinishedDistinct(q, s);
    forall r ensures r in Finished(q, s) <==> Accepting(g, q, r) && from <= Origin(r) < to {
      FinishedMembers(q, s, r);
      if Partial(g, q, r) { IdxBounded(g, q, r); }
    }
  }

  lemma {:induction false} FinishedDistinct(q: Query, s: seq<Run>)
    requires Distinct(s)
    ensures Distinct(Finished(q, s))
  {
    if s != [] {
      var t, r := s[..|s| - 1], s[|s| - 1];
      FinishedDistinct(q, t);
      FinishedMembers(q, t, r);
      assert r !in t;
      DistinctAppend(Finished(q, t), [r]);
    }
  }

  /** Two complete searches of the same shard report the same thing. */
  lemma CompleteSearchesAgree(g: Graph, q: Query, from: nat, to: nat, a: seq<Run>, oa: Outcome, b: seq<Run>, ob: Outcome)
    requires Enumerates(g, q, from, to, a) && Reports(g, q, a, oa)
    requires Enumerates(g, q, from, to, b) && Reports(g, q, b, ob)
    ensures multiset(oa.paths) == multiset(ob.paths)
    ensures oa.c.rejects == ob.c.rejects && oa.c.maxDepth == ob.c.maxDepth && oa.c.pathsEmitted == ob.c.pathsEmitted
  {
    SameRunsSameTally(g, q, a, b);
    TallyParts(g, q, a);
    TallyParts(g, q, b);
    assert |multiset(oa.paths)| == |oa.paths| && |multiset(ob.paths)| == |ob.paths|;
  }

  // ---- T-CET ----

  lemma {:induction false} AllQueued(g: Graph, q: Query, from: nat, to: nat, t: Trace, r: Run)
    requires Closed(g, q, from, to, t, |t.queue|) && InShard(g, q, from, to, r)
    ensures r in t.queue
  {
    if r.Take? {
      AllQueued(g, q, from, to, t, r.prev);
      assert t.queue[..|t.queue|] == t.queue;
      assert IsChild(g, q, r.prev, r);
    }
  }

  /** The vertices T-CET starts from. */
  function ShardEnd(g: Graph, begin: nat, end: nat): nat {
    Max(Clamp(begin, |g.vertices|), Clamp(end, |g.vertices|))
  }

  lemma TcetComplete(g: Graph, q: Query, lim: Limits, begin: nat, end: nat)
    requires |q.steps| > 0 && !TcetOutcome(g, q, lim, begin, end).c.overflow
    ensures var s := TcetTrace(g, q, lim, begin, end).queue;
      Enumerates(g, q, Clamp(begin, |g.vertices|), ShardEnd(g, begin, end), s) && Reports(g, q, s, TcetOutcome(g, q, lim, begin, end))
  {
    var t := TcetTrace(g, q, lim, begin, end);
    var from, to := Clamp(begin, |g.vertices|), ShardEnd(g, begin, end);
    TraceFacts(g, q, lim, begin, end);
    assert t.queue + t.lost == t.queue;
    forall r | InShard(g, q, from, to, r) ensures r in t.queue {
      AllQueued(g, q, from, to, t, r);
    }
  }

  // ---- Depth-first search ----

  function Shallow(lim: Limits, s: seq<Run>): seq<Run> {
    if s == [] then []
    else Shallow(lim, s[..|s| - 1]) + if TooDeep(lim, s[|s| - 1]) then [] else [s[|s| - 1]]
  }

  function Clip(s: seq<seq<int>>, n: nat): seq<seq<int>> { if |s| <= n then s else s[..n] }

  /** From o, after visiting `visited` runs of which `kept` were not too deep and would emit the
      paths all[|o.paths|..]: paths were emitted in order until the buffer was full, and every
      deep run and every path past the capacity is counted and flagged. */
  ghost predicate Accounted(lim: Limits, o: Outcome, o': Outcome, all: seq<seq<int>>, visited: nat, kept: nat, depth: nat, x: Rejects) {
    && kept <= visited && |o.paths| <= |o'.paths| <= |all|
    && o'.paths == Clip(all, lim.maxPaths)
    && o'.c == Counters(o.c.pathsEmitted + |o'.paths| - |o.paths|,
                        o.c.pathsTruncated + (visited - kept) + (|all| - |o'.paths|),
                        o.c.statesEnqueued, o.c.statesTruncated, o.c.seedPaths,
                        Max(o.c.maxDepth, depth), o.c.rejects.Plus(x),
                        o.c.overflow || kept < visited || |o'.paths| < |all|)
  }

  ghost predicate Visited(g: Graph, q: Query, lim: Limits, o: Outcome, vis: seq<Run>, o': Outcome) {
    var kept := Shallow(lim, vis);
    Accounted(lim, o, o', o.paths + Paths(Finished(q, kept)), |vis|, |kept|, Deepest(vis), QueueRejects(g, q, kept))
  }

  lemma AccountedDeep(lim: Limits, o: Outcome, p: Outcome, all: seq<seq<int>>, v: nat, k: nat, depth: nat, x: Rejects, len: nat)
    requires Accounted(lim, o, p, all, v, k, depth, x)
    ensures Accounted(lim, o, TruncatePath(NoteDepth(p, len)), all, v + 1, k, Max(depth, len), x)
  {}

  lemma AccountedOpen(lim: Limits, o: Outcome, p: Outcome, all: seq<seq<int>>, v: nat, k: nat, depth: nat, x: Rejects, len: nat, y: Rejects)
    requires Accounted(lim, o, p, all, v, k, depth, x)
    ensures Accounted(lim, o, AddRejects(NoteDepth(p, len), y), all, v + 1, k + 1, Max(depth, len), x.Plus(y))
  {}

  lemma AccountedDone(lim: Limits, o: Outcome, p: Outcome, all: seq<seq<int>>, v: nat, k: nat, depth: nat, x: Rejects, path: seq<int>)
    requires Accounted(lim, o, p, all, v, k, depth, x) && |path| <= lim.maxPathLen
    ensures Accounted(lim, o, Emit(lim, NoteDepth(p, |path|), path), all + [path], v + 1, k + 1, Max(depth, |path|), x)
  {}

  lemma ShallowSnoc(lim: Limits, s: seq<Run>, r: Run)
    ensures Shallow(lim, s + [r]) == if TooDeep(lim, r) then Shallow(lim, s) else Shallow(lim, s) + [r]
  {
    assert (s + [r])[..|s|] == s;
  }

  lemma VisitedDeep(g: Graph, q: Query, lim: Limits, o: Outcome, t: seq<Run>, p: Outcome, r: Run)
    requires Visited(g, q, lim, o, t, p) && TooDeep(lim, r)
    ensures Visited(g, q, lim, o, t + [r], AfterNode(g, q, lim, p, r))
  {
    ShallowSnoc(lim, t, r);
    DeepestSnoc(t, r);
    var kept := Shallow(lim, t);
    var all, x := o.paths + Paths(Finished(q, kept)), QueueRejects(g, q, kept);
    AccountedDeep(lim, o, p, all, |t|, |kept|, Deepest(t), x, Len(r));
  }

  lemma VisitedOpen(g: Graph, q: Query, lim: Limits, o: Outcome, t: seq<Run>, p: Outcome, r: Run)
    requires Visited(g, q, lim, o, t, p) && !TooDeep(lim, r) && Idx(r) < |q.steps|
    ensures Visited(g, q, lim, o, t + [r], AfterNode(g, q, lim, p, r))
  {
    hide Shallow, Finished, Paths, QueueRejects, Path, Deepest, RejectsOver, Accounted, Emit, NoteDepth, AddRejects, TruncatePath, OutEdges, VPos;
    ShallowSnoc(lim, t, r);
    DeepestSnoc(t, r);
    var kept := Shallow(lim, t);
    var all, x := o.paths + Paths(Finished(q, kept)), QueueRejects(g, q, kept);
    FinishedSnoc(q, kept, r);
    QueueRejectsSnoc(g, q, kept, r);
    assert Finished(q, kept + [r]) == Finished(q, kept);
    AccountedOpen(lim, o, p, all, |t|, |kept|, Deepest(t), x, Len(r), NodeRejects(g, q, r));
  }

  lemma VisitedDone(g: Graph, q: Query, lim: Limits, o: Outcome, t: seq<Run>, p: Outcome, r: Run)
    requires Visited(g, q, lim, o, t, p) && !TooDeep(lim, r) && Idx(r) >= |q.steps|
    ensures Visited(g, q, lim, o, t + [r], AfterNode(g, q, lim, p, r))
  {
    hide Shallow, Finished, Paths, QueueRejects, Path, Deepest, RejectsOver, Accounted, Emit, NoteDepth, AddRejects, TruncatePath, OutEdges, VPos;
    ShallowSnoc(lim, t, r);
    DeepestSnoc(t, r);
    var kept := Shallow(lim, t);
    var all, x := o.paths + Paths(Finished(q, kept)), QueueRejects(g, q, kept);
    FinishedSnoc(q, kept, r);
    QueueRejectsSnoc(g, q, kept, r);
    PathsSnoc(Finished(q, kept), r);
    assert x.Plus(NoRejects) == x;
    Regroup(o.paths, Paths(Finished(q, kept)), [Path(r)]);
    AccountedDone(lim, o, p, all, |t|, |kept|, Deepest(t), x, Path(r));
  }

  lemma {:induction false} AfterAllVisited(g: Graph, q: Query, lim: Limits, o: Outcome, vis: seq<Run>)
    requires |o.paths| <= lim.maxPaths
    ensures Visited(g, q, lim, o, vis, AfterAll(g, q, lim, o, vis))
  {
    if vis == [] {
      assert o.paths + [] == o.paths;
    } else {
      var t, r := vis[..|vis| - 1], vis[|vis| - 1];
      assert vis == t + [r];
      AfterAllVisited(g, q, lim, o, t);
      AfterAllAppend(g, q, lim, o, t, [r]);
      assert [r][1..] == [];
      var p := AfterAll(g, q, lim, o, t);
      if TooDeep(lim, r) { VisitedDeep(g, q, lim, o, t, p, r); }
      else if Idx(r) < |q.steps| { VisitedOpen(g, q, lim, o, t, p, r); }
      else { VisitedDone(g, q, lim, o, t, p, r); }
    }
  }

  lemma {:induction false} ShallowShort(lim: Limits, s: seq<Run>)
    ensures |Shallow(lim, s)| <= |s|
    ensures |Shallow(lim, s)| == |s| ==> Shallow(lim, s) == s
    ensures |Shallow(lim, s)| == |s| <==> forall r :: r in s ==> !TooDeep(lim, r)
  {
    if s != [] {
      ShallowShort(lim, s[..|s| - 1]);
      assert s == s[..|s| - 1] + [s[|s| - 1]];
    }
  }
}
