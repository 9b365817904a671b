/** H-CET: breadth-first over a query prefix, then depth-first from every seed.  Each run reaches
    the prefix length for the first time at exactly one point, so nothing is searched twice.

    A seed keeps only its path, so its clock restarts from the first vertex with its start id.  The
    runs searched are therefore not always runs of the query; HybridRun says which they are. */
module HybridTheorems {
  import opened TrendGraph
  import opened SearchSpec
  import opened BreadthFirst
  import opened Engines
  import opened Agreement
  import opened NativeTheorems

  ghost predicate UniqueIds(g: Graph) {
    forall i, j :: 0 <= i < j < |g.vertices| ==> g.vertices[i].id != g.vertices[j].id
  }

  /** The id of every possible start vertex leads back to a vertex of the same time. */
  ghost predicate StartsResolve(g: Graph, q: Query)
    requires |q.steps| > 0
  {
    forall v :: 0 <= v < |g.vertices| && g.vertices[v].eventType == q.steps[0].name ==>
      var p := VPos(g, g.vertices[v].id); p >= 0 && g.vertices[p].time == g.vertices[v].time
  }

  /** The ids of the seeds' start vertices lead back to them in time; seeds are resumed only if the
      switch lies inside the query. */
  ghost predicate SeedsResolve(g: Graph, q: Query, switchDepth: nat) {
    1 < switchDepth < |q.steps| ==> StartsResolve(g, q)
  }

  lemma UniqueIdsResolve(g: Graph, q: Query)
    requires |q.steps| > 0 && UniqueIds(g)
    ensures StartsResolve(g, q)
  {
    forall v | 0 <= v < |g.vertices| ensures VPos(g, g.vertices[v].id) == v {
      VPosFirst(g, g.vertices[v].id, v);
    }
  }

  lemma {:induction false} RebaseSame(g: Graph, q: Query, r: Run)
    requires |q.steps| > 0 && StartsResolve(g, q) && Partial(g, q, r)
    ensures Rebase(g, r) == r
  {
    if r.Take? {
      RebaseSame(g, q, r.prev);
    }
  }

  // ---- The query prefix ----

  /** A run of the prefix query is a run of the query that reached index n at most at its end. */
  lemma {:induction false} PrefixPartial(g: Graph, q: Query, n: nat, r: Run)
    requires 0 < n <= |q.steps|
    ensures Partial(g, Prefix(q, n), r) <==> Partial(g, q, r) && (r.Take? ==> Idx(r.prev) < n)
  {
    if r.Take? {
      PrefixPartial(g, q, n, r.prev);
      if Partial(g, q, r.prev) && r.prev.Take? {
        assert Idx(r.prev.prev) <= Idx(r.prev);
      }
    }
  }

  lemma {:induction false} PrefixRejects(g: Graph, q: Query, n: nat, r: Run, es: seq<nat>)
    requires 0 < n <= |q.steps| && Idx(r) < n && InRange(es, |g.edges|)
    ensures RejectsOver(g, Prefix(q, n), r, es) == RejectsOver(g, q, r, es)
  {
    if es != [] {
      assert EdgeRejects(g, Prefix(q, n), r, es[0]) == EdgeRejects(g, q, r, es[0]);
      PrefixRejects(g, q, n, r, es[1..]);
    }
  }

  function Unfinished(q: Query, s: seq<Run>): seq<Run> {
    if s == [] then []
    else Unfinished(q, s[..|s| - 1]) + if Idx(s[|s| - 1]) >= |q.steps| then [] else [s[|s| - 1]]
  }

  lemma {:induction false} UnfinishedMembers(q: Query, s: seq<Run>, r: Run)
    ensures r in Unfinished(q, s) <==> r in s && Idx(r) < |q.steps|
  {
    if s != [] {
      UnfinishedMembers(q, s[..|s| - 1], r);
      assert s == s[..|s| - 1] + [s[|s| - 1]];
    }
  }

  lemma {:induction false} UnfinishedDistinct(q: Query, s: seq<Run>)
    requires Distinct(s)
    ensures Distinct(Unfinished(q, s))
  {
    if s != [] {
      var t, r := s[..|s| - 1], s[|s| - 1];
      UnfinishedDistinct(q, t);
      UnfinishedMembers(q, t, r);
      assert r !in t;
      DistinctAppend(Unfinished(q, t), [r]);
    }
  }

  lemma UnfinishedSnoc(q: Query, s: seq<Run>, r: Run)
    ensures Unfinished(q, s + [r]) == if Idx(r) >= |q.steps| then Unfinished(q, s) else Unfinished(q, s) + [r]
  {
    assert (s + [r])[..|s|] == s;
  }

  /** The prefix search charges the rejects of the runs short of index n, and those alone. */
  lemma {:induction false} UnfinishedRejects(g: Graph, q: Query, n: nat, s: seq<Run>)
    requires 0 < n < |q.steps|
    ensures QueueRejects(g, Prefix(q, n), s) == QueueRejects(g, q, Unfinished(Prefix(q, n), s))
    ensures Finished(q, Unfinished(Prefix(q, n), s)) == []
  {
    if s != [] {
      var t, r := s[..|s| - 1], s[|s| - 1];
      assert s == t + [r];
      UnfinishedRejects(g, q, n, t);
      UnfinishedMore(g, q, n, t, r);
    }
  }

  lemma UnfinishedMore(g: Graph, q: Query, n: nat, t: seq<Run>, r: Run)
    requires 0 < n < |q.steps|
    requires QueueRejects(g, Prefix(q, n), t) == QueueRejects(g, q, Unfinished(Prefix(q, n), t))
    requires Finished(q, Unfinished(Prefix(q, n), t)) == []
    ensures QueueRejects(g, Prefix(q, n), t + [r]) == QueueRejects(g, q, Unfinished(Prefix(q, n), t + [r]))
    ensures Finished(q, Unfinished(Prefix(q, n), t + [r])) == []
  {
    hide QueueRejects, NodeRejects, Unfinished, Finished;
    var p := Prefix(q, n);
    UnfinishedSnoc(p, t, r);
    QueueRejectsSnoc(g, p, t, r);
    PrefixNode(g, q, n, r);
    if Idx(r) < n {
      QueueRejectsSnoc(g, q, Unfinished(p, t), r);
      FinishedSnoc(q, Unfinished(p, t), r);
    }
  }

  lemma PrefixNode(g: Graph, q: Query, n: nat, r: Run)
    requires 0 < n < |q.steps|
    ensures NodeRejects(g, Prefix(q, n), r) == if Idx(r) < n then NodeRejects(g, q, r) else NoRejects
  {
    if Idx(r) < n { PrefixRejects(g, q, n, r, Out(g, r)); }
  }

  /** Where r first reaches index n. */
  function First(r: Run, n: nat): Run {
    if r.Take? && Idx(r.prev) >= n then First(r.prev, n) else r
  }

  lemma {:induction false} FirstReached(g: Graph, q: Query, n: nat, r: Run)
    requires 1 < n <= |q.steps| && Partial(g, q, r) && Idx(r) >= n
    ensures var f := First(r, n); Partial(g, Prefix(q, n), f) && Idx(f) == n && Reaches(g, q, f, r) && Origin(f) == Origin(r)
  {
    if r.Take? && Idx(r.prev) >= n {
      FirstReached(g, q, n, r.prev);
      assert IsChild(g, q, r.prev, r);
    } else {
      PrefixPartial(g, q, n, r);
    }
  }

  lemma {:induction false} FirstUnique(g: Graph, q: Query, n: nat, f: Run, x: Run)
    requires Idx(f) >= n && (f.Take? ==> Idx(f.prev) < n) && Reaches(g, q, f, x)
    ensures First(x, n) == f
  {
    if x != f {
      ReachesMeans(g, q, f, x.prev);
      FirstUnique(g, q, n, f, x.prev);
    }
  }

  // ---- The runs H-CET searches ----

  /** x continues the seed s, whose clock was restarted. */
  ghost predicate Resumed(g: Graph, q: Query, n: nat, s: Run, x: Run)
    requires n <= |q.steps|
  {
    Partial(g, Prefix(q, n), s) && Idx(s) >= n && Reaches(g, q, Rebase(g, s), x)
  }

  /** What H-CET takes for a run: one of the query that is short of the switch, or a resumed one. */
  ghost predicate HybridRun(g: Graph, q: Query, switchDepth: nat, x: Run) {
    if switchDepth <= 1 || switchDepth >= |q.steps| then Partial(g, q, x)
    else (Partial(g, q, x) && Idx(x) < switchDepth) || exists s :: Resumed(g, q, switchDepth, s, x)
  }

  ghost predicate HybridInShard(g: Graph, q: Query, switchDepth: nat, from: nat, to: nat, x: Run) {
    HybridRun(g, q, switchDepth, x) && from <= Origin(x) < to
  }

  /** s lists every run H-CET searches in the shard exactly once. */
  ghost predicate ListsHybrid(g: Graph, q: Query, switchDepth: nat, from: nat, to: nat, s: seq<Run>) {
    Distinct(s) && forall r :: r in s <==> HybridInShard(g, q, switchDepth, from, to, r)
  }

  lemma {:induction false} RebaseKeepsOrigin(g: Graph, r: Run)
    ensures Origin(Rebase(g, r)) == Origin(r)
  {
    if r.Take? { RebaseKeepsOrigin(g, r.prev); }
  }

  /** Two seeds are still two after their clocks are restarted. */
  lemma {:induction false} RebaseInjective(g: Graph, q: Query, a: Run, b: Run)
    requires Partial(g, q, a) && Partial(g, q, b) && Rebase(g, a) == Rebase(g, b)
    ensures a == b
  {
    if a.Take? { RebaseInjective(g, q, a.prev, b.prev); }
  }

  lemma ResumedFacts(g: Graph, q: Query, n: nat, s: Run, x: Run)
    requires 0 < n <= |q.steps| && Resumed(g, q, n, s, x)
    ensures n <= Idx(x) <= |q.steps| && Origin(x) == Origin(s) && First(x, n) == Rebase(g, s)
  {
    var f := Rebase(g, s);
    RebaseSpells(g, s);
    RebaseKeepsOrigin(g, s);
    if s.Take? { RebaseSpells(g, s.prev); }
    PrefixPartial(g, q, n, s);
    IdxBounded(g, Prefix(q, n), s);
    ReachesMeans(g, q, f, x);
    FirstUnique(g, q, n, f, x);
  }

  /** Short of the switch H-CET searches runs of the query only. */
  lemma EarlyIsPartial(g: Graph, q: Query, n: nat, x: Run)
    requires 1 < n < |q.steps|
    ensures HybridRun(g, q, n, x) && Idx(x) < n ==> Partial(g, q, x)
  {
    forall s | Resumed(g, q, n, s, x) ensures Idx(x) >= n { ResumedFacts(g, q, n, s, x); }
  }

  /** When the seeds' start ids resolve, the runs H-CET searches are the runs of the query. */
  lemma HybridIsPartial(g: Graph, q: Query, switchDepth: nat, x: Run)
    requires SeedsResolve(g, q, switchDepth)
    ensures HybridRun(g, q, switchDepth, x) <==> Partial(g, q, x)
  {
    var n := switchDepth;
    if 1 < n < |q.steps| {
      forall s | Resumed(g, q, n, s, x) ensures Partial(g, q, x) {
        PrefixPartial(g, q, n, s);
        RebaseSame(g, q, s);
        ReachesMeans(g, q, s, x);
      }
      if Partial(g, q, x) && Idx(x) >= n {
        FirstReached(g, q, n, x);
        PrefixPartial(g, q, n, First(x, n));
        RebaseSame(g, q, First(x, n));
        assert Resumed(g, q, n, First(x, n), x);
      }
    }
  }

  // ---- The second phase ----

  ghost predicate PrefixSearched(g: Graph, q: Query, lim: Limits, n: nat, from: nat, to: nat, sp: seq<Run>) {
    1 < n < |q.steps| && Enumerates(g, Prefix(q, n), from, to, sp) && Deepest(sp) <= lim.maxPathLen
  }

  lemma SeedsApart(g: Graph, q: Query, lim: Limits, n: nat, seeds: seq<Run>)
    requires 0 < n <= |q.steps| && Distinct(seeds)
    requires forall i :: 0 <= i < |seeds| ==>
      Partial(g, Prefix(q, n), seeds[i]) && Idx(seeds[i]) >= n && Len(seeds[i]) <= lim.maxPathLen
    ensures Apart(g, q, Rebased(g, seeds))
    ensures forall i :: 0 <= i < |seeds| ==> Len(Rebased(g, seeds)[i]) <= lim.maxPathLen
  {
    var roots := Rebased(g, seeds);
    forall i | 0 <= i < |seeds| ensures Len(roots[i]) <= lim.maxPathLen { RebaseSpells(g, seeds[i]); }
    forall i, j, x | 0 <= i < j < |roots| && Reaches(g, q, roots[i], x) && Reaches(g, q, roots[j], x) ensures false {
      ResumedFacts(g, q, n, seeds[i], x);
      ResumedFacts(g, q, n, seeds[j], x);
      RebaseInjective(g, Prefix(q, n), seeds[i], seeds[j]);
    }
  }

  lemma SearchedSeeds(g: Graph, q: Query, lim: Limits, n: nat, from: nat, to: nat, sp: seq<Run>)
    requires PrefixSearched(g, q, lim, n, from, to, sp)
    ensures var seeds := Finished(Prefix(q, n), sp);
      && Distinct(seeds)
      && forall i :: 0 <= i < |seeds| ==>
           Partial(g, Prefix(q, n), seeds[i]) && Idx(seeds[i]) >= n && Len(seeds[i]) <= lim.maxPathLen
           && from <= Origin(seeds[i]) < to
  {
    var p := Prefix(q, n);
    var seeds := Finished(p, sp);
    FinishedDistinct(p, sp);
    forall i | 0 <= i < |seeds|
      ensures Partial(g, p, seeds[i]) && Idx(seeds[i]) >= n && Len(seeds[i]) <= lim.maxPathLen && from <= Origin(seeds[i]) < to
    {
      FinishedMembers(p, sp, seeds[i]);
      var k :| 0 <= k < |sp| && sp[k] == seeds[i];
      DeepestCovers(sp, k);
    }
  }

  lemma SeedOf(g: Graph, q: Query, n: nat, from: nat, to: nat, sp: seq<Run>, x: Run)
    requires 1 < n < |q.steps| && Enumerates(g, Prefix(q, n), from, to, sp)
    requires HybridInShard(g, q, n, from, to, x) && Idx(x) >= n
    ensures ReachedFrom(g, q, Rebased(g, Finished(Prefix(q, n), sp)), x)
  {
    var seeds := Finished(Prefix(q, n), sp);
    var s :| Resumed(g, q, n, s, x);
    ResumedFacts(g, q, n, s, x);
    FinishedMembers(Prefix(q, n), sp, s);
    var i :| 0 <= i < |seeds| && seeds[i] == s;
    assert Rebased(g, seeds)[i] == Rebase(g, s);
  }

  /** What the resumed seeds lead to: the searched runs of the shard that have reached index n. */
  lemma SeedsReach(g: Graph, q: Query, lim: Limits, n: nat, from: nat, to: nat, sp: seq<Run>, x: Run)
    requires PrefixSearched(g, q, lim, n, from, to, sp)
    ensures ReachedFrom(g, q, Rebased(g, Finished(Prefix(q, n), sp)), x) <==> HybridInShard(g, q, n, from, to, x) && Idx(x) >= n
  {
    hide Partial, Reaches, Enumerates, Finished, Deepest, Prefix, Distinct;
    var seeds := Finished(Prefix(q, n), sp);
    var roots := Rebased(g, seeds);
    if ReachedFrom(g, q, roots, x) {
      SearchedSeeds(g, q, lim, n, from, to, sp);
      var i :| 0 <= i < |roots| && Reaches(g, q, roots[i], x);
      assert Resumed(g, q, n, seeds[i], x);
      ResumedFacts(g, q, n, seeds[i], x);
    }
    if HybridInShard(g, q, n, from, to, x) && Idx(x) >= n {
      SeedOf(g, q, n, from, to, sp, x);
    }
  }

  lemma EarlyRuns(g: Graph, q: Query, n: nat, from: nat, to: nat, sp: seq<Run>, x: Run)
    requires 1 < n < |q.steps| && Enumerates(g, Prefix(q, n), from, to, sp)
    ensures x in Unfinished(Prefix(q, n), sp) <==> HybridInShard(g, q, n, from, to, x) && Idx(x) < n
  {
    UnfinishedMembers(Prefix(q, n), sp, x);
    PrefixPartial(g, q, n, x);
    EarlyIsPartial(g, q, n, x);
  }

  /** The runs H-CET looks at: those short of index n, and all continuations of the resumed seeds. */
  function HybridRuns(g: Graph, q: Query, lim: Limits, n: nat, sp: seq<Run>): seq<Run>
    requires n <= |q.steps|
  {
    Unfinished(Prefix(q, n), sp) + LateRuns(g, q, lim, n, sp)
  }

  function LateRuns(g: Graph, q: Query, lim: Limits, n: nat, sp: seq<Run>): seq<Run>
    requires n <= |q.steps|
  {
    VisitRoots(g, q, lim, Rebased(g, Finished(Prefix(q, n), sp)))
  }

  lemma LateRunsExact(g: Graph, q: Query, lim: Limits, n: nat, from: nat, to: nat, sp: seq<Run>)
    requires PrefixSearched(g, q, lim, n, from, to, sp)
    ensures var vis := LateRuns(g, q, lim, n, sp);
      && Distinct(vis)
      && forall x :: x in vis <==> HybridInShard(g, q, n, from, to, x) && Idx(x) >= n && Len(x) <= lim.maxPathLen
  {
    var seeds := Finished(Prefix(q, n), sp);
    SearchedSeeds(g, q, lim, n, from, to, sp);
    SeedsApart(g, q, lim, n, seeds);
    RootsExact(g, q, lim, Rebased(g, seeds));
    forall x ensures ReachedFrom(g, q, Rebased(g, seeds), x) <==> HybridInShard(g, q, n, from, to, x) && Idx(x) >= n {
      SeedsReach(g, q, lim, n, from, to, sp, x);
    }
  }

  lemma HybridRunsExact(g: Graph, q: Query, lim: Limits, n: nat, from: nat, to: nat, sp: seq<Run>)
    requires PrefixSearched(g, q, lim, n, from, to, sp)
    requires forall r :: r in LateRuns(g, q, lim, n, sp) ==> !TooDeep(lim, r)
    ensures ListsHybrid(g, q, n, from, to, HybridRuns(g, q, lim, n, sp))
  {
    var seeds := Finished(Prefix(q, n), sp);
    var roots := Rebased(g, seeds);
    var early, late := Unfinished(Prefix(q, n), sp), LateRuns(g, q, lim, n, sp);
    LateRunsExact(g, q, lim, n, from, to, sp);
    SearchedSeeds(g, q, lim, n, from, to, sp);
    SeedsApart(g, q, lim, n, seeds);
    UnfinishedDistinct(Prefix(q, n), sp);
    forall x ensures x in early <==> HybridInShard(g, q, n, from, to, x) && Idx(x) < n {
      EarlyRuns(g, q, n, from, to, sp, x);
    }
    forall x | HybridInShard(g, q, n, from, to, x) && Idx(x) >= n ensures x in late {
      SeedsReach(g, q, lim, n, from, to, sp, x);
      var i :| 0 <= i < |roots| && Reaches(g, q, roots[i], x);
      NothingDeeper(g, q, lim, roots, i, x);
    }
    DistinctAppend(early, late);
  }

  // ---- H-CET as a whole ----

  /** Before the prefix length the queue must hold the runs; after it they must stay short and
      their results fit. */
  ghost predicate HybridSuffices(g: Graph, q: Query, lim: Limits, switchDepth: nat, from: nat, to: nat) {
    if switchDepth <= 1 || switchDepth >= |q.steps| then QueueSuffices(g, q, lim, from, to)
    else QueueSuffices(g, Prefix(q, switchDepth), lim, from, to) && LateSuffices(g, q, lim, switchDepth, from, to)
  }

  ghost predicate LateSuffices(g: Graph, q: Query, lim: Limits, n: nat, from: nat, to: nat) {
    exists s :: ListsHybrid(g, q, n, from, to, s) && |Finished(q, s)| <= lim.maxPaths
      && forall r :: r in s && Idx(r) >= n ==> Len(r) < lim.maxPathLen
  }

  lemma {:induction false} EmitAllFits(lim: Limits, o: Outcome, ps: seq<seq<int>>, depth: nat)
    requires |o.paths| + |ps| <= lim.maxPaths && forall i :: 0 <= i < |ps| ==> |ps[i]| <= lim.maxPathLen && |ps[i]| <= depth
    requires o.c.maxDepth == depth
    ensures EmitAll(lim, o, ps) == Outcome(o.paths + ps, o.c.(pathsEmitted := o.c.pathsEmitted + |ps|))
    decreases |ps|
  {
    if ps == [] {
      assert o.paths + ps == o.paths;
    } else {
      assert o.paths + ps == (o.paths + [ps[0]]) + ps[1..];
      EmitAllFits(lim, Emit(lim, o, ps[0]), ps[1..], depth);
    }
  }

  /** The switch never happens: the prefix search is the search, and its results are passed on. */
  lemma SeedsAreResults(g: Graph, q: Query, lim: Limits, switchDepth: nat, begin: nat, end: nat)
    requires switchDepth > 1 && |q.steps| > 0 && switchDepth >= |q.steps| && lim.maxPathLen >= 1
    ensures var t, h := TcetOutcome(g, q, lim, begin, end), HcetOutcome(g, q, lim, switchDepth, begin, end);
      h == Outcome(t.paths, t.c.(seedPaths := |t.paths|))
  {
    assert q.steps[..|q.steps|] == q.steps;
    assert Prefix(q, |q.steps|) == q;
    var s := TcetTrace(g, q, lim, begin, end).queue;
    var done := Finished(q, s);
    TraceStaysShort(g, q, lim, begin, end);
    FinishedShort(q, s);
    forall i | 0 <= i < |done| ensures |Paths(done)[i]| <= Deepest(s) {
      PathsAt(done, i);
      FinishedMembers(q, s, done[i]);
      var k :| 0 <= k < |s| && s[k] == done[i];
      DeepestCovers(s, k);
    }
    EmitAllFits(lim, SeedOutcome(TcetOutcome(g, q, lim, begin, end)), Paths(done), Deepest(s));
    assert [] + Paths(done) == Paths(done);
  }

  /** What the two phases leave, in terms of the runs searched. */
  lemma SecondPhase(g: Graph, q: Query, lim: Limits, n: nat, begin: nat, end: nat)
    requires 1 < n < |q.steps|
    ensures var o := SeedOutcome(TcetOutcome(g, Prefix(q, n), lim, begin, end));
      var vis := LateRuns(g, q, lim, n, TcetTrace(g, Prefix(q, n), lim, begin, end).queue);
      && HcetOutcome(g, q, lim, n, begin, end) == AfterAll(g, q, lim, o, vis)
      && o.paths == [] && Visited(g, q, lim, o, vis, AfterAll(g, q, lim, o, vis))
  {
    hide Visited, Accounted;
    var o := SeedOutcome(TcetOutcome(g, Prefix(q, n), lim, begin, end));
    AfterAllVisited(g, q, lim, o, LateRuns(g, q, lim, n, TcetTrace(g, Prefix(q, n), lim, begin, end).queue));
  }

  lemma HybridTally(g: Graph, q: Query, lim: Limits, n: nat, sp: seq<Run>)
    requires 0 < n < |q.steps|
    ensures var s, vis := HybridRuns(g, q, lim, n, sp), LateRuns(g, q, lim, n, sp);
      && multiset(Paths(Finished(q, s))) == multiset(Paths(Finished(q, vis)))
      && QueueRejects(g, q, s) == QueueRejects(g, Prefix(q, n), sp).Plus(QueueRejects(g, q, vis))
      && Deepest(s) == Max(Deepest(Unfinished(Prefix(q, n), sp)), Deepest(vis))
  {
    var early, vis := Unfinished(Prefix(q, n), sp), LateRuns(g, q, lim, n, sp);
    UnfinishedRejects(g, q, n, sp);
    TallyAppend(g, q, early, vis);
    TallyParts(g, q, early);
    TallyParts(g, q, vis);
    TallyParts(g, q, early + vis);
  }

  lemma {:induction false} RootsVisited(g: Graph, q: Query, lim: Limits, roots: seq<Run>, r: Run)
    requires r in roots
    ensures r in VisitRoots(g, q, lim, roots)
  {
    if r == roots[0] {
      assert Visit(g, q, lim, r)[0] == r;
    } else {
      assert r in roots[1..];
      RootsVisited(g, q, lim, roots[1..], r);
    }
  }

  lemma HybridDepth(g: Graph, q: Query, lim: Limits, n: nat, sp: seq<Run>)
    requires 0 < n <= |q.steps|
    ensures var p := Prefix(q, n);
      var vis := LateRuns(g, q, lim, n, sp);
      Max(Deepest(Unfinished(p, sp)), Deepest(vis)) == Max(Deepest(sp), Deepest(vis))
  {
    var p := Prefix(q, n);
    var roots := Rebased(g, Finished(p, sp));
    var early, vis := Unfinished(p, sp), LateRuns(g, q, lim, n, sp);
    forall r | r in sp ensures Len(r) <= Max(Deepest(early), Deepest(vis)) {
      UnfinishedMembers(p, sp, r);
      FinishedMembers(p, sp, r);
      if Idx(r) < n {
        var i :| 0 <= i < |early| && early[i] == r;
        DeepestCovers(early, i);
      } else {
        var k :| 0 <= k < |roots| && Finished(p, sp)[k] == r;
        RebaseSpells(g, r);
        RootsVisited(g, q, lim, roots, roots[k]);
        var i :| 0 <= i < |vis| && vis[i] == roots[k];
        DeepestCovers(vis, i);
      }
    }
    DeepestWithin(sp, Max(Deepest(early), Deepest(vis)));
    forall r | r in early ensures Len(r) <= Deepest(sp) {
      UnfinishedMembers(p, sp, r);
      var i :| 0 <= i < |sp| && sp[i] == r;
      DeepestCovers(sp, i);
    }
    DeepestWithin(early, Deepest(sp));
  }

  /** Without overflow H-CET looks once at each of the shard's runs as it takes them and emits one path
      per finished one; sp lists the runs its first phase queued.  When the seeds' start ids resolve
      these are the runs of the query. */
  lemma HcetComplete(g: Graph, q: Query, lim: Limits, switchDepth: nat, begin: nat, end: nat)
    returns (s: seq<Run>, sp: seq<Run>)
    requires |q.steps| > 0 && lim.maxPathLen >= 1
    requires !HcetOutcome(g, q, lim, switchDepth, begin, end).c.overflow
    ensures var from, to, o := Clamp(begin, |g.vertices|), ShardEnd(g, begin, end), HcetOutcome(g, q, lim, switchDepth, begin, end);
      && ListsHybrid(g, q, switchDepth, from, to, s) && Reports(g, q, s, o)
      && PhaseOne(g, q, switchDepth, from, to, sp, o)
      && (SeedsResolve(g, q, switchDepth) ==> Enumerates(g, q, from, to, s))
  {
    if SeedsResolve(g, q, switchDepth) {
      forall x ensures HybridRun(g, q, switchDepth, x) <==> Partial(g, q, x) { HybridIsPartial(g, q, switchDepth, x); }
    }
    var from, to := Clamp(begin, |g.vertices|), ShardEnd(g, begin, end);
    if switchDepth <= 1 || switchDepth >= |q.steps| {
      if switchDepth > 1 { SeedsAreResults(g, q, lim, switchDepth, begin, end); }
      TcetComplete(g, q, lim, begin, end);
      s := TcetTrace(g, q, lim, begin, end).queue;
      sp := s;
      assert q.steps[..|q.steps|] == q.steps;
    } else {
      s, sp := HybridComplete(g, q, lim, switchDepth, begin, end);
    }
  }

  /** sp lists the runs of the first phase: o counted each as queued and the finished ones as seeds. */
  ghost predicate PhaseOne(g: Graph, q: Query, switchDepth: nat, from: nat, to: nat, sp: seq<Run>, o: Outcome) {
    && Enumerates(g, PhaseQuery(q, switchDepth), from, to, sp)
    && o.c.statesEnqueued == |sp|
    && o.c.seedPaths == if switchDepth <= 1 then 0 else |Finished(PhaseQuery(q, switchDepth), sp)|
  }

  /** The query the first phase runs. */
  function PhaseQuery(q: Query, switchDepth: nat): Query {
    Prefix(q, if switchDepth <= 1 then |q.steps| else SwitchLen(q, switchDepth))
  }

  /** Both phases together report the runs of both. */
  lemma PhasesReport(g: Graph, q: Query, lim: Limits, n: nat, sp: seq<Run>, t: Outcome, h: Outcome)
    requires 1 < n < |q.steps| && Reports(g, Prefix(q, n), sp, t)
    requires h.paths == Paths(Finished(q, LateRuns(g, q, lim, n, sp))) && !h.c.overflow
    requires h.c == SecondBook(g, q, t, LateRuns(g, q, lim, n, sp), |h.paths|)
    ensures Reports(g, q, HybridRuns(g, q, lim, n, sp), h)
  {
    hide HybridRuns, LateRuns, QueueRejects, Deepest, Paths, Finished, Unfinished;
    HybridTally(g, q, lim, n, sp);
    HybridDepth(g, q, lim, n, sp);
  }

  /** The counters after the second phase looked at the runs vis and stored that many paths. */
  function SecondBook(g: Graph, q: Query, t: Outcome, vis: seq<Run>, stored: nat): Counters {
    var c := SeedOutcome(t).c;
    c.(pathsEmitted := c.pathsEmitted + stored, maxDepth := Max(c.maxDepth, Deepest(vis)), rejects := c.rejects.Plus(QueueRejects(g, q, vis)))
  }

  lemma FirstPhaseReport(g: Graph, q: Query, n: nat, from: nat, to: nat, sp: seq<Run>, t: Outcome, h: Outcome)
    requires 1 < n < |q.steps| && Enumerates(g, Prefix(q, n), from, to, sp) && Reports(g, Prefix(q, n), sp, t)
    requires h.c.statesEnqueued == t.c.statesEnqueued == |sp| && h.c.seedPaths == |t.paths|
    ensures PhaseOne(g, q, n, from, to, sp, h)
  {
    hide Enumerates, Finished;
    PathsCount(Finished(Prefix(q, n), sp), t.paths);
  }

  lemma PathsCount(s: seq<Run>, ps: seq<seq<int>>)
    requires multiset(ps) == multiset(Paths(s))
    ensures |ps| == |s|
  {
    assert |multiset(ps)| == |ps| && |multiset(Paths(s))| == |Paths(s)|;
  }

  lemma QueuedCounted(g: Graph, q: Query, lim: Limits, begin: nat, end: nat)
    requires |q.steps| > 0
    ensures TcetOutcome(g, q, lim, begin, end).c.statesEnqueued == |TcetTrace(g, q, lim, begin, end).queue|
  {}

  lemma HybridComplete(g: Graph, q: Query, lim: Limits, n: nat, begin: nat, end: nat)
    returns (s: seq<Run>, sp: seq<Run>)
    requires 1 < n < |q.steps| && lim.maxPathLen >= 1
    requires !HcetOutcome(g, q, lim, n, begin, end).c.overflow
    ensures var from, to, o := Clamp(begin, |g.vertices|), ShardEnd(g, begin, end), HcetOutcome(g, q, lim, n, begin, end);
      && ListsHybrid(g, q, n, from, to, s) && Reports(g, q, s, o) && PhaseOne(g, q, n, from, to, sp, o)
  {
    hide Visited, Accounted, TcetOutcome, HcetOutcome, TcetTrace, LateRuns, Reports, Enumerates, Deepest, QueueRejects, AfterAll;
    var p := Prefix(q, n);
    sp := TcetTrace(g, p, lim, begin, end).queue;
    var vis := LateRuns(g, q, lim, n, sp);
    s := HybridRuns(g, q, lim, n, sp);
    var o := SeedOutcome(TcetOutcome(g, p, lim, begin, end));
    SecondPhase(g, q, lim, n, begin, end);
    CleanVisit(g, q, lim, o, vis, HcetOutcome(g, q, lim, n, begin, end));
    TcetComplete(g, p, lim, begin, end);
    TraceStaysShort(g, p, lim, begin, end);
    QueuedCounted(g, p, lim, begin, end);
    var t, h := TcetOutcome(g, p, lim, begin, end), HcetOutcome(g, q, lim, n, begin, end);
    HybridRunsExact(g, q, lim, n, Clamp(begin, |g.vertices|), ShardEnd(g, begin, end), sp);
    PhasesReport(g, q, lim, n, sp, t, h);
    FirstPhaseReport(g, q, n, Clamp(begin, |g.vertices|), ShardEnd(g, begin, end), sp, t, h);
  }

  /** H-CET reports overflow exactly when one of its two phases runs out of room. */
  lemma HcetOverflowExact(g: Graph, q: Query, lim: Limits, switchDepth: nat, begin: nat, end: nat)
    requires |q.steps| > 0 && lim.maxPathLen >= 1
    ensures !HcetOutcome(g, q, lim, switchDepth, begin, end).c.overflow <==>
      HybridSuffices(g, q, lim, switchDepth, Clamp(begin, |g.vertices|), ShardEnd(g, begin, end))
  {
    if switchDepth <= 1 || switchDepth >= |q.steps| {
      if switchDepth > 1 { SeedsAreResults(g, q, lim, switchDepth, begin, end); }
      TcetOverflowExact(g, q, lim, begin, end);
    } else {
      HybridOverflowExact(g, q, lim, switchDepth, begin, end);
    }
  }

  lemma HybridOverflowExact(g: Graph, q: Query, lim: Limits, n: nat, begin: nat, end: nat)
    requires 1 < n < |q.steps| && lim.maxPathLen >= 1
    ensures var from, to := Clamp(begin, |g.vertices|), ShardEnd(g, begin, end);
      !HcetOutcome(g, q, lim, n, begin, end).c.overflow <==>
      QueueSuffices(g, Prefix(q, n), lim, from, to) && LateSuffices(g, q, lim, n, from, to)
  {
    hide LateRoom, HcetOutcome, TcetOutcome, TcetTrace, QueueSuffices, LateSuffices, Enumerates, Reports, Deepest;
    var from, to, p := Clamp(begin, |g.vertices|), ShardEnd(g, begin, end), Prefix(q, n);
    SecondOverflow(g, q, lim, n, begin, end);
    TcetOverflowExact(g, p, lim, begin, end);
    if !TcetOutcome(g, p, lim, begin, end).c.overflow {
      TcetComplete(g, p, lim, begin, end);
      TraceStaysShort(g, p, lim, begin, end);
      LateOverflow(g, q, lim, n, from, to, TcetTrace(g, p, lim, begin, end).queue);
    }
  }

  /** One of the phases overflows if H-CET does. */
  lemma SecondOverflow(g: Graph, q: Query, lim: Limits, n: nat, begin: nat, end: nat)
    requires 1 < n < |q.steps|
    ensures !HcetOutcome(g, q, lim, n, begin, end).c.overflow <==>
      && !TcetOutcome(g, Prefix(q, n), lim, begin, end).c.overflow
      && LateRoom(g, q, lim, n, TcetTrace(g, Prefix(q, n), lim, begin, end).queue)
  {
    hide HcetOutcome, TcetOutcome, TcetTrace, LateRuns, AfterAll, Visited, Finished, QueueRejects, Deepest, TooDeep;
    var o := SeedOutcome(TcetOutcome(g, Prefix(q, n), lim, begin, end));
    var vis := LateRuns(g, q, lim, n, TcetTrace(g, Prefix(q, n), lim, begin, end).queue);
    SecondPhase(g, q, lim, n, begin, end);
    CleanVisit(g, q, lim, o, vis, HcetOutcome(g, q, lim, n, begin, end));
  }

  lemma LateOverflow(g: Graph, q: Query, lim: Limits, n: nat, from: nat, to: nat, sp: seq<Run>)
    requires PrefixSearched(g, q, lim, n, from, to, sp)
    ensures LateRoom(g, q, lim, n, sp) <==> LateSuffices(g, q, lim, n, from, to)
  {
    hide LateRuns, HybridInShard, Enumerates, Deepest, Finished;
    if LateRoom(g, q, lim, n, sp) { FitsSuffice(g, q, lim, n, from, to, sp); }
    if LateSuffices(g, q, lim, n, from, to) {
      var vis := LateRuns(g, q, lim, n, sp);
      LateRunsExact(g, q, lim, n, from, to, sp);
      var s :| ListsHybrid(g, q, n, from, to, s) && |Finished(q, s)| <= lim.maxPaths
        && forall r :: r in s && Idx(r) >= n ==> Len(r) < lim.maxPathLen;
      assert Within(vis, s);
      FinishedWithin(q, vis, s);
    }
  }

  /** The second phase finds all its runs short and has room for its results. */
  ghost predicate LateRoom(g: Graph, q: Query, lim: Limits, n: nat, sp: seq<Run>)
    requires n <= |q.steps|
  {
    var vis := LateRuns(g, q, lim, n, sp);
    (forall r :: r in vis ==> !TooDeep(lim, r)) && |Finished(q, vis)| <= lim.maxPaths
  }

  lemma FitsSuffice(g: Graph, q: Query, lim: Limits, n: nat, from: nat, to: nat, sp: seq<Run>)
    requires PrefixSearched(g, q, lim, n, from, to, sp) && LateRoom(g, q, lim, n, sp)
    ensures LateSuffices(g, q, lim, n, from, to)
  {
    var s := HybridRuns(g, q, lim, n, sp);
    HybridRunsExact(g, q, lim, n, from, to, sp);
    HybridFinished(g, q, lim, n, sp);
    forall r | r in s && Idx(r) >= n ensures Len(r) < lim.maxPathLen {
      UnfinishedMembers(Prefix(q, n), sp, r);
    }
  }

  lemma HybridFinished(g: Graph, q: Query, lim: Limits, n: nat, sp: seq<Run>)
    requires 0 < n < |q.steps|
    ensures |Finished(q, HybridRuns(g, q, lim, n, sp))| == |Finished(q, LateRuns(g, q, lim, n, sp))|
  {
    HybridTally(g, q, lim, n, sp);
    var a, b := Paths(Finished(q, HybridRuns(g, q, lim, n, sp))), Paths(Finished(q, LateRuns(g, q, lim, n, sp)));
    assert |multiset(a)| == |a| && |multiset(b)| == |b|;
  }

  // ---- The executors side by side ----

  /** M-CET and T-CET agree, whatever the ids. */
  lemma McetTcetAgree(g: Graph, q: Query, lim: Limits)
    requires lim.maxPathLen >= 1
    ensures Agree(McetOutcome(g, q, lim), TcetOutcome(g, q, lim, 0, |g.vertices|))
  {
    hide Enumerates, Reports;
    var n, m, t := |g.vertices|, McetOutcome(g, q, lim), TcetOutcome(g, q, lim, 0, |g.vertices|);
    if |q.steps| > 0 && !m.c.overflow && !t.c.overflow {
      McetComplete(g, q, lim);
      TcetComplete(g, q, lim, 0, n);
      CompleteSearchesAgree(g, q, 0, n, McetVisits(g, q, lim), m, TcetTrace(g, q, lim, 0, n).queue, t);
    }
  }

  /** H-CET agrees with T-CET on every range of start vertices; the start ids matter only if seeds are resumed. */
  lemma TcetHcetAgree(g: Graph, q: Query, lim: Limits, switchDepth: nat, begin: nat, end: nat)
    requires lim.maxPathLen >= 1 && SeedsResolve(g, q, switchDepth)
    ensures Agree(TcetOutcome(g, q, lim, begin, end), HcetOutcome(g, q, lim, switchDepth, begin, end))
  {
    hide Enumerates, Reports, ListsHybrid, PhaseOne, SeedsResolve;
    var from, to := Clamp(begin, |g.vertices|), ShardEnd(g, begin, end);
    var t, h := TcetOutcome(g, q, lim, begin, end), HcetOutcome(g, q, lim, switchDepth, begin, end);
    if |q.steps| > 0 && !t.c.overflow && !h.c.overflow {
      TcetComplete(g, q, lim, begin, end);
      var s, sp := HcetComplete(g, q, lim, switchDepth, begin, end);
      CompleteSearchesAgree(g, q, from, to, TcetTrace(g, q, lim, begin, end).queue, t, s, h);
    }
  }

  lemma McetHcetAgree(g: Graph, q: Query, lim: Limits, switchDepth: nat)
    requires lim.maxPathLen >= 1 && SeedsResolve(g, q, switchDepth)
    ensures Agree(McetOutcome(g, q, lim), HcetOutcome(g, q, lim, switchDepth, 0, |g.vertices|))
  {
    hide Enumerates, Reports, ListsHybrid, PhaseOne, SeedsResolve;
    var n, m, h := |g.vertices|, McetOutcome(g, q, lim), HcetOutcome(g, q, lim, switchDepth, 0, |g.vertices|);
    if |q.steps| > 0 && !m.c.overflow && !h.c.overflow {
      McetComplete(g, q, lim);
      var s, sp := HcetComplete(g, q, lim, switchDepth, 0, n);
      CompleteSearchesAgree(g, q, 0, n, McetVisits(g, q, lim), m, s, h);
    }
  }

  /** Any two of the three that report no overflow agree. */
  ghost predicate AllAgree(g: Graph, q: Query, lim: Limits, switchDepth: nat) {
    var m, t, h := McetOutcome(g, q, lim), TcetOutcome(g, q, lim, 0, |g.vertices|), HcetOutcome(g, q, lim, switchDepth, 0, |g.vertices|);
    Agree(m, t) && Agree(t, h) && Agree(m, h)
  }

  lemma EnginesAgree(g: Graph, q: Query, lim: Limits, switchDepth: nat)
    requires lim.maxPathLen >= 1 && SeedsResolve(g, q, switchDepth)
    ensures AllAgree(g, q, lim, switchDepth)
  {
    hide Agree;
    McetTcetAgree(g, q, lim);
    TcetHcetAgree(g, q, lim, switchDepth, 0, |g.vertices|);
    McetHcetAgree(g, q, lim, switchDepth);
  }
}
