/** Even when capacities are hit: what is emitted is real, each accepting run at most once, the
    emission counter is the table's size, and overflow is flagged exactly when a counter says
    that something was turned away. */
module NoSilentLoss {
  import opened TrendGraph
  import opened SearchSpec
  import opened BreadthFirst
  import opened BreadthFirstFacts
  import opened Engines
  import opened Agreement
  import opened NativeTheorems
  import opened HybridTheorems
  import opened Executors
  import opened Parallel

  /** The emission counter is the size of the table, and overflow is flagged exactly when a counter
      says that something was turned away. */
  predicate Counted(lim: Limits, o: Outcome) {
    o.c.pathsEmitted == |o.paths| <= lim.maxPaths && (o.c.overflow <==> o.c.pathsTruncated + o.c.statesTruncated > 0)
  }

  /** runs are distinct accepting runs of the shard and o.paths are their paths, in order. */
  ghost predicate Honest(g: Graph, q: Query, lim: Limits, from: nat, to: nat, runs: seq<Run>, o: Outcome) {
    && Distinct(runs) && (forall r :: r in runs ==> Accepting(g, q, r) && from <= Origin(r) < to)
    && o.paths == Paths(runs) && Counted(lim, o)
  }

  /** The same for the runs as H-CET takes them. */
  ghost predicate HonestHybrid(g: Graph, q: Query, lim: Limits, switchDepth: nat, from: nat, to: nat, runs: seq<Run>, o: Outcome) {
    && Distinct(runs) && (forall r :: r in runs ==> HybridInShard(g, q, switchDepth, from, to, r) && Idx(r) >= |q.steps|)
    && o.paths == Paths(runs) && Counted(lim, o)
  }

  lemma PathsTake(s: seq<Run>, k: nat)
    requires k <= |s|
    ensures Paths(s)[..k] == Paths(s[..k])
  {
    forall i | 0 <= i < k ensures Paths(s)[i] == Paths(s[..k])[i] {
      PathsAt(s, i);
      PathsAt(s[..k], i);
    }
  }

  /** Among distinct runs of the shard, the finished ones are distinct accepting runs. */
  lemma FinishedAccept(g: Graph, q: Query, from: nat, to: nat, s: seq<Run>)
    requires Distinct(s) && forall r :: r in s ==> InShard(g, q, from, to, r)
    ensures Distinct(Finished(q, s))
    ensures forall r :: r in Finished(q, s) ==> Accepting(g, q, r) && from <= Origin(r) < to
  {
    FinishedDistinct(q, s);
    forall r | r in Finished(q, s) ensures Accepting(g, q, r) && from <= Origin(r) < to {
      FinishedMembers(q, s, r);
      IdxBounded(g, q, r);
    }
  }

  lemma {:induction false} ShallowMembers(lim: Limits, s: seq<Run>)
    requires Distinct(s)
    ensures Distinct(Shallow(lim, s)) && forall r :: r in Shallow(lim, s) ==> r in s
  {
    if s != [] {
      var t, r := s[..|s| - 1], s[|s| - 1];
      ShallowMembers(lim, t);
      ShallowSnoc(lim, t, r);
      LastOnce(s);
      hide Shallow, TooDeep;
      DistinctAppend(Shallow(lim, t), [r]);
    }
  }

  lemma LastOnce(s: seq<Run>)
    requires s != [] && Distinct(s)
    ensures var t, r := s[..|s| - 1], s[|s| - 1]; s == t + [r] && r !in t && Distinct(t) && forall x :: x in s <==> x in t || x == r
  {
    assert s == s[..|s| - 1] + [s[|s| - 1]];
  }

  /** T-CET; its results also come shortest first. */
  lemma TcetHonest(g: Graph, q: Query, lim: Limits, begin: nat, end: nat) returns (runs: seq<Run>)
    requires |q.steps| > 0
    ensures var o := TcetOutcome(g, q, lim, begin, end);
      && Honest(g, q, lim, Clamp(begin, |g.vertices|), ShardEnd(g, begin, end), runs, o)
      && forall i, j :: 0 <= i < j < |o.paths| ==> |o.paths[i]| <= |o.paths[j]|
  {
    var t := TcetTrace(g, q, lim, begin, end);
    TraceFacts(g, q, lim, begin, end);
    runs := Finished(q, t.queue);
    forall i, j | 0 <= i < j < |t.queue| ensures t.queue[i] != t.queue[j] {
      assert (t.queue + t.lost)[i] != (t.queue + t.lost)[j];
    }
    FinishedAccept(g, q, Clamp(begin, |g.vertices|), ShardEnd(g, begin, end), t.queue);
    FinishedShort(q, t.queue);
    FinishedSorted(q, t.queue);
    var ps := Paths(runs);
    forall i, j | 0 <= i < j < |ps| ensures |ps[i]| <= |ps[j]| {
      PathsAt(runs, i);
      PathsAt(runs, j);
    }
  }

  lemma {:induction false} FinishedSorted(q: Query, s: seq<Run>)
    requires forall i, j :: 0 <= i < j < |s| ==> Len(s[i]) <= Len(s[j])
    ensures var f := Finished(q, s); forall i, j :: 0 <= i < j < |f| ==> Len(f[i]) <= Len(f[j])
  {
    if s != [] {
      var t, r := s[..|s| - 1], s[|s| - 1];
      FinishedSorted(q, t);
      forall i | 0 <= i < |Finished(q, t)| ensures Len(Finished(q, t)[i]) <= Len(r) {
        FinishedMembers(q, t, Finished(q, t)[i]);
      }
    }
  }

  /** The results of a depth-first visit that began with an empty buffer. */
  lemma VisitHonest(g: Graph, q: Query, lim: Limits, o: Outcome, vis: seq<Run>, o': Outcome)
    returns (runs: seq<Run>)
    requires Distinct(vis) && Visited(g, q, lim, o, vis, o')
    requires o.paths == [] && o.c.pathsEmitted == 0 && (o.c.overflow <==> o.c.pathsTruncated + o.c.statesTruncated > 0)
    ensures Distinct(runs) && (forall r :: r in runs ==> r in vis && Idx(r) >= |q.steps|)
    ensures o'.paths == Paths(runs) && Counted(lim, o')
  {
    var kept := Shallow(lim, vis);
    ShallowMembers(lim, vis);
    FinishedDistinct(q, kept);
    runs := Finished(q, kept);
    forall r | r in runs ensures r in vis && Idx(r) >= |q.steps| { FinishedMembers(q, kept, r); }
    assert o.paths + Paths(runs) == Paths(runs);
    if |runs| > lim.maxPaths {
      PathsTake(runs, lim.maxPaths);
      forall r | r in runs[..lim.maxPaths] ensures r in runs {}
      runs := runs[..lim.maxPaths];
    }
  }

  lemma McetHonest(g: Graph, q: Query, lim: Limits) returns (runs: seq<Run>)
    requires |q.steps| > 0 && lim.maxPathLen >= 1
    ensures Honest(g, q, lim, 0, |g.vertices|, runs, McetOutcome(g, q, lim))
  {
    AfterAllVisited(g, q, lim, Fresh, McetVisits(g, q, lim));
    McetVisitsExact(g, q, lim);
    runs := VisitHonest(g, q, lim, Fresh, McetVisits(g, q, lim), McetOutcome(g, q, lim));
    forall r | r in runs ensures Accepting(g, q, r) { IdxBounded(g, q, r); }
  }

  /** Whatever the ids, H-CET emits only runs it searched, and its counters are right; when the
      seeds' start ids resolve, what it emits are accepting runs. */
  lemma HcetHonest(g: Graph, q: Query, lim: Limits, switchDepth: nat, begin: nat, end: nat) returns (runs: seq<Run>)
    requires |q.steps| > 0 && lim.maxPathLen >= 1
    ensures var from, to, o := Clamp(begin, |g.vertices|), ShardEnd(g, begin, end), HcetOutcome(g, q, lim, switchDepth, begin, end);
      && HonestHybrid(g, q, lim, switchDepth, from, to, runs, o)
      && (SeedsResolve(g, q, switchDepth) ==> Honest(g, q, lim, from, to, runs, o))
  {
    if switchDepth <= 1 || switchDepth >= |q.steps| {
      if switchDepth > 1 { SeedsAreResults(g, q, lim, switchDepth, begin, end); }
      runs := TcetHonest(g, q, lim, begin, end);
    } else {
      runs := HybridHonest(g, q, lim, switchDepth, begin, end);
      if SeedsResolve(g, q, switchDepth) {
        forall r | r in runs ensures Accepting(g, q, r) {
          HybridIsPartial(g, q, switchDepth, r);
          IdxBounded(g, q, r);
        }
      }
    }
  }

  lemma HybridHonest(g: Graph, q: Query, lim: Limits, n: nat, begin: nat, end: nat) returns (runs: seq<Run>)
    requires 1 < n < |q.steps| && lim.maxPathLen >= 1
    ensures HonestHybrid(g, q, lim, n, Clamp(begin, |g.vertices|), ShardEnd(g, begin, end), runs, HcetOutcome(g, q, lim, n, begin, end))
  {
    var from, to, p := Clamp(begin, |g.vertices|), ShardEnd(g, begin, end), Prefix(q, n);
    var t := TcetTrace(g, p, lim, begin, end);
    var vis := LateRuns(g, q, lim, n, t.queue);
    var o := SeedOutcome(TcetOutcome(g, p, lim, begin, end));
    SecondPhase(g, q, lim, n, begin, end);
    QueuedLateRuns(g, q, lim, n, begin, end);
    runs := VisitHonest(g, q, lim, o, vis, HcetOutcome(g, q, lim, n, begin, end));
  }

  /** LateRunsExact one way, whether or not the first phase found room for everything. */
  lemma QueuedLateRuns(g: Graph, q: Query, lim: Limits, n: nat, begin: nat, end: nat)
    requires 1 < n < |q.steps| && lim.maxPathLen >= 1
    ensures var vis := LateRuns(g, q, lim, n, TcetTrace(g, Prefix(q, n), lim, begin, end).queue);
      && Distinct(vis)
      && forall x :: x in vis ==> HybridInShard(g, q, n, Clamp(begin, |g.vertices|), ShardEnd(g, begin, end), x)
  {
    var p := Prefix(q, n);
    var t := TcetTrace(g, p, lim, begin, end);
    var seeds := Finished(p, t.queue);
    var roots := Rebased(g, seeds);
    TraceFacts(g, p, lim, begin, end);
    assert Distinct(t.queue) by {
      forall i, j | 0 <= i < j < |t.queue| ensures t.queue[i] != t.queue[j] {
        assert (t.queue + t.lost)[i] != (t.queue + t.lost)[j];
      }
    }
    FinishedDistinct(p, t.queue);
    forall i | 0 <= i < |seeds|
      ensures Partial(g, p, seeds[i]) && Idx(seeds[i]) >= n && Len(seeds[i]) <= lim.maxPathLen
      ensures Clamp(begin, |g.vertices|) <= Origin(seeds[i]) < ShardEnd(g, begin, end)
    {
      SeedsShort(g, q, lim, n, begin, end, seeds[i]);
      FinishedMembers(p, t.queue, seeds[i]);
    }
    SeedsApart(g, q, lim, n, seeds);
    RootsExact(g, q, lim, roots);
    forall x | ReachedFrom(g, q, roots, x)
      ensures HybridInShard(g, q, n, Clamp(begin, |g.vertices|), ShardEnd(g, begin, end), x)
    {
      var i :| 0 <= i < |roots| && Reaches(g, q, roots[i], x);
      assert Resumed(g, q, n, seeds[i], x);
      ResumedFacts(g, q, n, seeds[i], x);
    }
  }

  // ---- The parallel run ----

  /** Merging appends the paths of some of the worker's runs, in order, and flags every one left out. */
  lemma {:induction false} MergeKeeps(lim: Limits, o: Outcome, runs: seq<Run>) returns (kept: seq<Run>)
    requires Distinct(runs) && |o.paths| <= lim.maxPaths
    ensures var m := MergePaths(lim, o, Paths(runs));
      && Distinct(kept) && (forall r :: r in kept ==> r in runs)
      && m.paths == o.paths + Paths(kept) && |m.paths| <= lim.maxPaths
      && m.c.statesTruncated == o.c.statesTruncated && m.c.pathsTruncated == o.c.pathsTruncated + |runs| - |kept|
      && (m.c.overflow <==> o.c.overflow || |kept| < |runs|)
    decreases |runs|
  {
    if runs == [] {
      kept := [];
      assert o.paths + [] == o.paths;
    } else {
      PathsHead(runs);
      var r, rest := runs[0], runs[1..];
      assert r !in rest;
      var o' := MergePath(lim, o, Path(r));
      kept := MergeKeeps(lim, o', rest);
      Subseq(kept, rest);
      if o'.paths != o.paths {
        KeptHead(r, kept, o.paths);
        kept := [r] + kept;
      }
      assert Paths(runs)[0] == Path(r) && Paths(runs)[1..] == Paths(rest);
    }
  }

  lemma Subseq(kept: seq<Run>, runs: seq<Run>)
    requires Distinct(kept) && forall r :: r in kept ==> r in runs
    ensures |kept| <= |runs|
  {
    Pigeonhole(kept, runs);
  }

  lemma KeptHead(r: Run, kept: seq<Run>, before: seq<seq<int>>)
    requires Distinct(kept) && r !in kept
    ensures Distinct([r] + kept) && before + [Path(r)] + Paths(kept) == before + Paths([r] + kept)
  {
    DistinctAppend([r], kept);
    PathsHead([r] + kept);
    assert ([r] + kept)[1..] == kept;
  }

  lemma PathsConcat(a: seq<Run>, b: seq<Run>)
    ensures Paths(a + b) == Paths(a) + Paths(b)
  {
    forall i | 0 <= i < |a + b| ensures Paths(a + b)[i] == (Paths(a) + Paths(b))[i] {
      PathsAt(a + b, i);
      if i < |a| { PathsAt(a, i); } else { PathsAt(b, i - |a|); }
    }
  }

  lemma {:induction false} MergedHonest(g: Graph, q: Query, lim: Limits, switchDepth: nat, k: nat, i: nat) returns (runs: seq<Run>)
    requires 0 < k && i <= k && |q.steps| > 0 && lim.maxPathLen >= 1
    ensures var m := Merged(g, q, lim, switchDepth, k, i);
      && Distinct(runs)
      && (forall r :: r in runs ==> HybridInShard(g, q, switchDepth, 0, ShardStart(|g.vertices|, k, i), r) && Idx(r) >= |q.steps|)
      && m.paths == Paths(runs) && |m.paths| <= lim.maxPaths
      && (m.c.overflow <==> m.c.pathsTruncated + m.c.statesTruncated > 0)
  {
    hide HcetOutcome, HybridRun, ShardStart, MergePaths;
    runs := [];
    if i > 0 {
      var n := |g.vertices|;
      ShardsCover(n, k);
      ShardsOrdered(n, k, i - 1, i);
      var mid, hi := ShardStart(n, k, i - 1), ShardStart(n, k, i);
      var a := MergedHonest(g, q, lim, switchDepth, k, i - 1);
      var b := HcetHonest(g, q, lim, switchDepth, mid, hi);
      var o, w := Merged(g, q, lim, switchDepth, k, i - 1), ShardOutcome(g, q, lim, switchDepth, k, i - 1);
      var kept := MergeKeeps(lim, Outcome(o.paths, MergeCounters(o.c, w.c)), b);
      Subseq(kept, b);
      forall r | r in a ensures r !in kept {}
      DistinctAppend(a, kept);
      PathsConcat(a, kept);
      runs := a + kept;
    }
  }

  /** The parallel run, too, emits only runs that were searched, at most once, and flags every loss;
      when the seeds' start ids resolve, what it emits are accepting runs. */
  lemma ParallelHonest(g: Graph, q: Query, lim: Limits, switchDepth: nat, k: nat) returns (runs: seq<Run>)
    requires 0 < k && |q.steps| > 0 && lim.maxPathLen >= 1
    ensures var o := ParallelOutcome(g, q, lim, switchDepth, k);
      && HonestHybrid(g, q, lim, switchDepth, 0, |g.vertices|, runs, o)
      && (SeedsResolve(g, q, switchDepth) ==> Honest(g, q, lim, 0, |g.vertices|, runs, o))
  {
    ShardsCover(|g.vertices|, k);
    runs := MergedHonest(g, q, lim, switchDepth, k, k);
    if SeedsResolve(g, q, switchDepth) {
      forall r | r in runs ensures Accepting(g, q, r) {
        HybridIsPartial(g, q, switchDepth, r);
        IdxBounded(g, q, r);
      }
    }
  }
}
