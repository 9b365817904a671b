/** What the parallel run reports, in terms of the shards' outcomes, under any capacities: counters are
    added up, the depth is the greatest, and the table holds the shards' paths in order as far as it goes. */
module ParallelCounts {
  import opened TrendGraph
  import opened SearchSpec
  import opened BreadthFirst
  import opened Engines
  import opened Agreement
  import opened NativeTheorems
  import opened Executors
  import opened Parallel

  /** One counter over all outcomes. */
  function Added(outs: seq<Outcome>, counter: Counters -> nat): nat {
    if outs == [] then 0 else Added(outs[..|outs| - 1], counter) + counter(outs[|outs| - 1].c)
  }

  /** Their paths, one table behind the other. */
  function Joined(outs: seq<Outcome>): seq<seq<int>> {
    if outs == [] then [] else Joined(outs[..|outs| - 1]) + outs[|outs| - 1].paths
  }

  /** The outcomes of the first n shards. */
  function Shards(g: Graph, q: Query, lim: Limits, switchDepth: nat, k: nat, n: nat): (outs: seq<Outcome>)
    requires 0 < k
    ensures |outs| == n && forall i :: 0 <= i < n ==> outs[i] == ShardOutcome(g, q, lim, switchDepth, k, i)
  {
    seq(n, i requires 0 <= i < n => ShardOutcome(g, q, lim, switchDepth, k, i))
  }

  /** Every counter of work done is the sum of the outcomes'. */
  ghost predicate AddsUp(outs: seq<Outcome>, c: Counters) {
    && c.statesEnqueued == Added(outs, (x: Counters) => x.statesEnqueued)
    && c.statesTruncated == Added(outs, (x: Counters) => x.statesTruncated)
    && c.seedPaths == Added(outs, (x: Counters) => x.seedPaths)
    && c.rejects.temporal == Added(outs, (x: Counters) => x.rejects.temporal)
    && c.rejects.window == Added(outs, (x: Counters) => x.rejects.window)
    && c.rejects.predicate_ == Added(outs, (x: Counters) => x.rejects.predicate_)
  }

  /** The table holds the outcomes' paths up to its capacity; what is left out is counted. */
  ghost predicate Holds(lim: Limits, outs: seq<Outcome>, o: Outcome) {
    && o.paths == Clip(Joined(outs), lim.maxPaths)
    && o.c.pathsTruncated == Added(outs, (x: Counters) => x.pathsTruncated) + |Joined(outs)| - |o.paths|
    && (o.c.overflow <==> |o.paths| < |Joined(outs)| || exists i :: 0 <= i < |outs| && outs[i].c.overflow)
  }

  ghost predicate IsDeepest(outs: seq<Outcome>, depth: nat) {
    && (forall i :: 0 <= i < |outs| ==> outs[i].c.maxDepth <= depth)
    && (depth == 0 || exists i :: 0 <= i < |outs| && outs[i].c.maxDepth == depth)
  }

  // ---- A shard's paths fit the path buffer ----

  ghost predicate Short(lim: Limits, ps: seq<seq<int>>) {
    forall i :: 0 <= i < |ps| ==> |ps[i]| <= lim.maxPathLen
  }

  lemma EmitShort(lim: Limits, o: Outcome, p: seq<int>)
    requires Short(lim, o.paths)
    ensures Short(lim, Emit(lim, o, p).paths)
  {}

  lemma {:induction false} EmitAllShort(lim: Limits, o: Outcome, ps: seq<seq<int>>)
    requires Short(lim, o.paths)
    ensures Short(lim, EmitAll(lim, o, ps).paths)
    decreases |ps|
  {
    hide Emit, Short;
    if ps != [] {
      EmitShort(lim, o, ps[0]);
      EmitAllShort(lim, Emit(lim, o, ps[0]), ps[1..]);
    }
  }

  lemma NodeShort(g: Graph, q: Query, lim: Limits, o: Outcome, r: Run)
    requires Short(lim, o.paths)
    ensures Short(lim, AfterNode(g, q, lim, o, r).paths)
  {}

  lemma {:induction false} AfterAllShort(g: Graph, q: Query, lim: Limits, o: Outcome, vis: seq<Run>)
    requires Short(lim, o.paths)
    ensures Short(lim, AfterAll(g, q, lim, o, vis).paths)
    decreases |vis|
  {
    hide AfterNode, Short;
    if vis != [] {
      NodeShort(g, q, lim, o, vis[0]);
      AfterAllShort(g, q, lim, AfterNode(g, q, lim, o, vis[0]), vis[1..]);
    }
  }

  lemma QueueShort(q: Query, lim: Limits, s: seq<Run>)
    requires Deepest(s) <= lim.maxPathLen
    ensures Short(lim, Paths(Finished(q, s)))
  {
    var done := Finished(q, s);
    forall i | 0 <= i < |done| ensures |Paths(done)[i]| <= lim.maxPathLen {
      PathsAt(done, i);
      FinishedMembers(q, s, done[i]);
      var k :| 0 <= k < |s| && s[k] == done[i];
      DeepestCovers(s, k);
    }
  }

  lemma HcetShort(g: Graph, q: Query, lim: Limits, switchDepth: nat, begin: nat, end: nat)
    requires |q.steps| > 0 && lim.maxPathLen >= 1
    ensures Short(lim, HcetOutcome(g, q, lim, switchDepth, begin, end).paths)
  {
    hide TcetTrace, Deepest, Finished, Paths, AfterAll, EmitAll, VisitRoots;
    if switchDepth <= 1 {
      TraceStaysShort(g, q, lim, begin, end);
      QueueShort(q, lim, TcetTrace(g, q, lim, begin, end).queue);
    } else {
      var n := SwitchLen(q, switchDepth);
      var seeds := Seeds(g, q, lim, n, begin, end);
      var o := SeedOutcome(TcetOutcome(g, Prefix(q, n), lim, begin, end));
      EmitAllShort(lim, o, Paths(seeds));
      AfterAllShort(g, q, lim, o, VisitRoots(g, q, lim, Rebased(g, seeds)));
    }
  }

  // ---- Merging ----

  lemma ClipMore(a: seq<seq<int>>, p: seq<int>, n: nat)
    ensures Clip(a + [p], n) == if |a| < n then a + [p] else Clip(a, n)
  {}

  /** Merging a table of short paths appends them as far as there is room. */
  lemma {:induction false} MergeAppends(lim: Limits, o: Outcome, ps: seq<seq<int>>)
    requires Short(lim, ps) && |o.paths| <= lim.maxPaths
    ensures var m := MergePaths(lim, o, ps);
      && m.paths == Clip(o.paths + ps, lim.maxPaths)
      && m.c == o.c.(pathsTruncated := o.c.pathsTruncated + |o.paths| + |ps| - |m.paths|,
                     overflow := o.c.overflow || |m.paths| < |o.paths| + |ps|)
    decreases |ps|
  {
    if ps == [] {
      assert o.paths + ps == o.paths;
    } else {
      var o' := MergePath(lim, o, ps[0]);
      MergeAppends(lim, o', ps[1..]);
      assert o.paths + ps == (o.paths + [ps[0]]) + ps[1..];
    }
  }

  lemma OneMore(outs: seq<Outcome>, w: Outcome)
    ensures Joined(outs + [w]) == Joined(outs) + w.paths
    ensures forall counter :: Added(outs + [w], counter) == Added(outs, counter) + counter(w.c)
  {
    assert (outs + [w])[..|outs|] == outs;
  }

  lemma MergeAddsUp(lim: Limits, outs: seq<Outcome>, o: Outcome, w: Outcome)
    requires AddsUp(outs, o.c) && Holds(lim, outs, o) && IsDeepest(outs, o.c.maxDepth) && Short(lim, w.paths)
    ensures var m := MergeOne(lim, o, w);
      AddsUp(outs + [w], m.c) && Holds(lim, outs + [w], m) && IsDeepest(outs + [w], m.c.maxDepth)
  {
    hide Added, Joined, MergePaths, Short;
    OneMore(outs, w);
    MergeAppends(lim, Outcome(o.paths, MergeCounters(o.c, w.c)), w.paths);
    ClipTwice(Joined(outs), w.paths, lim.maxPaths);
    var s := outs + [w];
    assert s[|outs|] == w && forall i :: 0 <= i < |outs| ==> s[i] == outs[i];
  }

  lemma ClipTwice(a: seq<seq<int>>, b: seq<seq<int>>, n: nat)
    ensures Clip(Clip(a, n) + b, n) == Clip(a + b, n)
  {}

  lemma {:induction false} MergedAddsUp(g: Graph, q: Query, lim: Limits, switchDepth: nat, k: nat, n: nat)
    requires 0 < k && |q.steps| > 0 && lim.maxPathLen >= 1
    ensures var outs, m := Shards(g, q, lim, switchDepth, k, n), Merged(g, q, lim, switchDepth, k, n);
      AddsUp(outs, m.c) && Holds(lim, outs, m) && IsDeepest(outs, m.c.maxDepth)
  {
    hide Holds, AddsUp, IsDeepest, ShardOutcome, MergeOne, Short, Merged, Shards;
    NoShards(g, q, lim, switchDepth, k);
    if n > 0 {
      MergedAddsUp(g, q, lim, switchDepth, k, n - 1);
      ShardShort(g, q, lim, switchDepth, k, n - 1);
      OneShardMore(g, q, lim, switchDepth, k, n);
      MergeAddsUp(lim, Shards(g, q, lim, switchDepth, k, n - 1), Merged(g, q, lim, switchDepth, k, n - 1), ShardOutcome(g, q, lim, switchDepth, k, n - 1));
    }
  }

  lemma OneShardMore(g: Graph, q: Query, lim: Limits, switchDepth: nat, k: nat, n: nat)
    requires 0 < n && 0 < k
    ensures var w := ShardOutcome(g, q, lim, switchDepth, k, n - 1);
      && Shards(g, q, lim, switchDepth, k, n) == Shards(g, q, lim, switchDepth, k, n - 1) + [w]
      && Merged(g, q, lim, switchDepth, k, n) == MergeOne(lim, Merged(g, q, lim, switchDepth, k, n - 1), w)
  {
    hide ShardOutcome, MergeOne;
  }

  lemma ShardShort(g: Graph, q: Query, lim: Limits, switchDepth: nat, k: nat, i: nat)
    requires 0 < k && |q.steps| > 0 && lim.maxPathLen >= 1
    ensures Short(lim, ShardOutcome(g, q, lim, switchDepth, k, i).paths)
  {
    hide HcetOutcome, ShardStart;
    HcetShort(g, q, lim, switchDepth, ShardStart(|g.vertices|, k, i), ShardStart(|g.vertices|, k, i + 1));
  }

  lemma NoShards(g: Graph, q: Query, lim: Limits, switchDepth: nat, k: nat)
    requires 0 < k
    ensures var outs, m := Shards(g, q, lim, switchDepth, k, 0), Merged(g, q, lim, switchDepth, k, 0);
      AddsUp(outs, m.c) && Holds(lim, outs, m) && IsDeepest(outs, m.c.maxDepth)
  {
    assert Shards(g, q, lim, switchDepth, k, 0) == [];
  }

  /** Under any capacities the parallel run's counters are the sums of the shards', its depth their
      greatest, and its table their paths in worker order; every path left out is counted. */
  lemma ParallelAddsUp(g: Graph, q: Query, lim: Limits, switchDepth: nat, k: nat)
    requires 0 < k && |q.steps| > 0 && lim.maxPathLen >= 1
    ensures var outs, o := Shards(g, q, lim, switchDepth, k, k), ParallelOutcome(g, q, lim, switchDepth, k);
      AddsUp(outs, o.c) && Holds(lim, outs, o) && IsDeepest(outs, o.c.maxDepth) && o.c.pathsEmitted == |o.paths|
  {
    hide Shards, Merged, Added, Joined;
    MergedAddsUp(g, q, lim, switchDepth, k, k);
  }
}
