/** Parallel H-CET: start vertices are cut into contiguous shards, every worker runs H-CET on its
    shard with buffers of its own, and the results are merged in worker order. */
module Parallel {
  import opened TrendGraph
  import opened SearchSpec
  import opened BreadthFirst
  import opened BreadthFirstFacts
  import opened Executors
  import opened Engines
  import opened Agreement
  import opened NativeTheorems
  import opened HybridTheorems

  const MAX_NATIVE_THREADS: nat := 64

  /** First vertex of shard i when n vertices are dealt to k workers. */
  function ShardStart(n: nat, k: nat, i: nat): nat
    requires 0 < k
  {
    i * (n / k) + if i < n % k then i else n % k
  }

  lemma ShardStep(n: nat, k: nat, i: nat)
    requires i < k
    ensures ShardStart(n, k, i + 1) == ShardStart(n, k, i) + n / k + if i < n % k then 1 else 0
  {
    assert (i + 1) * (n / k) == i * (n / k) + n / k;
  }

  lemma {:induction false} ShardsOrdered(n: nat, k: nat, i: nat, j: nat)
    requires i <= j <= k && 0 < k
    ensures ShardStart(n, k, i) <= ShardStart(n, k, j)
  {
    if i < j {
      ShardsOrdered(n, k, i, j - 1);
      ShardStep(n, k, j - 1);
    }
  }

  /** The shards are consecutive intervals covering 0..n, of sizes differing by at most one. */
  lemma ShardsCover(n: nat, k: nat)
    requires 0 < k
    ensures ShardStart(n, k, 0) == 0 && ShardStart(n, k, k) == n
    ensures forall i :: 0 <= i < k ==> 0 <= ShardStart(n, k, i + 1) - ShardStart(n, k, i) - n / k <= 1
    ensures forall i :: 0 <= i <= k ==> ShardStart(n, k, i) <= n
  {
    assert ShardStart(n, k, k) == n by {
      assert k * (n / k) + n % k == n;
    }
    forall i | 0 <= i < k ensures 0 <= ShardStart(n, k, i + 1) - ShardStart(n, k, i) - n / k <= 1 {
      ShardStep(n, k, i);
    }
    forall i | 0 <= i <= k ensures ShardStart(n, k, i) <= n {
      ShardsOrdered(n, k, i, k);
    }
  }

  /** The larger shards come first. */
  lemma LargerFirst(n: nat, k: nat, i: nat, j: nat)
    requires i < j < k
    ensures ShardStart(n, k, j + 1) - ShardStart(n, k, j) <= ShardStart(n, k, i + 1) - ShardStart(n, k, i)
  {
    hide ShardStart;
    ShardStep(n, k, i);
    ShardStep(n, k, j);
  }

  function Threads(vertices: nat, requested: nat): nat {
    var r := if requested == 0 then 1 else if requested > MAX_NATIVE_THREADS then MAX_NATIVE_THREADS else requested;
    if vertices > 0 && r > vertices then vertices else r
  }

  /** The largest number of threads that neither the request, nor the limit, nor the vertices exceed. */
  lemma ThreadsLargest(vertices: nat, requested: nat, t: nat)
    ensures 1 <= t <= Threads(vertices, requested) <==>
      1 <= t <= MAX_NATIVE_THREADS && (t == 1 || t <= requested) && (vertices > 0 ==> t <= vertices)
  {}

  // ---- Merging, as a value ----

  function MergePath(lim: Limits, o: Outcome, p: seq<int>): Outcome {
    if |o.paths| >= lim.maxPaths || |p| > lim.maxPathLen then TruncatePath(o) else o.(paths := o.paths + [p])
  }

  function MergePaths(lim: Limits, o: Outcome, ps: seq<seq<int>>): Outcome
    decreases |ps|
  {
    if ps == [] then o else MergePaths(lim, MergePath(lim, o, ps[0]), ps[1..])
  }

  function MergeOne(lim: Limits, o: Outcome, w: Outcome): Outcome {
    MergePaths(lim, Outcome(o.paths, MergeCounters(o.c, w.c)), w.paths)
  }

  /** The merge of the first i of k workers. */
  function Merged(g: Graph, q: Query, lim: Limits, switchDepth: nat, k: nat, i: nat): Outcome
    requires 0 < k
  {
    if i == 0 then Fresh
    else MergeOne(lim, Merged(g, q, lim, switchDepth, k, i - 1), ShardOutcome(g, q, lim, switchDepth, k, i - 1))
  }

  function ShardOutcome(g: Graph, q: Query, lim: Limits, switchDepth: nat, k: nat, i: nat): Outcome
    requires 0 < k
  {
    HcetOutcome(g, q, lim, switchDepth, ShardStart(|g.vertices|, k, i), ShardStart(|g.vertices|, k, i + 1))
  }

  function ParallelOutcome(g: Graph, q: Query, lim: Limits, switchDepth: nat, k: nat): Outcome
    requires 0 < k
  {
    var o := Merged(g, q, lim, switchDepth, k, k);
    o.(c := o.c.(pathsEmitted := |o.paths|))
  }

  // ---- Running the workers ----

  class Worker {
    const begin: nat
    const end: nat
    const out: ResultBuf
    const stats: ExecStats

    constructor (lim: Limits, begin: nat, end: nat)
      ensures this.begin == begin && this.end == end
      ensures fresh(out) && fresh(out.paths) && fresh(stats) && out.paths.Length == lim.maxPaths && out.count == 0
    {
      this.begin, this.end := begin, end;
      out := new ResultBuf(lim);
      stats := new ExecStats();
    }
  }

  /** No two workers share a buffer. */
  ghost predicate Private(ws: seq<Worker>) {
    forall i, j :: 0 <= i < j < |ws| ==>
      ws[i].out != ws[j].out && ws[i].out.paths != ws[j].out.paths && ws[i].stats != ws[j].stats
  }

  ghost predicate Completed(g: Graph, q: Query, lim: Limits, switchDepth: nat, w: Worker)
    reads w, w.out, w.out.paths, w.stats
  {
    w.out.Valid(lim) && View(w.out, w.stats) == HcetOutcome(g, q, lim, switchDepth, w.begin, w.end)
  }

  ghost predicate Dealt(g: Graph, lim: Limits, k: nat, ws: seq<Worker>)
    requires 0 < k
  {
    |ws| <= k && Private(ws) && forall i :: 0 <= i < |ws| ==>
      ws[i].begin == ShardStart(|g.vertices|, k, i) && ws[i].end == ShardStart(|g.vertices|, k, i + 1)
      && ws[i].out.paths.Length == lim.maxPaths
  }

  method DealShards(g: Graph, lim: Limits, k: nat) returns (ws: seq<Worker>, ghost bufs: set<object>)
    requires 0 < k
    ensures |ws| == k && Dealt(g, lim, k, ws)
    ensures fresh(bufs)
    ensures forall i :: 0 <= i < |ws| ==> ws[i].out in bufs && ws[i].out.paths in bufs && ws[i].stats in bufs
  {
    var base, rem, cursor := |g.vertices| / k, |g.vertices| % k, 0;
    ws, bufs := [], {};
    for i := 0 to k
      invariant |ws| == i && cursor == ShardStart(|g.vertices|, k, i) && Dealt(g, lim, k, ws)
      invariant fresh(bufs)
      invariant forall j :: 0 <= j < |ws| ==> ws[j].out in bufs && ws[j].out.paths in bufs && ws[j].stats in bufs
    {
      ShardStep(|g.vertices|, k, i);
      var span := base + if i < rem then 1 else 0;
      var w := new Worker(lim, cursor, cursor + span);
      ws, bufs := ws + [w], bufs + {w.out, w.out.paths, w.stats};
      cursor := cursor + span;
    }
  }

  method RunWorker(g: Graph, q: Query, lim: Limits, switchDepth: nat, w: Worker)
    requires Fits(g, lim) && w.out.paths.Length == lim.maxPaths
    modifies w.out, w.out.paths, w.stats
    ensures Completed(g, q, lim, switchDepth, w)
  {
    Hcet(g, q, lim, switchDepth, w.begin, w.end, w.out, w.stats);
  }

  /** The workers may be run in any order: each writes only its own buffers. */
  method RunWorkers(g: Graph, q: Query, lim: Limits, switchDepth: nat, k: nat, ws: seq<Worker>, ghost bufs: set<object>)
    requires Fits(g, lim) && 0 < k && Dealt(g, lim, k, ws)
    requires forall i :: 0 <= i < |ws| ==> ws[i].out in bufs && ws[i].out.paths in bufs && ws[i].stats in bufs
    modifies bufs
    ensures forall i :: 0 <= i < |ws| ==> Completed(g, q, lim, switchDepth, ws[i])
  {
    hide Completed, Fits, ShardStart, HcetOutcome;
    var pending := set w | w in ws;
    while pending != {}
      invariant forall w :: w in pending ==> w in ws
      invariant forall i :: 0 <= i < |ws| && ws[i] !in pending ==> Completed(g, q, lim, switchDepth, ws[i])
      decreases |pending|
    {
      var w :| w in pending;
      var i :| 0 <= i < |ws| && ws[i] == w;
      RunWorker(g, q, lim, switchDepth, w);
      pending := pending - {w};
    }
  }

  /** Copies one worker's results behind those already merged, as far as the table allows. */
  method MergeWorker(g: Graph, q: Query, lim: Limits, switchDepth: nat, w: Worker, out: ResultBuf, stats: ExecStats)
    requires out.Valid(lim) && Completed(g, q, lim, switchDepth, w)
    requires w.out != out && w.out.paths != out.paths && w.stats != stats
    modifies out, out.paths, stats
    ensures out.Valid(lim)
    ensures View(out, stats) ==
      MergeOne(lim, old(View(out, stats)), HcetOutcome(g, q, lim, switchDepth, w.begin, w.end))
  {
    hide HcetOutcome;
    ghost var ps := w.out.Contents();
    stats.Merge(w.stats);
    ghost var o := View(out, stats);
    for i := 0 to w.out.count
      invariant out.Valid(lim) && w.out.Contents() == ps
      invariant MergePaths(lim, View(out, stats), ps[i..]) == MergePaths(lim, o, ps)
    {
      assert w.out.paths[i] == ps[i] && ps[i..][1..] == ps[i + 1..];
      var p := w.out.paths[i];
      if out.count >= lim.maxPaths || |p| > lim.maxPathLen {
        stats.TruncatePath();
      } else {
        ghost var before := out.Contents();
        out.paths[out.count] := p;
        out.count := out.count + 1;
        assert out.Contents() == before + [p];
      }
    }
  }

  /** Merges the workers in order, whatever order they ran in. */
  method MergeResults(g: Graph, q: Query, lim: Limits, switchDepth: nat, k: nat, ws: seq<Worker>, out: ResultBuf, stats: ExecStats)
    requires out.paths.Length == lim.maxPaths && 0 < k == |ws| && Dealt(g, lim, k, ws)
    requires forall i :: 0 <= i < |ws| ==> Completed(g, q, lim, switchDepth, ws[i])
    requires forall i :: 0 <= i < |ws| ==> ws[i].out != out && ws[i].out.paths != out.paths && ws[i].stats != stats
    modifies out, out.paths, stats
    ensures out.Valid(lim) && View(out, stats) == ParallelOutcome(g, q, lim, switchDepth, k)
  {
    hide Completed, HcetOutcome, MergeOne, ShardStart;
    Reset(out, stats);
    for i := 0 to k
      invariant out.Valid(lim) && forall j :: 0 <= j < |ws| ==> Completed(g, q, lim, switchDepth, ws[j])
      invariant View(out, stats) == Merged(g, q, lim, switchDepth, k, i)
    {
      MergeWorker(g, q, lim, switchDepth, ws[i], out, stats);
    }
    stats.counts := stats.counts.(pathsEmitted := out.count);
  }

  /** Sharded H-CET on up to `requested` threads. */
  method HcetParallel(g: Graph, q: Query, lim: Limits, switchDepth: nat, requested: nat, out: ResultBuf, stats: ExecStats)
    returns (ok: bool)
    requires Fits(g, lim) && out.paths.Length == lim.maxPaths
    modifies out, out.paths, stats
    ensures out.Valid(lim) && ok == (q.steps != [])
    ensures View(out, stats) ==
      var k := Threads(|g.vertices|, requested);
      if q.steps == [] then Fresh
      else if k <= 1 then HcetOutcome(g, q, lim, switchDepth, 0, |g.vertices|)
      else ParallelOutcome(g, q, lim, switchDepth, k)
  {
    hide HcetOutcome, Merged, Completed;
    Reset(out, stats);
    if |q.steps| == 0 { return false; }
    ok := true;
    var k := if requested == 0 then 1 else requested;
    if k > MAX_NATIVE_THREADS { k := MAX_NATIVE_THREADS; }
    if |g.vertices| > 0 && k > |g.vertices| { k := |g.vertices|; }
    if k <= 1 {
      Hcet(g, q, lim, switchDepth, 0, |g.vertices|, out, stats);
      return;
    }
    var ws, bufs := DealShards(g, lim, k);
    RunWorkers(g, q, lim, switchDepth, k, ws, bufs);
    MergeResults(g, q, lim, switchDepth, k, ws, out, stats);
  }

  // ---- The schedule and the number of threads do not matter ----

  lemma {:induction false} MergePathsFit(lim: Limits, o: Outcome, ps: seq<seq<int>>)
    requires |o.paths| + |ps| <= lim.maxPaths && forall i :: 0 <= i < |ps| ==> |ps[i]| <= lim.maxPathLen
    ensures MergePaths(lim, o, ps) == o.(paths := o.paths + ps)
    decreases |ps|
  {
    if ps == [] {
      assert o.paths + ps == o.paths;
    } else {
      assert o.paths + ps == (o.paths + [ps[0]]) + ps[1..];
      MergePathsFit(lim, o.(paths := o.paths + [ps[0]]), ps[1..]);
    }
  }

  function OriginIn(s: seq<Run>, from: nat, to: nat): seq<Run> {
    if s == [] then []
    else OriginIn(s[..|s| - 1], from, to) + if from <= Origin(s[|s| - 1]) < to then [s[|s| - 1]] else []
  }

  lemma {:induction false} OriginInMembers(s: seq<Run>, from: nat, to: nat, r: Run)
    ensures r in OriginIn(s, from, to) <==> r in s && from <= Origin(r) < to
  {
    if s != [] {
      OriginInMembers(s[..|s| - 1], from, to, r);
      assert s == s[..|s| - 1] + [s[|s| - 1]];
    }
  }

  lemma {:induction false} OriginInDistinct(s: seq<Run>, from: nat, to: nat)
    requires Distinct(s)
    ensures Distinct(OriginIn(s, from, to))
  {
    if s != [] {
      var t, r := s[..|s| - 1], s[|s| - 1];
      OriginInDistinct(t, from, to);
      OriginInMembers(t, from, to, r);
      assert r !in t;
      DistinctAppend(OriginIn(t, from, to), [r]);
    }
  }

  /** The runs of a shard are among the runs of the whole graph. */
  lemma ShardRuns(g: Graph, q: Query, d: nat, lo: nat, hi: nat, from: nat, to: nat, s: seq<Run>) returns (e: seq<Run>)
    requires ListsHybrid(g, q, d, lo, hi, s) && lo <= from && to <= hi
    ensures ListsHybrid(g, q, d, from, to, e) && (forall r :: r in e ==> r in s)
    ensures |e| <= |s| && |Finished(q, e)| <= |Finished(q, s)| && Deepest(e) <= Deepest(s)
  {
    e := OriginIn(s, from, to);
    OriginInDistinct(s, from, to);
    forall r ensures r in e <==> r in s && from <= Origin(r) < to {
      OriginInMembers(s, from, to, r);
    }
    assert Within(e, s);
    Pigeonhole(e, s);
    FinishedWithin(q, e, s);
    forall r | r in e ensures Len(r) <= Deepest(s) {
      var i :| 0 <= i < |s| && s[i] == r;
      DeepestCovers(s, i);
    }
    DeepestWithin(e, Deepest(s));
  }

  lemma QueueSufficesShard(g: Graph, q: Query, lim: Limits, lo: nat, hi: nat, from: nat, to: nat)
    requires QueueSuffices(g, q, lim, lo, hi) && lo <= from && to <= hi
    ensures QueueSuffices(g, q, lim, from, to)
  {
    var s :| Enumerates(g, q, lo, hi, s) && |s| <= lim.maxPaths && Deepest(s) <= lim.maxPathLen;
    var e := ShardRuns(g, q, 0, lo, hi, from, to, s);
  }

  lemma LateSufficesShard(g: Graph, q: Query, lim: Limits, n: nat, lo: nat, hi: nat, from: nat, to: nat)
    requires LateSuffices(g, q, lim, n, lo, hi) && lo <= from && to <= hi
    ensures LateSuffices(g, q, lim, n, from, to)
  {
    var s :| ListsHybrid(g, q, n, lo, hi, s) && |Finished(q, s)| <= lim.maxPaths
        && forall r :: r in s && Idx(r) >= n ==> Len(r) < lim.maxPathLen;
    var e := ShardRuns(g, q, n, lo, hi, from, to, s);
  }

  /** If the whole search fits, so does every shard's. */
  lemma ShardFits(g: Graph, q: Query, lim: Limits, switchDepth: nat, k: nat, i: nat)
    requires |q.steps| > 0 && lim.maxPathLen >= 1 && i < k
    requires !HcetOutcome(g, q, lim, switchDepth, 0, |g.vertices|).c.overflow
    ensures !ShardOutcome(g, q, lim, switchDepth, k, i).c.overflow
  {
    var n := |g.vertices|;
    HcetOverflowExact(g, q, lim, switchDepth, 0, n);
    ShardsCover(n, k);
    ShardsOrdered(n, k, i, i + 1);
    var from, to := ShardStart(n, k, i), ShardStart(n, k, i + 1);
    HcetOverflowExact(g, q, lim, switchDepth, from, to);
    if switchDepth <= 1 || switchDepth >= |q.steps| {
      QueueSufficesShard(g, q, lim, 0, n, from, to);
    } else {
      QueueSufficesShard(g, Prefix(q, switchDepth), lim, 0, n, from, to);
      LateSufficesShard(g, q, lim, switchDepth, 0, n, from, to);
    }
  }

  lemma JoinShards(g: Graph, q: Query, d: nat, lo: nat, mid: nat, hi: nat, a: seq<Run>, b: seq<Run>)
    requires lo <= mid <= hi && ListsHybrid(g, q, d, lo, mid, a) && ListsHybrid(g, q, d, mid, hi, b)
    ensures ListsHybrid(g, q, d, lo, hi, a + b)
    ensures multiset(Paths(Finished(q, a + b))) == multiset(Paths(Finished(q, a))) + multiset(Paths(Finished(q, b)))
    ensures |Finished(q, a + b)| == |Finished(q, a)| + |Finished(q, b)|
    ensures QueueRejects(g, q, a + b) == QueueRejects(g, q, a).Plus(QueueRejects(g, q, b))
    ensures Deepest(a + b) == Max(Deepest(a), Deepest(b))
  {
    forall x | x in a ensures x !in b {}
    DistinctAppend(a, b);
    TallyAppend(g, q, a, b);
    TallyParts(g, q, a);
    TallyParts(g, q, b);
    TallyParts(g, q, a + b);
    assert |multiset(Paths(Finished(q, a + b)))| == |Finished(q, a + b)|;
  }

  lemma JoinPhases(g: Graph, p: Query, lo: nat, mid: nat, hi: nat, a: seq<Run>, b: seq<Run>)
    requires lo <= mid <= hi && Enumerates(g, p, lo, mid, a) && Enumerates(g, p, mid, hi, b)
    ensures Enumerates(g, p, lo, hi, a + b) && |Finished(p, a + b)| == |Finished(p, a)| + |Finished(p, b)|
  {
    JoinShards(g, p, 0, lo, mid, hi, a, b);
  }

  /** o is what a search that loses nothing reports about the runs s, whose first phase ran through sp. */
  ghost predicate ReportsBoth(g: Graph, q: Query, switchDepth: nat, from: nat, to: nat, s: seq<Run>, sp: seq<Run>, o: Outcome) {
    && ListsHybrid(g, q, switchDepth, from, to, s) && PhaseOne(g, q, switchDepth, from, to, sp, o)
    && multiset(o.paths) == multiset(Paths(Finished(q, s)))
    && o.c.pathsTruncated == 0 && o.c.statesTruncated == 0 && !o.c.overflow
    && o.c.rejects == QueueRejects(g, q, s) && o.c.maxDepth == Deepest(s)
  }

  lemma ReportsBothSize(g: Graph, q: Query, switchDepth: nat, from: nat, to: nat, s: seq<Run>, sp: seq<Run>, o: Outcome)
    requires ReportsBoth(g, q, switchDepth, from, to, s, sp, o)
    ensures |o.paths| == |Finished(q, s)|
  {
    assert |multiset(o.paths)| == |o.paths| && |multiset(Paths(Finished(q, s)))| == |Finished(q, s)|;
  }

  lemma ShardComplete(g: Graph, q: Query, lim: Limits, switchDepth: nat, k: nat, i: nat) returns (s: seq<Run>, sp: seq<Run>)
    requires |q.steps| > 0 && lim.maxPathLen >= 1 && i < k
    requires !HcetOutcome(g, q, lim, switchDepth, 0, |g.vertices|).c.overflow
    ensures ReportsBoth(g, q, switchDepth, ShardStart(|g.vertices|, k, i), ShardStart(|g.vertices|, k, i + 1), s, sp,
                        ShardOutcome(g, q, lim, switchDepth, k, i))
  {
    hide HcetOutcome, ShardStart, ListsHybrid, PhaseOne, Enumerates, SeedsResolve, Finished, Paths, QueueRejects, Deepest;
    ShardFits(g, q, lim, switchDepth, k, i);
    ShardsCover(|g.vertices|, k);
    ShardsOrdered(|g.vertices|, k, i, i + 1);
    s, sp := HcetComplete(g, q, lim, switchDepth, ShardStart(|g.vertices|, k, i), ShardStart(|g.vertices|, k, i + 1));
  }

  /** Merging two complete neighbouring searches that fit the table together is a complete search. */
  lemma MergeReports(g: Graph, q: Query, lim: Limits, switchDepth: nat, lo: nat, mid: nat, hi: nat,
                                        s: seq<Run>, sp: seq<Run>, o: Outcome, t: seq<Run>, tp: seq<Run>, w: Outcome)
    requires |q.steps| > 0 && lo <= mid <= hi
    requires ReportsBoth(g, q, switchDepth, lo, mid, s, sp, o) && ReportsBoth(g, q, switchDepth, mid, hi, t, tp, w)
    requires |o.paths| + |w.paths| <= lim.maxPaths && forall i :: 0 <= i < |w.paths| ==> |w.paths[i]| <= lim.maxPathLen
    ensures ReportsBoth(g, q, switchDepth, lo, hi, s + t, sp + tp, MergeOne(lim, o, w))
  {
    hide Finished, Paths, QueueRejects, Deepest, PhaseQuery, ListsHybrid, MergePaths, MergePath;
    var p := PhaseQuery(q, switchDepth);
    MergePathsFit(lim, Outcome(o.paths, MergeCounters(o.c, w.c)), w.paths);
    JoinShards(g, q, switchDepth, lo, mid, hi, s, t);
    JoinPhases(g, p, lo, mid, hi, sp, tp);
  }

  lemma PathsShort(g: Graph, q: Query, lim: Limits, switchDepth: nat, from: nat, to: nat, s: seq<Run>, sp: seq<Run>, o: Outcome)
    requires ReportsBoth(g, q, switchDepth, from, to, s, sp, o) && Deepest(s) <= lim.maxPathLen
    ensures forall i :: 0 <= i < |o.paths| ==> |o.paths[i]| <= lim.maxPathLen
  {
    var done := Finished(q, s);
    forall i | 0 <= i < |o.paths| ensures |o.paths[i]| <= lim.maxPathLen {
      assert o.paths[i] in multiset(Paths(done));
      var j :| 0 <= j < |done| && Paths(done)[j] == o.paths[i];
      PathsAt(done, j);
      FinishedMembers(q, s, done[j]);
      var k :| 0 <= k < |s| && s[k] == done[j];
      DeepestCovers(s, k);
    }
  }

  lemma {:induction false} MergedComplete(g: Graph, q: Query, lim: Limits, switchDepth: nat, k: nat, i: nat, whole: seq<Run>)
    returns (s: seq<Run>, sp: seq<Run>)
    requires |q.steps| > 0 && lim.maxPathLen >= 1 && i <= k && 0 < k
    requires !HcetOutcome(g, q, lim, switchDepth, 0, |g.vertices|).c.overflow
    requires ListsHybrid(g, q, switchDepth, 0, |g.vertices|, whole) && |Finished(q, whole)| <= lim.maxPaths && Deepest(whole) <= lim.maxPathLen
    ensures ReportsBoth(g, q, switchDepth, 0, ShardStart(|g.vertices|, k, i), s, sp, Merged(g, q, lim, switchDepth, k, i))
  {
    var n := |g.vertices|;
    ShardsCover(n, k);
    if i == 0 {
      s, sp := [], [];
    } else {
      ShardsOrdered(n, k, i - 1, i);
      var mid, hi := ShardStart(n, k, i - 1), ShardStart(n, k, i);
      var a, ap := MergedComplete(g, q, lim, switchDepth, k, i - 1, whole);
      var b, bp := ShardComplete(g, q, lim, switchDepth, k, i - 1);
      s, sp := a + b, ap + bp;
      var o, w := Merged(g, q, lim, switchDepth, k, i - 1), ShardOutcome(g, q, lim, switchDepth, k, i - 1);
      ReportsFit(g, q, lim, switchDepth, mid, hi, n, a, ap, o, b, bp, w, whole);
      MergeReports(g, q, lim, switchDepth, 0, mid, hi, a, ap, o, b, bp, w);
    }
  }

  lemma ReportsFit(g: Graph, q: Query, lim: Limits, switchDepth: nat, mid: nat, hi: nat, n: nat,
                                      a: seq<Run>, ap: seq<Run>, o: Outcome, b: seq<Run>, bp: seq<Run>, w: Outcome, whole: seq<Run>)
    requires mid <= hi <= n && ListsHybrid(g, q, switchDepth, 0, n, whole) && |Finished(q, whole)| <= lim.maxPaths && Deepest(whole) <= lim.maxPathLen
    requires ReportsBoth(g, q, switchDepth, 0, mid, a, ap, o) && ReportsBoth(g, q, switchDepth, mid, hi, b, bp, w)
    ensures |o.paths| + |w.paths| <= lim.maxPaths && forall i :: 0 <= i < |w.paths| ==> |w.paths[i]| <= lim.maxPathLen
  {
    hide Finished, Paths, QueueRejects, Deepest, PhaseQuery, Enumerates, ListsHybrid;
    JoinFits(g, q, switchDepth, mid, hi, n, a, b, whole);
    ReportsBothSize(g, q, switchDepth, 0, mid, a, ap, o);
    ReportsBothSize(g, q, switchDepth, mid, hi, b, bp, w);
    PathsShort(g, q, lim, switchDepth, mid, hi, b, bp, w);
  }

  lemma {:induction false} JoinFits(g: Graph, q: Query, d: nat, mid: nat, hi: nat, n: nat, a: seq<Run>, b: seq<Run>, whole: seq<Run>)
    requires mid <= hi <= n && ListsHybrid(g, q, d, 0, n, whole)
    requires ListsHybrid(g, q, d, 0, mid, a) && ListsHybrid(g, q, d, mid, hi, b)
    ensures |Finished(q, a)| + |Finished(q, b)| <= |Finished(q, whole)| && Deepest(b) <= Deepest(whole)
  {
    JoinShards(g, q, d, 0, mid, hi, a, b);
    forall r | r in a + b ensures r in whole {}
    FinishedWithin(q, a + b, whole);
    DeepestInside(b, whole);
  }

  lemma DeepestInside(a: seq<Run>, s: seq<Run>)
    requires forall r :: r in a ==> r in s
    ensures Deepest(a) <= Deepest(s)
  {
    forall r | r in a ensures Len(r) <= Deepest(s) {
      var i :| 0 <= i < |s| && s[i] == r;
      DeepestCovers(s, i);
    }
    DeepestWithin(a, Deepest(s));
  }

  /** Whatever the number of workers, if sequential H-CET loses nothing then neither does the
      parallel run, and the two report the same paths and counters. */
  lemma ParallelEqualsSequential(g: Graph, q: Query, lim: Limits, switchDepth: nat, k: nat)
    requires 0 < k && lim.maxPathLen >= 1 && |q.steps| > 0
    requires !HcetOutcome(g, q, lim, switchDepth, 0, |g.vertices|).c.overflow
    ensures var h, p := HcetOutcome(g, q, lim, switchDepth, 0, |g.vertices|), ParallelOutcome(g, q, lim, switchDepth, k);
      multiset(p.paths) == multiset(h.paths) && p.c == h.c
  {
    var n := |g.vertices|;
    var h, m := HcetOutcome(g, q, lim, switchDepth, 0, n), Merged(g, q, lim, switchDepth, k, k);
    var s, sp := HcetComplete(g, q, lim, switchDepth, 0, n);
    ResultsFit(g, q, lim, switchDepth, s);
    ShardsCover(n, k);
    var t, tp := MergedComplete(g, q, lim, switchDepth, k, k, s);
    SameReports(g, q, switchDepth, n, s, sp, h, t, tp, m);
  }

  lemma SameReports(g: Graph, q: Query, switchDepth: nat, n: nat,
                                       s: seq<Run>, sp: seq<Run>, o: Outcome, t: seq<Run>, tp: seq<Run>, w: Outcome)
    requires ReportsBoth(g, q, switchDepth, 0, n, s, sp, o) && ReportsBoth(g, q, switchDepth, 0, n, t, tp, w)
    ensures multiset(o.paths) == multiset(w.paths) && |o.paths| == |w.paths|
    ensures o.c == w.c.(pathsEmitted := o.c.pathsEmitted)
  {
    SameAccount(g, q, switchDepth, n, s, t);
    SameAccount(g, PhaseQuery(q, switchDepth), 0, n, sp, tp);
    ReportsBothSize(g, q, switchDepth, 0, n, s, sp, o);
    ReportsBothSize(g, q, switchDepth, 0, n, t, tp, w);
  }

  lemma SameAccount(g: Graph, q: Query, d: nat, n: nat, s: seq<Run>, t: seq<Run>)
    requires ListsHybrid(g, q, d, 0, n, s) && ListsHybrid(g, q, d, 0, n, t)
    ensures |s| == |t| && multiset(Paths(Finished(q, s))) == multiset(Paths(Finished(q, t)))
    ensures |Finished(q, s)| == |Finished(q, t)| && QueueRejects(g, q, s) == QueueRejects(g, q, t) && Deepest(s) == Deepest(t)
  {
    SameRunsSameTally(g, q, s, t);
    TallyParts(g, q, s);
    TallyParts(g, q, t);
    assert |multiset(Paths(Finished(q, s)))| == |Finished(q, s)| && |multiset(Paths(Finished(q, t)))| == |Finished(q, t)|;
  }

  lemma ResultsFit(g: Graph, q: Query, lim: Limits, switchDepth: nat, s: seq<Run>)
    requires |q.steps| > 0 && lim.maxPathLen >= 1 && ListsHybrid(g, q, switchDepth, 0, |g.vertices|, s)
    requires !HcetOutcome(g, q, lim, switchDepth, 0, |g.vertices|).c.overflow
    ensures |Finished(q, s)| <= lim.maxPaths && Deepest(s) <= lim.maxPathLen
  {
    HcetOverflowExact(g, q, lim, switchDepth, 0, |g.vertices|);
    if switchDepth <= 1 || switchDepth >= |q.steps| {
      QueueFits(g, q, lim, |g.vertices|, s);
    } else {
      LateFits(g, q, lim, switchDepth, |g.vertices|, s);
    }
  }

  lemma QueueFits(g: Graph, q: Query, lim: Limits, n: nat, s: seq<Run>)
    requires QueueSuffices(g, q, lim, 0, n) && Enumerates(g, q, 0, n, s)
    ensures |Finished(q, s)| <= lim.maxPaths && Deepest(s) <= lim.maxPathLen
  {
    var e :| Enumerates(g, q, 0, n, e) && |e| <= lim.maxPaths && Deepest(e) <= lim.maxPathLen;
    assert Within(s, e);
    FinishedWithin(q, s, e);
    FinishedShort(q, e);
    DeepestInside(s, e);
  }

  lemma LateFits(g: Graph, q: Query, lim: Limits, m: nat, n: nat, s: seq<Run>)
    requires 1 < m < |q.steps| && ListsHybrid(g, q, m, 0, n, s)
    requires QueueSuffices(g, Prefix(q, m), lim, 0, n) && LateSuffices(g, q, lim, m, 0, n)
    ensures |Finished(q, s)| <= lim.maxPaths && Deepest(s) <= lim.maxPathLen
  {
    var p := Prefix(q, m);
    var e :| ListsHybrid(g, q, m, 0, n, e) && |Finished(q, e)| <= lim.maxPaths
      && forall r :: r in e && Idx(r) >= m ==> Len(r) < lim.maxPathLen;
    assert Within(s, e);
    FinishedWithin(q, s, e);
    var ep :| Enumerates(g, p, 0, n, ep) && |ep| <= lim.maxPaths && Deepest(ep) <= lim.maxPathLen;
    forall r | r in s ensures Len(r) <= lim.maxPathLen {
      if Idx(r) < m {
        ShortEarly(g, q, m, n, r);
        var i :| 0 <= i < |ep| && ep[i] == r;
        DeepestCovers(ep, i);
      }
    }
    DeepestWithin(s, lim.maxPathLen);
  }

  lemma ShortEarly(g: Graph, q: Query, m: nat, n: nat, r: Run)
    requires 1 < m < |q.steps| && HybridInShard(g, q, m, 0, n, r) && Idx(r) < m
    ensures InShard(g, Prefix(q, m), 0, n, r)
  {
    EarlyIsPartial(g, q, m, r);
    PrefixPartial(g, q, m, r);
  }
}
