/** Workers as interleaved processes.  A step of a worker is one round of one of its loops: queueing
    its start states, popping one state, searching one seed.  A schedule is any sequence of worker
    numbers; whatever it is, every worker ends with the outcome of running alone. */
module Interleaving {
  import opened TrendGraph
  import opened SearchSpec
  import opened BreadthFirst
  import opened Engines
  import opened HybridTheorems
  import opened Parallel

  datatype Phase =
    | Waiting
    | Queueing(trace: Trace, head: nat)
    | Searching(seeds: seq<Run>, soFar: Outcome)
    | Done(out: Outcome)

  datatype Job = Job(begin: nat, end: nat, phase: Phase)

  /** The fixed inputs all workers read. */
  datatype Input = Input(g: Graph, q: Query, lim: Limits, switchDepth: nat)

  predicate Valid(inp: Input, j: Job) {
    match j.phase
    case Queueing(t, head) => |t.queue| <= inp.lim.maxPaths && head <= |t.queue| && inp.q.steps != []
    case Searching(seeds, _) => |seeds| <= inp.lim.maxPaths && inp.q.steps != []
    case _ => true
  }

  function AfterSeed(inp: Input, o: Outcome, r: Run): Outcome {
    if SwitchLen(inp.q, inp.switchDepth) == |inp.q.steps| then Emit(inp.lim, o, Path(r))
    else AfterAll(inp.g, inp.q, inp.lim, o, Visit(inp.g, inp.q, inp.lim, Rebase(inp.g, r)))
  }

  function Advanced(inp: Input, j: Job): Phase
    requires Valid(inp, j)
  {
    var p := PhaseQuery(inp.q, inp.switchDepth);
    match j.phase
    case Waiting =>
      if inp.q.steps == [] then Done(Fresh)
      else Queueing(PushStarts(inp.g, p, inp.lim, Trace([], []), Clamp(j.begin, |inp.g.vertices|), Clamp(j.end, |inp.g.vertices|)), 0)
    case Queueing(t, head) =>
      if head < |t.queue| then Queueing(BfsPop(inp.g, p, inp.lim, t, t.queue[head]), head + 1)
      else if inp.switchDepth <= 1 then Done(TraceOutcome(inp.g, inp.q, t))
      else Searching(Finished(p, t.queue), SeedOutcome(TraceOutcome(inp.g, p, t)))
    case Searching(seeds, o) =>
      if seeds == [] then Done(o) else Searching(seeds[1..], AfterSeed(inp, o, seeds[0]))
    case Done(_) => j.phase
  }

  // ---- What a job is going to produce ----

  function AfterSeeds(inp: Input, o: Outcome, seeds: seq<Run>): Outcome
    decreases |seeds|
  {
    if seeds == [] then o else AfterSeeds(inp, AfterSeed(inp, o, seeds[0]), seeds[1..])
  }

  function AfterQueue(inp: Input, t: Trace): Outcome {
    var p := PhaseQuery(inp.q, inp.switchDepth);
    if inp.switchDepth <= 1 then TraceOutcome(inp.g, inp.q, t)
    else AfterSeeds(inp, SeedOutcome(TraceOutcome(inp.g, p, t)), Finished(p, t.queue))
  }

  function Promised(inp: Input, j: Job): Outcome
    requires Valid(inp, j)
  {
    match j.phase
    case Waiting => HcetOutcome(inp.g, inp.q, inp.lim, inp.switchDepth, j.begin, j.end)
    case Queueing(t, head) => AfterQueue(inp, BfsFrom(inp.g, PhaseQuery(inp.q, inp.switchDepth), inp.lim, t, head))
    case Searching(seeds, o) => AfterSeeds(inp, o, seeds)
    case Done(o) => o
  }

  lemma RebasedHead(g: Graph, s: seq<Run>)
    requires s != []
    ensures Rebased(g, s)[0] == Rebase(g, s[0]) && Rebased(g, s)[1..] == Rebased(g, s[1..])
  {
    var a, b := Rebased(g, s)[1..], Rebased(g, s[1..]);
    assert forall i :: 0 <= i < |a| ==> a[i] == b[i];
  }

  lemma {:induction false} AfterSeedsSearch(inp: Input, o: Outcome, seeds: seq<Run>)
    requires SwitchLen(inp.q, inp.switchDepth) != |inp.q.steps|
    ensures AfterSeeds(inp, o, seeds) == AfterAll(inp.g, inp.q, inp.lim, o, VisitRoots(inp.g, inp.q, inp.lim, Rebased(inp.g, seeds)))
    decreases |seeds|
  {
    if seeds != [] {
      RebasedHead(inp.g, seeds);
      FirstRootLeft(inp.g, inp.q, inp.lim, o, Rebased(inp.g, seeds));
      AfterSeedsSearch(inp, AfterSeed(inp, o, seeds[0]), seeds[1..]);
    }
  }

  lemma {:induction false} AfterSeedsEmit(inp: Input, o: Outcome, seeds: seq<Run>)
    requires SwitchLen(inp.q, inp.switchDepth) == |inp.q.steps|
    ensures AfterSeeds(inp, o, seeds) == EmitAll(inp.lim, o, Paths(seeds))
    decreases |seeds|
  {
    if seeds != [] {
      PathsHead(seeds);
      var rest := Paths(seeds[1..]);
      assert ([Path(seeds[0])] + rest)[1..] == rest;
      AfterSeedsEmit(inp, AfterSeed(inp, o, seeds[0]), seeds[1..]);
    }
  }

  lemma WaitingPromise(inp: Input, begin: nat, end: nat)
    requires inp.q.steps != []
    ensures HcetOutcome(inp.g, inp.q, inp.lim, inp.switchDepth, begin, end) ==
      AfterQueue(inp, TcetTrace(inp.g, PhaseQuery(inp.q, inp.switchDepth), inp.lim, begin, end))
  {
    var q, p := inp.q, PhaseQuery(inp.q, inp.switchDepth);
    if inp.switchDepth <= 1 {
      assert q.steps[..|q.steps|] == q.steps;
      assert p == q;
    } else {
      var o := SeedOutcome(TcetOutcome(inp.g, p, inp.lim, begin, end));
      var seeds := Finished(p, TcetTrace(inp.g, p, inp.lim, begin, end).queue);
      if SwitchLen(q, inp.switchDepth) == |q.steps| {
        AfterSeedsEmit(inp, o, seeds);
      } else {
        AfterSeedsSearch(inp, o, seeds);
      }
    }
  }

  /** A step changes neither what the job will produce nor its shard, and brings it closer to done. */
  lemma StepKeepsPromise(inp: Input, j: Job)
    requires Valid(inp, j)
    ensures var j' := j.(phase := Advanced(inp, j));
      Valid(inp, j') && Promised(inp, j') == Promised(inp, j) && (!j.phase.Done? ==> Left(inp, j') < Left(inp, j))
  {
    var p := PhaseQuery(inp.q, inp.switchDepth);
    match j.phase {
      case Waiting =>
        if inp.q.steps != [] { WaitingPromise(inp, j.begin, j.end); }
      case Queueing(t, head) =>
        FinishedShort(p, t.queue);
        if head < |t.queue| { PopGrows(inp, t, head); }
      case Searching(seeds, o) =>
      case Done(_) =>
    }
  }

  lemma PopGrows(inp: Input, t: Trace, head: nat)
    requires |t.queue| <= inp.lim.maxPaths && head < |t.queue|
    ensures |t.queue| <= |BfsPop(inp.g, PhaseQuery(inp.q, inp.switchDepth), inp.lim, t, t.queue[head]).queue|
  {
    var p, r := PhaseQuery(inp.q, inp.switchDepth), t.queue[head];
    if Idx(r) < |p.steps| { EdgesGrow(inp.g, p, inp.lim, t, r, Out(inp.g, r)); }
  }

  lemma {:induction false} EdgesGrow(g: Graph, q: Query, lim: Limits, t: Trace, r: Run, es: seq<nat>)
    requires |t.queue| <= lim.maxPaths && InRange(es, |g.edges|) && Idx(r) < |q.steps|
    ensures |t.queue| <= |BfsEdges(g, q, lim, t, r, es).queue|
    decreases |es|
  {
    if es != [] {
      ChildrenGrow(lim, t, EdgeChildren(g, q, r, es[0]));
      EdgesGrow(g, q, lim, BfsEdge(g, q, lim, t, r, es[0]), r, es[1..]);
    }
  }

  lemma {:induction false} ChildrenGrow(lim: Limits, t: Trace, cs: seq<Run>)
    requires |t.queue| <= lim.maxPaths
    ensures |t.queue| <= |PushAll(lim, t, cs).queue|
    decreases |cs|
  {
    if cs != [] { ChildrenGrow(lim, Push(lim, t, cs[0]), cs[1..]); }
  }

  /** A bound on the steps a job still needs. */
  function Left(inp: Input, j: Job): nat
    requires Valid(inp, j)
  {
    match j.phase
    case Waiting => 2 * inp.lim.maxPaths + 4
    case Queueing(_, head) => inp.lim.maxPaths - head + inp.lim.maxPaths + 3
    case Searching(seeds, _) => |seeds| + 1
    case Done(_) => 0
  }

  // ---- Schedules ----

  ghost predicate AllValid(inp: Input, js: seq<Job>) {
    forall i :: 0 <= i < |js| ==> Valid(inp, js[i])
  }

  /** Lets worker i make one step; the others are not touched. */
  function StepOf(inp: Input, js: seq<Job>, i: nat): (js': seq<Job>)
    requires i < |js| && Valid(inp, js[i])
  {
    js[i := js[i].(phase := Advanced(inp, js[i]))]
  }

  ghost predicate Leads(inp: Input, js: seq<Job>, schedule: seq<nat>, js': seq<Job>)
    requires AllValid(inp, js)
    decreases |schedule|
  {
    if schedule == [] then js' == js
    else schedule[0] < |js| && Leads(inp, Kept(inp, js, schedule[0]), schedule[1..], js')
  }

  /** StepOf, known to keep all jobs valid. */
  ghost function Kept(inp: Input, js: seq<Job>, i: nat): (js': seq<Job>)
    requires i < |js| && AllValid(inp, js)
    ensures AllValid(inp, js')
  {
    StepKeepsPromise(inp, js[i]);
    StepOf(inp, js, i)
  }

  function Turns(schedule: seq<nat>, i: nat): nat {
    if schedule == [] then 0 else (if schedule[0] == i then 1 else 0) + Turns(schedule[1..], i)
  }

  /** Whatever the schedule, each worker keeps its promise, and has finished once it has had
      enough turns. */
  lemma {:induction false} ScheduleKeepsPromises(inp: Input, js: seq<Job>, schedule: seq<nat>, js': seq<Job>)
    requires AllValid(inp, js) && Leads(inp, js, schedule, js')
    ensures AllValid(inp, js') && |js'| == |js|
    ensures forall i :: 0 <= i < |js| ==> Promised(inp, js'[i]) == Promised(inp, js[i])
    ensures forall i :: 0 <= i < |js| ==> Left(inp, js'[i]) == 0 || Left(inp, js'[i]) + Turns(schedule, i) <= Left(inp, js[i])
    decreases |schedule|
  {
    if schedule != [] {
      var k := schedule[0];
      StepKeepsPromise(inp, js[k]);
      ScheduleKeepsPromises(inp, Kept(inp, js, k), schedule[1..], js');
    }
  }

  ghost predicate ShardJobs(inp: Input, js: seq<Job>) {
    |js| > 0 && forall i :: 0 <= i < |js| ==>
      && js[i].phase == Waiting
      && js[i].begin == ShardStart(|inp.g.vertices|, |js|, i)
      && js[i].end == ShardStart(|inp.g.vertices|, |js|, i + 1)
  }

  /** The merge of the first i finished jobs, in worker order. */
  function MergeJobs(lim: Limits, js: seq<Job>, i: nat): Outcome
    requires i <= |js| && forall k :: 0 <= k < |js| ==> js[k].phase.Done?
  {
    if i == 0 then Fresh else MergeOne(lim, MergeJobs(lim, js, i - 1), js[i - 1].phase.out)
  }

  lemma {:induction false} MergeJobsExact(inp: Input, js: seq<Job>, i: nat)
    requires i <= |js| && 0 < |js| && forall k :: 0 <= k < |js| ==> js[k].phase.Done?
    requires forall k :: 0 <= k < |js| ==>
      js[k].phase.out == ShardOutcome(inp.g, inp.q, inp.lim, inp.switchDepth, |js|, k)
    ensures MergeJobs(inp.lim, js, i) == Merged(inp.g, inp.q, inp.lim, inp.switchDepth, |js|, i)
  {
    hide MergeOne, ShardOutcome;
    if i > 0 { MergeJobsExact(inp, js, i - 1); }
  }

  /** The merged outcome of the finished jobs, its emission count set to the size of the table. */
  function JobsOutcome(lim: Limits, js: seq<Job>): Outcome
    requires forall k :: 0 <= k < |js| ==> js[k].phase.Done?
  {
    var o := MergeJobs(lim, js, |js|);
    o.(c := o.c.(pathsEmitted := |o.paths|))
  }

  ghost predicate AllDone(js: seq<Job>) {
    forall i :: 0 <= i < |js| ==> js[i].phase.Done?
  }

  /** Under any interleaving in which every worker gets enough turns, all workers finish; and whenever
      they all have, the outcome is the one of the parallel run. */
  lemma AnySchedule(inp: Input, js: seq<Job>, schedule: seq<nat>, js': seq<Job>)
    requires ShardJobs(inp, js) && Leads(inp, js, schedule, js')
    ensures |js'| == |js|
    ensures (forall i :: 0 <= i < |js| ==> Turns(schedule, i) >= 2 * inp.lim.maxPaths + 4) ==> AllDone(js')
    ensures AllDone(js') ==> JobsOutcome(inp.lim, js') == ParallelOutcome(inp.g, inp.q, inp.lim, inp.switchDepth, |js|)
  {
    ScheduleKeepsPromises(inp, js, schedule, js');
    if AllDone(js') {
      hide HcetOutcome, ShardStart;
      forall k | 0 <= k < |js|
        ensures js'[k].phase.out == ShardOutcome(inp.g, inp.q, inp.lim, inp.switchDepth, |js|, k)
      {
        assert Promised(inp, js'[k]) == Promised(inp, js[k]);
      }
      MergeJobsExact(inp, js', |js'|);
    }
  }

  /** Whatever the schedule, once all workers have finished the paths and counters are those of
      sequential H-CET, if that one loses nothing. */
  lemma AnyScheduleIsSequential(inp: Input, js: seq<Job>, schedule: seq<nat>, js': seq<Job>)
    requires ShardJobs(inp, js) && Leads(inp, js, schedule, js') && AllDone(js')
    requires |inp.q.steps| > 0 && inp.lim.maxPathLen >= 1
    requires !HcetOutcome(inp.g, inp.q, inp.lim, inp.switchDepth, 0, |inp.g.vertices|).c.overflow
    ensures var h := HcetOutcome(inp.g, inp.q, inp.lim, inp.switchDepth, 0, |inp.g.vertices|);
      multiset(JobsOutcome(inp.lim, js').paths) == multiset(h.paths) && JobsOutcome(inp.lim, js').c == h.c
  {
    AnySchedule(inp, js, schedule, js');
    ParallelEqualsSequential(inp.g, inp.q, inp.lim, inp.switchDepth, |js|);
  }
}
