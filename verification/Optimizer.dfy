/** Choosing which graphlets to evaluate under a memory bound: branch and bound, and greedy. */
module Optimizer {
  datatype Graphlet = Graphlet(startMs: int, endMs: int, memory: real, cpu: real)

  /** 1e100, the cost that stands for no plan. */
  const NO_PLAN: real := 10000000000000000000000000000000000000000000000000000000000000000000000000000000000000000000000000000.0

  predicate NonNegative(gl: seq<Graphlet>) {
    forall i :: 0 <= i < |gl| ==> gl[i].memory >= 0.0 && gl[i].cpu >= 0.0
  }

  /** Totals over a set of graphlet positions. */
  function Memory(gl: seq<Graphlet>, s: set<nat>): real {
    if gl == [] then 0.0
    else Memory(gl[..|gl| - 1], s) + if |gl| - 1 in s then gl[|gl| - 1].memory else 0.0
  }

  function Cpu(gl: seq<Graphlet>, s: set<nat>): real {
    if gl == [] then 0.0
    else Cpu(gl[..|gl| - 1], s) + if |gl| - 1 in s then gl[|gl| - 1].cpu else 0.0
  }

  lemma {:induction false} TotalsOfNothing(gl: seq<Graphlet>)
    ensures Memory(gl, {}) == 0.0 && Cpu(gl, {}) == 0.0
  {
    if gl != [] { TotalsOfNothing(gl[..|gl| - 1]); }
  }

  lemma {:induction false} TotalsWith(gl: seq<Graphlet>, s: set<nat>, i: nat)
    requires i !in s
    ensures i < |gl| ==> Memory(gl, s + {i}) == Memory(gl, s) + gl[i].memory && Cpu(gl, s + {i}) == Cpu(gl, s) + gl[i].cpu
    ensures i >= |gl| ==> Memory(gl, s + {i}) == Memory(gl, s) && Cpu(gl, s + {i}) == Cpu(gl, s)
  {
    if gl != [] { TotalsWith(gl[..|gl| - 1], s, i); }
  }

  lemma {:induction false} TotalsGrow(gl: seq<Graphlet>, s: set<nat>, t: set<nat>)
    requires NonNegative(gl) && s <= t
    ensures Memory(gl, s) <= Memory(gl, t) && Cpu(gl, s) <= Cpu(gl, t)
  {
    if gl != [] {
      TotalsGrow(gl[..|gl| - 1], s, t);
    }
  }

  /** A plan: some of the graphlets, no more than a plan can list and within the memory bound. */
  predicate Feasible(gl: seq<Graphlet>, maxMem: real, cap: nat, s: set<nat>) {
    s != {} && |s| <= cap && (forall i :: i in s ==> i < |gl|) && Memory(gl, s) <= maxMem
  }

  function Members(p: seq<nat>): set<nat> { set i | i in p }

  ghost predicate NoRepeats(p: seq<nat>) {
    forall i, j :: 0 <= i < j < |p| ==> p[i] != p[j]
  }

  lemma MembersSnoc(p: seq<nat>, i: nat)
    ensures Members(p + [i]) == Members(p) + {i}
    ensures i !in Members(p) && NoRepeats(p) ==> NoRepeats(p + [i])
  {
    forall k | 0 <= k < |p| ensures p[k] in Members(p) {}
  }

  lemma {:induction false} MembersCount(p: seq<nat>)
    requires NoRepeats(p)
    ensures |Members(p)| == |p|
  {
    if p != [] {
      var q := p[..|p| - 1];
      MembersCount(q);
      assert p == q + [p[|p| - 1]];
      MembersSnoc(q, p[|p| - 1]);
    }
  }

  lemma {:induction false} Smaller(s: set<nat>, t: set<nat>)
    requires s <= t
    ensures |s| <= |t|
  {
    if s != {} {
      var i :| i in s;
      Smaller(s - {i}, t - {i});
    }
  }

  /** The plan a run of the planner builds up. */
  class Plan {
    const indices: array<nat>
    var count: nat
    var totalMemory: real
    var totalCpu: real

    constructor (cap: nat)
      ensures fresh(indices) && indices.Length == cap && count == 0 && totalMemory == 0.0 && totalCpu == 0.0
    {
      indices := new nat[cap];
      count, totalMemory, totalCpu := 0, 0.0, 0.0;
    }

    ghost function Chosen(): seq<nat>
      requires count <= indices.Length
      reads this, indices
    {
      indices[..count]
    }

    method Push(gl: seq<Graphlet>, i: nat)
      requires count < indices.Length && i < |gl|
      modifies this, indices
      ensures count == old(count) + 1 && Chosen() == old(Chosen()) + [i]
      ensures totalMemory == old(totalMemory) + gl[i].memory && totalCpu == old(totalCpu) + gl[i].cpu
    {
      indices[count] := i;
      count := count + 1;
      totalMemory, totalCpu := totalMemory + gl[i].memory, totalCpu + gl[i].cpu;
    }

    method Pop(gl: seq<Graphlet>, i: nat)
      requires 0 < count <= indices.Length && i < |gl|
      modifies this
      ensures count == old(count) - 1 && Chosen() == old(Chosen())[..count]
      ensures totalMemory == old(totalMemory) - gl[i].memory && totalCpu == old(totalCpu) - gl[i].cpu
    {
      count := count - 1;
      totalMemory, totalCpu := totalMemory - gl[i].memory, totalCpu - gl[i].cpu;
    }

    method CopyFrom(p: Plan)
      requires p.count <= p.indices.Length == indices.Length && p.indices != indices && p != this
      modifies this, indices
      ensures count == p.count && Chosen() == p.Chosen() && totalMemory == p.totalMemory && totalCpu == p.totalCpu
    {
      forall k | 0 <= k < indices.Length { indices[k] := p.indices[k]; }
      count, totalMemory, totalCpu := p.count, p.totalMemory, p.totalCpu;
    }

    method Clear()
      modifies this
      ensures count == 0 && totalMemory == 0.0 && totalCpu == 0.0
    {
      count, totalMemory, totalCpu := 0, 0.0, 0.0;
    }
  }

  /** The plan lists p, and its totals are right. */
  ghost predicate Holds(gl: seq<Graphlet>, p: seq<nat>, mem: real, cpu: real) {
    && NoRepeats(p) && (forall i :: i in p ==> i < |gl|)
    && mem == Memory(gl, Members(p)) && cpu == Cpu(gl, Members(p))
  }

  lemma HoldsSnoc(gl: seq<Graphlet>, p: seq<nat>, mem: real, cpu: real, i: nat)
    requires Holds(gl, p, mem, cpu) && i < |gl| && i !in p
    ensures Holds(gl, p + [i], mem + gl[i].memory, cpu + gl[i].cpu)
  {
    MembersSnoc(p, i);
    TotalsWith(gl, Members(p), i);
  }

  // ---- Branch and bound ----

  /** s makes the choices of p on the graphlets before i. */
  ghost predicate Continues(p: seq<nat>, i: nat, s: set<nat>) {
    forall k: nat :: k < i ==> (k in p <==> k in s)
  }

  ghost predicate Below(p: seq<nat>, i: nat) {
    forall k :: 0 <= k < |p| ==> p[k] < i
  }

  /** No feasible continuation of p from i on is cheaper than cpu. */
  ghost predicate NoneCheaper(gl: seq<Graphlet>, maxMem: real, cap: nat, p: seq<nat>, i: nat, cpu: real) {
    forall s :: Feasible(gl, maxMem, cap, s) && Continues(p, i, s) ==> cpu <= Cpu(gl, s)
  }

  /** A plan already too large or too costly has no better continuation. */
  lemma Pruned(gl: seq<Graphlet>, maxMem: real, cap: nat, p: seq<nat>, mem: real, cpu: real, i: nat, best: real)
    requires NonNegative(gl) && Holds(gl, p, mem, cpu) && Below(p, i) && (mem > maxMem || cpu >= best)
    ensures NoneCheaper(gl, maxMem, cap, p, i, best)
  {
    forall s | Feasible(gl, maxMem, cap, s) && Continues(p, i, s) ensures best <= Cpu(gl, s) {
      assert Members(p) <= s;
      TotalsGrow(gl, Members(p), s);
    }
  }

  lemma Complete(gl: seq<Graphlet>, maxMem: real, cap: nat, p: seq<nat>, best: real)
    requires Below(p, |gl|) && NoRepeats(p) && best <= Cpu(gl, Members(p))
    ensures NoneCheaper(gl, maxMem, cap, p, |gl|, best)
  {
    forall s | Feasible(gl, maxMem, cap, s) && Continues(p, |gl|, s) ensures best <= Cpu(gl, s) {
      assert s == Members(p);
    }
  }

  lemma NothingChosen(gl: seq<Graphlet>, maxMem: real, cap: nat, best: real)
    ensures NoneCheaper(gl, maxMem, cap, [], |gl|, best)
  {
    forall s | Continues([], |gl|, s) ensures !Feasible(gl, maxMem, cap, s) {
      EmptyBelow(s, |gl|);
    }
  }

  lemma EmptyBelow(s: set<nat>, n: nat)
    requires Continues([], n, s)
    ensures (forall i :: i in s ==> i < n) ==> s == {}
  {
    if forall i :: i in s ==> i < n {
      assert forall i: nat :: i < n ==> (i in [] <==> i in s);
    }
  }

  /** Graphlet i is either in a continuation or not. */
  lemma EitherWay(gl: seq<Graphlet>, maxMem: real, cap: nat, p: seq<nat>, i: nat, best: real)
    requires i < |gl| && Below(p, i) && NoRepeats(p) && NoneCheaper(gl, maxMem, cap, p, i + 1, best)
    requires |p| < cap ==> NoneCheaper(gl, maxMem, cap, p + [i], i + 1, best)
    ensures NoneCheaper(gl, maxMem, cap, p, i, best)
  {
    forall s | Feasible(gl, maxMem, cap, s) && Continues(p, i, s) ensures best <= Cpu(gl, s) {
      if i !in s {
        assert Continues(p, i + 1, s);
      } else {
        MembersSnoc(p, i);
        MembersCount(p + [i]);
        assert Members(p + [i]) <= s;
        Smaller(Members(p + [i]), s);
        assert Continues(p + [i], i + 1, s);
      }
    }
  }

  lemma CheaperStill(gl: seq<Graphlet>, maxMem: real, cap: nat, p: seq<nat>, i: nat, cpu: real, cpu': real)
    requires NoneCheaper(gl, maxMem, cap, p, i, cpu) && cpu' <= cpu
    ensures NoneCheaper(gl, maxMem, cap, p, i, cpu')
  {}

  /** best is a feasible plan, or still stands for none. */
  ghost predicate Sensible(gl: seq<Graphlet>, maxMem: real, cap: nat, best: seq<nat>, mem: real, cpu: real) {
    (cpu == NO_PLAN && best == []) || (cpu < NO_PLAN && Holds(gl, best, mem, cpu) && Feasible(gl, maxMem, cap, Members(best)))
  }

  lemma NewBest(gl: seq<Graphlet>, maxMem: real, cap: nat, p: seq<nat>, mem: real, cpu: real)
    requires Holds(gl, p, mem, cpu) && p != [] && |p| <= cap && mem <= maxMem && cpu < NO_PLAN
    ensures Sensible(gl, maxMem, cap, p, mem, cpu)
  {
    MembersCount(p);
    assert p[0] in Members(p);
  }

  /** Leaves cur as it was, and best no costlier than before or than any continuation of cur. */
  method BnbRec(gl: seq<Graphlet>, i: nat, maxMem: real, cur: Plan, best: Plan)
    requires i <= |gl| && cur != best && cur.indices != best.indices
    requires cur.count <= cur.indices.Length == best.indices.Length && best.count <= best.indices.Length
    requires Holds(gl, cur.Chosen(), cur.totalMemory, cur.totalCpu) && Below(cur.Chosen(), i)
    requires Sensible(gl, maxMem, best.indices.Length, best.Chosen(), best.totalMemory, best.totalCpu)
    modifies cur, cur.indices, best, best.indices
    ensures cur.count == old(cur.count) && cur.Chosen() == old(cur.Chosen())
    ensures cur.totalMemory == old(cur.totalMemory) && cur.totalCpu == old(cur.totalCpu)
    ensures best.count <= best.indices.Length && best.totalCpu <= old(best.totalCpu)
    ensures Sensible(gl, maxMem, best.indices.Length, best.Chosen(), best.totalMemory, best.totalCpu)
    ensures NonNegative(gl) ==> NoneCheaper(gl, maxMem, best.indices.Length, old(cur.Chosen()), i, best.totalCpu)
    decreases |gl| - i
  {
    hide Holds, Sensible, NoneCheaper, NonNegative, Feasible, Memory, Cpu, Below;
    ghost var p, cap := cur.Chosen(), best.indices.Length;
    if cur.totalMemory > maxMem || cur.totalCpu >= best.totalCpu {
      if NonNegative(gl) { Pruned(gl, maxMem, cap, p, cur.totalMemory, cur.totalCpu, i, best.totalCpu); }
      return;
    }
    if i == |gl| {
      AtTheEnd(gl, maxMem, cap, p, cur.totalMemory, cur.totalCpu, best.Chosen(), best.totalMemory, best.totalCpu);
      if cur.totalCpu < best.totalCpu && cur.count > 0 {
        best.CopyFrom(cur);
      }
      return;
    }
    BelowNext(p, i);
    BnbRec(gl, i + 1, maxMem, cur, best);
    ghost var without := best.totalCpu;
    if cur.count < cur.indices.Length {
      HoldsNext(gl, p, cur.totalMemory, cur.totalCpu, i);
      cur.Push(gl, i);
      BnbRec(gl, i + 1, maxMem, cur, best);
      cur.Pop(gl, i);
      assert (p + [i])[..|p|] == p;
      if NonNegative(gl) { CheaperStill(gl, maxMem, cap, p, i + 1, without, best.totalCpu); }
    }
    HoldsNoRepeats(gl, p, cur.totalMemory, cur.totalCpu);
    if NonNegative(gl) { EitherWay(gl, maxMem, cap, p, i, best.totalCpu); }
  }

  lemma HoldsNoRepeats(gl: seq<Graphlet>, p: seq<nat>, mem: real, cpu: real)
    requires Holds(gl, p, mem, cpu)
    ensures NoRepeats(p)
  {}

  lemma BelowNext(p: seq<nat>, i: nat)
    requires Below(p, i)
    ensures Below(p, i + 1) && Below(p + [i], i + 1)
  {}

  lemma HoldsNext(gl: seq<Graphlet>, p: seq<nat>, mem: real, cpu: real, i: nat)
    requires Holds(gl, p, mem, cpu) && Below(p, i) && i < |gl|
    ensures Holds(gl, p + [i], mem + gl[i].memory, cpu + gl[i].cpu)
  {
    HoldsSnoc(gl, p, mem, cpu, i);
  }

  /** With every graphlet decided on, the plan itself is the one to compare. */
  lemma AtTheEnd(gl: seq<Graphlet>, maxMem: real, cap: nat, p: seq<nat>, mem: real, cpu: real,
                                    best: seq<nat>, bestMem: real, bestCpu: real)
    requires Holds(gl, p, mem, cpu) && Below(p, |gl|) && |p| <= cap && mem <= maxMem && cpu < bestCpu
    requires Sensible(gl, maxMem, cap, best, bestMem, bestCpu)
    ensures |p| > 0 ==> Sensible(gl, maxMem, cap, p, mem, cpu) && NoneCheaper(gl, maxMem, cap, p, |gl|, cpu)
    ensures |p| == 0 ==> NoneCheaper(gl, maxMem, cap, p, |gl|, bestCpu)
  {
    if |p| > 0 {
      NewBest(gl, maxMem, cap, p, mem, cpu);
      Complete(gl, maxMem, cap, p, cpu);
    } else {
      assert p == [];
      NothingChosen(gl, maxMem, cap, bestCpu);
    }
  }

  /** s is a plan of least total CPU below the sentinel. */
  ghost predicate Optimal(gl: seq<Graphlet>, maxMem: real, cap: nat, s: set<nat>) {
    && Feasible(gl, maxMem, cap, s) && Cpu(gl, s) < NO_PLAN
    && forall t :: Feasible(gl, maxMem, cap, t) ==> Cpu(gl, s) <= Cpu(gl, t)
  }

  /** A feasible plan below the sentinel or the zero plan.  When no cost is negative the plan is
      optimal, and the zero plan means there is none below the sentinel. */
  method BranchAndBoundPlan(gl: seq<Graphlet>, maxMem: real, cap: nat) returns (out: Plan)
    ensures fresh(out) && out.count <= out.indices.Length == cap
    ensures Holds(gl, out.Chosen(), out.totalMemory, out.totalCpu)
    ensures out.count > 0 ==> Feasible(gl, maxMem, cap, Members(out.Chosen())) && out.totalCpu < NO_PLAN
    ensures NonNegative(gl) && out.count > 0 ==> Optimal(gl, maxMem, cap, Members(out.Chosen()))
    ensures NonNegative(gl) ==> (out.count == 0 <==> forall t :: Feasible(gl, maxMem, cap, t) ==> Cpu(gl, t) >= NO_PLAN)
  {
    var cur := new Plan(cap);
    out := new Plan(cap);
    out.totalCpu := NO_PLAN;
    TotalsOfNothing(gl);
    assert Members([]) == {};
    assert Holds(gl, cur.Chosen(), 0.0, 0.0);
    BnbRec(gl, 0, maxMem, cur, out);
    if NonNegative(gl) { Outcome(gl, maxMem, cap, out.Chosen(), out.totalMemory, out.totalCpu); }
    if out.totalCpu == NO_PLAN {
      out.Clear();
    }
  }

  lemma Outcome(gl: seq<Graphlet>, maxMem: real, cap: nat, best: seq<nat>, mem: real, cpu: real)
    requires Sensible(gl, maxMem, cap, best, mem, cpu) && NoneCheaper(gl, maxMem, cap, [], 0, cpu)
    ensures cpu != NO_PLAN ==> best != [] && Holds(gl, best, mem, cpu) && Optimal(gl, maxMem, cap, Members(best))
    ensures cpu == NO_PLAN <==> forall t :: Feasible(gl, maxMem, cap, t) ==> Cpu(gl, t) >= NO_PLAN
  {
    forall t | Feasible(gl, maxMem, cap, t) ensures cpu <= Cpu(gl, t) {
      assert Continues([], 0, t);
    }
  }

  // ---- The greedy plan ----

  /** Graphlet i is not in p yet and still fits. */
  predicate Affordable(gl: seq<Graphlet>, maxMem: real, p: seq<nat>, i: nat) {
    i < |gl| && i !in p && Memory(gl, Members(p)) + gl[i].memory <= maxMem
  }

  /** b is the first of the cheapest graphlets that still fit. */
  ghost predicate IsPick(gl: seq<Graphlet>, maxMem: real, p: seq<nat>, b: nat) {
    && Affordable(gl, maxMem, p, b) && gl[b].cpu + gl[b].memory < NO_PLAN
    && forall i: nat :: Affordable(gl, maxMem, p, i) ==> gl[b].cpu + gl[b].memory < gl[i].cpu + gl[i].memory || (gl[b].cpu + gl[b].memory == gl[i].cpu + gl[i].memory && b <= i)
  }

  ghost predicate EachPicked(gl: seq<Graphlet>, maxMem: real, p: seq<nat>) {
    forall k :: 0 <= k < |p| ==> IsPick(gl, maxMem, p[..k], p[k])
  }

  /** Every graphlet left out would not fit, or scores the sentinel or more. */
  ghost predicate Maximal(gl: seq<Graphlet>, maxMem: real, p: seq<nat>) {
    forall i: nat :: Affordable(gl, maxMem, p, i) ==> gl[i].cpu + gl[i].memory >= NO_PLAN
  }

  method GreedyPlan(gl: seq<Graphlet>, maxMem: real, cap: nat) returns (out: Plan)
    requires |gl| <= cap
    ensures fresh(out) && out.count <= out.indices.Length == cap
    ensures Holds(gl, out.Chosen(), out.totalMemory, out.totalCpu)
    ensures EachPicked(gl, maxMem, out.Chosen()) && Maximal(gl, maxMem, out.Chosen())
  {
    out := new Plan(cap);
    var used := new bool[cap](_ => false);
    TotalsOfNothing(gl);
    assert Members([]) == {};
    ghost var p: seq<nat> := [];
    while true
      invariant fresh(out) && fresh(out.indices) && fresh(used) && used.Length == out.indices.Length == cap
      invariant out.count <= cap && p == out.Chosen() && Holds(gl, p, out.totalMemory, out.totalCpu)
      invariant forall i :: 0 <= i < |gl| ==> (used[i] <==> i in p)
      invariant EachPicked(gl, maxMem, p)
      decreases |gl| - |p|
    {
      PicksFit(gl, p, out.totalMemory, out.totalCpu);
      var best := NextPick(gl, maxMem, used, out.totalMemory, p);
      if best < 0 { break; }
      used[best] := true;
      HoldsSnoc(gl, p, out.totalMemory, out.totalCpu, best);
      PickedSnoc(gl, maxMem, p, best);
      PicksFit(gl, p + [best], out.totalMemory + gl[best].memory, out.totalCpu + gl[best].cpu);
      out.Push(gl, best);
      p := p + [best];
    }
  }

  /** The scan for the next graphlet, -1 if there is none. */
  method NextPick(gl: seq<Graphlet>, maxMem: real, used: array<bool>, totalMemory: real, ghost p: seq<nat>) returns (best: int)
    requires |gl| <= used.Length && totalMemory == Memory(gl, Members(p))
    requires forall i :: 0 <= i < |gl| ==> (used[i] <==> i in p)
    ensures -1 <= best < |gl|
    ensures best >= 0 ==> IsPick(gl, maxMem, p, best)
    ensures best < 0 ==> Maximal(gl, maxMem, p)
  {
    best := -1;
    var bestv := NO_PLAN;
    for i := 0 to |gl|
      invariant -1 <= best < i
      invariant bestv <= NO_PLAN && (best < 0 ==> bestv == NO_PLAN)
      invariant best >= 0 ==> Affordable(gl, maxMem, p, best) && bestv == gl[best].cpu + gl[best].memory < NO_PLAN
      invariant forall j :: 0 <= j < i && Affordable(gl, maxMem, p, j) ==>
        bestv < gl[j].cpu + gl[j].memory || (bestv == gl[j].cpu + gl[j].memory && best <= j)
    {
      if !used[i] {
        if totalMemory + gl[i].memory > maxMem { continue; }
        var score := gl[i].cpu + gl[i].memory;
        if score < bestv { best, bestv := i, score; }
      }
    }
  }

  lemma PicksFit(gl: seq<Graphlet>, p: seq<nat>, mem: real, cpu: real)
    requires Holds(gl, p, mem, cpu)
    ensures |p| <= |gl|
  {
    MembersCount(p);
    Smaller(Members(p), UpTo(|gl|));
  }

  function UpTo(n: nat): (s: set<nat>)
    ensures |s| == n && forall i: nat :: i in s <==> i < n
  {
    if n == 0 then {} else UpTo(n - 1) + {n - 1}
  }

  lemma PickedSnoc(gl: seq<Graphlet>, maxMem: real, p: seq<nat>, b: nat)
    requires EachPicked(gl, maxMem, p) && IsPick(gl, maxMem, p, b)
    ensures EachPicked(gl, maxMem, p + [b])
  {
    var r := p + [b];
    forall k | 0 <= k < |r| ensures IsPick(gl, maxMem, r[..k], r[k]) {
      assert k < |p| ==> r[..k] == p[..k];
      assert r[..|p|] == p;
    }
  }

  /** There is only one plan that can be picked this way. */
  lemma GreedyUnique(gl: seq<Graphlet>, maxMem: real, p: seq<nat>, q: seq<nat>)
    requires EachPicked(gl, maxMem, p) && EachPicked(gl, maxMem, q) && Maximal(gl, maxMem, p) && Maximal(gl, maxMem, q)
    ensures p == q
  {
    var n := if |p| <= |q| then |p| else |q|;
    SameSoFar(gl, maxMem, p, q, n);
    NotLonger(gl, maxMem, p, q);
    NotLonger(gl, maxMem, q, p);
  }

  lemma NotLonger(gl: seq<Graphlet>, maxMem: real, p: seq<nat>, q: seq<nat>)
    requires Maximal(gl, maxMem, p) && EachPicked(gl, maxMem, q)
    ensures |p| < |q| ==> q[..|p|] != p
  {
    if |p| < |q| { assert IsPick(gl, maxMem, q[..|p|], q[|p|]); }
  }

  lemma {:induction false} SameSoFar(gl: seq<Graphlet>, maxMem: real, p: seq<nat>, q: seq<nat>, n: nat)
    requires EachPicked(gl, maxMem, p) && EachPicked(gl, maxMem, q) && n <= |p| && n <= |q|
    ensures p[..n] == q[..n]
  {
    if n > 0 {
      SameSoFar(gl, maxMem, p, q, n - 1);
      assert IsPick(gl, maxMem, p[..n - 1], p[n - 1]) && IsPick(gl, maxMem, q[..n - 1], q[n - 1]);
      assert p[..n] == p[..n - 1] + [p[n - 1]] && q[..n] == q[..n - 1] + [q[n - 1]];
    }
  }

  /** A non-empty greedy plan is feasible. */
  lemma GreedyFeasible(gl: seq<Graphlet>, maxMem: real, cap: nat, p: seq<nat>)
    requires |gl| <= cap && EachPicked(gl, maxMem, p) && p != []
    ensures NoRepeats(p) && Feasible(gl, maxMem, cap, Members(p))
  {
    forall i, j | 0 <= i < j < |p| ensures p[i] != p[j] {
      assert IsPick(gl, maxMem, p[..j], p[j]) && p[i] == p[..j][i];
    }
    var n := |p| - 1;
    assert IsPick(gl, maxMem, p[..n], p[n]);
    assert p == p[..n] + [p[n]];
    MembersSnoc(p[..n], p[n]);
    TotalsWith(gl, Members(p[..n]), p[n]);
    forall i | i in Members(p) ensures i < |gl| {
      var k :| 0 <= k < |p| && p[k] == i;
      assert IsPick(gl, maxMem, p[..k], p[k]);
    }
    PicksFit(gl, p, Memory(gl, Members(p)), Cpu(gl, Members(p)));
    MembersCount(p);
    assert p[0] in Members(p);
  }

  /** When no memory cost is negative, scores never fall from one pick to a later one. */
  lemma GreedyScoresRise(gl: seq<Graphlet>, maxMem: real, p: seq<nat>, j: nat, k: nat)
    requires NonNegative(gl) && EachPicked(gl, maxMem, p) && j < k < |p|
    ensures p[j] < |gl| && p[k] < |gl| && gl[p[j]].cpu + gl[p[j]].memory <= gl[p[k]].cpu + gl[p[k]].memory
  {
    assert IsPick(gl, maxMem, p[..j], p[j]) && IsPick(gl, maxMem, p[..k], p[k]);
    assert p[..j] == p[..k][..j];
    forall i | i in p[..j] ensures i in p[..k] {}
    TotalsGrow(gl, Members(p[..j]), Members(p[..k]));
    assert Affordable(gl, maxMem, p[..j], p[k]);
  }

  /** Branch and bound never does worse than greedy. */
  lemma GreedyNeverCheaper(gl: seq<Graphlet>, maxMem: real, cap: nat, greedy: seq<nat>, planned: seq<nat>)
    requires NonNegative(gl) && |gl| <= cap && EachPicked(gl, maxMem, greedy) && greedy != []
    requires planned != [] ==> Optimal(gl, maxMem, cap, Members(planned))
    requires planned == [] <==> forall t :: Feasible(gl, maxMem, cap, t) ==> Cpu(gl, t) >= NO_PLAN
    ensures Cpu(gl, Members(planned)) <= Cpu(gl, Members(greedy))
    ensures planned == [] ==> Cpu(gl, Members(greedy)) >= NO_PLAN
  {
    GreedyFeasible(gl, maxMem, cap, greedy);
    if planned == [] {
      assert Members(planned) == {};
      TotalsOfNothing(gl);
    }
  }
}
