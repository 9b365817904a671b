/** What the bounded breadth-first search guarantees about its trace, whatever was turned away. */
module BreadthFirstFacts {
  import opened TrendGraph
  import opened SearchSpec
  import opened BreadthFirst

  predicate InShard(g: Graph, q: Query, from: nat, to: nat, r: Run) {
    Partial(g, q, r) && from <= Origin(r) < to
  }

  /** Everything queued or lost is a run of the shard, and nothing occurs twice. */
  ghost predicate Sound(g: Graph, q: Query, from: nat, to: nat, t: Trace) {
    && (forall r :: r in t.queue ==> InShard(g, q, from, to, r))
    && (forall r :: r in t.lost ==> InShard(g, q, from, to, r))
    && Distinct(t.queue + t.lost)
  }

  /** Whatever was turned away did not fit: its path is too long or the queue is full. */
  ghost predicate LostForCause(lim: Limits, t: Trace) {
    forall r :: r in t.lost ==> Len(r) > lim.maxPathLen || |t.queue| == lim.maxPaths
  }

  /** Queued runs do not get shorter, and reach at most one vertex past the last popped one. */
  ghost predicate Layered(t: Trace, head: nat) {
    && (forall i, j :: 0 <= i < j < |t.queue| ==> Len(t.queue[i]) <= Len(t.queue[j]))
    && (forall i :: 0 <= i < |t.queue| ==> Len(t.queue[i]) <= if 0 < head <= |t.queue| then Len(t.queue[head - 1]) + 1 else 1)
  }

  /** Every queued or lost continuation continues a run popped before position head. */
  ghost predicate FromPopped(t: Trace, head: nat)
    requires head <= |t.queue|
  {
    forall r :: r in t.queue + t.lost && r.Take? ==> r.prev in t.queue[..head]
  }

  /** Nothing lost so far: starts and the children of all popped runs are queued. */
  ghost predicate Closed(g: Graph, q: Query, from: nat, to: nat, t: Trace, head: nat)
    requires head <= |t.queue|
  {
    && (forall r :: IsStart(g, q, r) && from <= r.vertex < to ==> r in t.queue)
    && (forall r, c :: r in t.queue[..head] && IsChild(g, q, r, c) ==> c in t.queue)
  }

  ghost predicate Inv(g: Graph, q: Query, lim: Limits, from: nat, to: nat, t: Trace, head: nat) {
    && head <= |t.queue| <= lim.maxPaths
    && Sound(g, q, from, to, t) && LostForCause(lim, t) && Layered(t, head) && FromPopped(t, head)
    && (t.lost == [] ==> Closed(g, q, from, to, t, head))
  }

  // ---- Pushing ----

  lemma {:induction false} PushAllSplits(lim: Limits, t: Trace, cs: seq<Run>) returns (k: nat)
    requires |t.queue| <= lim.maxPaths
    ensures k <= |cs| && PushAll(lim, t, cs) == Trace(t.queue + cs[..k], t.lost + cs[k..])
    ensures k < |cs| ==> |t.queue| + k == lim.maxPaths
    decreases |cs|
  {
    if cs == [] {
      return 0;
    }
    var t1 := Push(lim, t, cs[0]);
    var m := PushAllSplits(lim, t1, cs[1..]);
    if |t.queue| >= lim.maxPaths {
      assert [cs[0]] + cs[1..][m..] == cs[m..] by { assert m == 0; }
      assert t.lost + cs[0..] == t1.lost + cs[1..][0..];
      return 0;
    }
    assert cs[..m + 1] == [cs[0]] + cs[1..][..m] && cs[m + 1..] == cs[1..][m..];
    assert t.queue + cs[..m + 1] == t1.queue + cs[1..][..m];
    return m + 1;
  }

  lemma {:induction false} PushAllAppend(lim: Limits, t: Trace, a: seq<Run>, b: seq<Run>)
    requires |t.queue| <= lim.maxPaths
    ensures PushAll(lim, t, a + b) == PushAll(lim, PushAll(lim, t, a), b)
    decreases |a|
  {
    if a == [] {
      assert a + b == b;
    } else {
      TailOfConcat(a, b);
      PushAllAppend(lim, Push(lim, t, a[0]), a[1..], b);
    }
  }

  lemma {:induction false} BfsEdgesPush(g: Graph, q: Query, lim: Limits, t: Trace, r: Run, es: seq<nat>)
    requires |t.queue| <= lim.maxPaths && InRange(es, |g.edges|) && Idx(r) < |q.steps| && Len(r) < lim.maxPathLen
    ensures BfsEdges(g, q, lim, t, r, es) == PushAll(lim, t, ChildrenOver(g, q, r, es))
    decreases |es|
  {
    if es != [] {
      BfsEdgesPush(g, q, lim, BfsEdge(g, q, lim, t, r, es[0]), r, es[1..]);
      PushAllAppend(lim, t, EdgeChildren(g, q, r, es[0]), ChildrenOver(g, q, r, es[1..]));
    }
  }

  /** The first choice over its edge: staying, if the step repeats. */
  predicate FirstChoice(q: Query, r: Run, c: Run)
    requires Idx(r) < |q.steps|
  {
    c.Take? && !(c.choice == Advance && q.steps[Idx(r)].kleenePlus)
  }

  lemma FirstChild(g: Graph, q: Query, r: Run, e: nat, c: Run)
    requires e < |g.edges| && Idx(r) < |q.steps|
    ensures var cs := EdgeChildren(g, q, r, e);
      c in cs && FirstChoice(q, r, c) <==> cs != [] && c == cs[0]
  {}

  /** A run whose path is full queues nothing and loses its first child over each edge. */
  lemma {:induction false} BfsEdgesFull(g: Graph, q: Query, lim: Limits, t: Trace, r: Run, es: seq<nat>) returns (outs: seq<Run>)
    requires |t.queue| <= lim.maxPaths && InRange(es, |g.edges|) && Idx(r) < |q.steps| && Len(r) >= lim.maxPathLen
    requires Distinct(es)
    ensures BfsEdges(g, q, lim, t, r, es) == t.(lost := t.lost + outs)
    ensures Distinct(outs) && (forall c :: c in outs ==> c in ChildrenOver(g, q, r, es))
    ensures outs == [] ==> ChildrenOver(g, q, r, es) == []
    ensures forall c :: c in outs <==> c in ChildrenOver(g, q, r, es) && FirstChoice(q, r, c)
    decreases |es|
  {
    hide EdgeGate, TypeMatches, Idx, Len, FirstChoice, EdgeChildren;
    if es == [] {
      outs := [];
      assert t.lost + [] == t.lost;
    } else {
      var cs := EdgeChildren(g, q, r, es[0]);
      outs := BfsEdgesFull(g, q, lim, BfsEdge(g, q, lim, t, r, es[0]), r, es[1..]);
      ChildrenOverDistinct(g, q, r, es);
      forall c ensures c in cs && FirstChoice(q, r, c) <==> cs != [] && c == cs[0] { FirstChild(g, q, r, es[0], c); }
      if cs != [] {
        forall c | c in outs ensures c != cs[0] {
          var ds := ChildrenOver(g, q, r, es[1..]);
          var i :| 0 <= i < |ds| && ds[i] == c;
          assert ChildrenOver(g, q, r, es)[0] == cs[0] && ChildrenOver(g, q, r, es)[|cs| + i] == c;
        }
        DistinctAppend([cs[0]], outs);
        Regroup(t.lost, [cs[0]], outs);
        outs := [cs[0]] + outs;
      }
    }
  }

  /** Popping an unfinished run splits (some of) its children into queued and lost ones. */
  lemma PopSplits(g: Graph, q: Query, lim: Limits, t: Trace, r: Run) returns (ins: seq<Run>, outs: seq<Run>)
    requires |t.queue| <= lim.maxPaths && Idx(r) < |q.steps|
    ensures BfsPop(g, q, lim, t, r) == Trace(t.queue + ins, t.lost + outs)
    ensures Distinct(ins + outs) && forall c :: c in ins + outs ==> IsChild(g, q, r, c)
    ensures outs == [] ==> forall c :: IsChild(g, q, r, c) ==> c in ins
    ensures outs != [] ==> Len(r) >= lim.maxPathLen || |t.queue + ins| == lim.maxPaths
  {
    hide IsChild;
    ChildrenExact(g, q, r);
    if Len(r) < lim.maxPathLen {
      ins, outs := PopPushes(g, q, lim, t, r);
    } else {
      ins := [];
      outs := PopDrops(g, q, lim, t, r);
      assert [] + outs == outs && t.queue + [] == t.queue;
    }
  }

  lemma PopPushes(g: Graph, q: Query, lim: Limits, t: Trace, r: Run) returns (ins: seq<Run>, outs: seq<Run>)
    requires |t.queue| <= lim.maxPaths && Idx(r) < |q.steps| && Len(r) < lim.maxPathLen
    ensures BfsPop(g, q, lim, t, r) == Trace(t.queue + ins, t.lost + outs)
    ensures ins + outs == Children(g, q, r) && (outs != [] ==> |t.queue + ins| == lim.maxPaths)
  {
    BfsEdgesPush(g, q, lim, t, r, Out(g, r));
    var cs := Children(g, q, r);
    var k := PushAllSplits(lim, t, cs);
    ins, outs := cs[..k], cs[k..];
  }

  lemma PopDrops(g: Graph, q: Query, lim: Limits, t: Trace, r: Run) returns (outs: seq<Run>)
    requires |t.queue| <= lim.maxPaths && Idx(r) < |q.steps| && Len(r) >= lim.maxPathLen
    ensures BfsPop(g, q, lim, t, r) == t.(lost := t.lost + outs)
    ensures Distinct(outs) && (forall c :: c in outs ==> c in Children(g, q, r))
    ensures outs == [] ==> Children(g, q, r) == []
    ensures forall c :: c in outs <==> c in Children(g, q, r) && FirstChoice(q, r, c)
  {
    OutEdgesDistinct(g, VPos(g, Last(r)), |g.edges|);
    outs := BfsEdgesFull(g, q, lim, t, r, Out(g, r));
  }

  // ---- The invariant of the queue loop ----

  lemma NotYetPopped(t: Trace, head: nat)
    requires head < |t.queue| && Distinct(t.queue + t.lost)
    ensures t.queue[head] !in t.queue[..head]
  {
    var s := t.queue + t.lost;
    forall j | 0 <= j < head ensures t.queue[j] != t.queue[head] {
      assert s[j] == t.queue[j] && s[head] == t.queue[head];
    }
  }

  /** ins and outs are some of the children of the run at head. */
  ghost predicate Offspring(g: Graph, q: Query, t: Trace, head: nat, ins: seq<Run>, outs: seq<Run>)
    requires head < |t.queue|
  {
    && Distinct(ins + outs)
    && (forall c :: c in ins ==> IsChild(g, q, t.queue[head], c))
    && (forall c :: c in outs ==> IsChild(g, q, t.queue[head], c))
  }

  lemma PopKeepsSound(g: Graph, q: Query, from: nat, to: nat, t: Trace, head: nat, ins: seq<Run>, outs: seq<Run>)
    requires head < |t.queue| && Sound(g, q, from, to, t) && FromPopped(t, head) && Offspring(g, q, t, head, ins, outs)
    ensures Sound(g, q, from, to, Trace(t.queue + ins, t.lost + outs))
  {
    var r, old_, new_ := t.queue[head], t.queue + t.lost, ins + outs;
    assert r in t.queue;
    NotYetPopped(t, head);
    forall c | c in new_ ensures c !in old_ {
      assert c in ins || c in outs;
    }
    DistinctAppend(old_, new_);
    DistinctShuffle(t.queue, t.lost, ins, outs);
  }

  lemma DistinctShuffle<T>(a: seq<T>, b: seq<T>, c: seq<T>, d: seq<T>)
    requires Distinct((a + b) + (c + d))
    ensures Distinct((a + c) + (b + d))
  {
    var s, p := (a + b) + (c + d), (a + c) + (b + d);
    forall i, j | 0 <= i < j < |p| ensures p[i] != p[j] {
      var f := (k: int) => if k < |a| then k else if k < |a| + |c| then k + |b| else if k < |a| + |c| + |b| then k - |c| else k;
      assert p[i] == s[f(i)] && p[j] == s[f(j)] && f(i) != f(j);
    }
  }

  lemma PopKeepsLayers(g: Graph, q: Query, t: Trace, head: nat, ins: seq<Run>)
    requires head < |t.queue| && Layered(t, head) && forall c :: c in ins ==> IsChild(g, q, t.queue[head], c)
    ensures Layered(Trace(t.queue + ins, t.lost), head + 1)
  {
    var queue := t.queue + ins;
    forall i | 0 <= i < |queue| ensures i >= |t.queue| ==> Len(queue[i]) == Len(t.queue[head]) + 1 {
      if i >= |t.queue| { assert queue[i] in ins; }
    }
    forall i | 0 <= i < |t.queue| ensures Len(queue[i]) <= Len(t.queue[head]) + 1 {
      if head > 0 { assert Len(t.queue[head - 1]) <= Len(t.queue[head]); }
    }
  }

  lemma PopKeepsOrigin(g: Graph, q: Query, lim: Limits, t: Trace, head: nat, ins: seq<Run>, outs: seq<Run>)
    requires head < |t.queue| && FromPopped(t, head) && Offspring(g, q, t, head, ins, outs)
    requires |t.queue + ins| <= lim.maxPaths && LostForCause(lim, t)
    requires outs != [] ==> Len(t.queue[head]) >= lim.maxPathLen || |t.queue + ins| == lim.maxPaths
    ensures var t' := Trace(t.queue + ins, t.lost + outs); FromPopped(t', head + 1) && LostForCause(lim, t')
  {
    var r, t' := t.queue[head], Trace(t.queue + ins, t.lost + outs);
    assert t'.queue[..head + 1] == t.queue[..head] + [r];
    forall c | c in t'.queue + t'.lost && c.Take? ensures c.prev in t'.queue[..head + 1] {
      if c !in ins && c !in outs {
        assert c in t.queue + t.lost;
      }
    }
  }

  lemma PopKeepsClosed(g: Graph, q: Query, from: nat, to: nat, t: Trace, head: nat, ins: seq<Run>)
    requires head < |t.queue| && Closed(g, q, from, to, t, head)
    requires forall c :: IsChild(g, q, t.queue[head], c) ==> c in ins
    ensures Closed(g, q, from, to, Trace(t.queue + ins, t.lost), head + 1)
  {
    var queue := t.queue + ins;
    assert queue[..head + 1] == t.queue[..head] + [t.queue[head]];
    forall r, c | r in queue[..head + 1] && IsChild(g, q, r, c) ensures c in queue {
      if r == t.queue[head] { assert c in ins; } else { assert c in t.queue; }
    }
  }

  lemma PopKeepsInv(g: Graph, q: Query, lim: Limits, from: nat, to: nat, t: Trace, head: nat)
    requires Inv(g, q, lim, from, to, t, head) && head < |t.queue|
    ensures Inv(g, q, lim, from, to, BfsPop(g, q, lim, t, t.queue[head]), head + 1)
  {
    hide IsChild, Sound, Layered, Closed;
    var r := t.queue[head];
    var ins, outs := [], [];
    if Idx(r) < |q.steps| {
      ins, outs := PopSplits(g, q, lim, t, r);
      assert forall c :: c in ins ==> c in ins + outs;
      assert forall c :: c in outs ==> c in ins + outs;
    } else {
      assert t.queue + [] == t.queue && t.lost + [] == t.lost;
    }
    PopKeepsSound(g, q, from, to, t, head, ins, outs);
    PopKeepsLayers(g, q, t, head, ins);
    PopKeepsOrigin(g, q, lim, t, head, ins, outs);
    if t.lost + outs == [] {
      assert outs == [];
      FinishedHasNoChild(g, q, r);
      PopKeepsClosed(g, q, from, to, t, head, ins);
    }
    assert BfsPop(g, q, lim, t, r) == Trace(t.queue + ins, t.lost + outs);
    LayersIgnoreLost(Trace(t.queue + ins, t.lost), t.lost + outs, head + 1);
  }

  lemma FinishedHasNoChild(g: Graph, q: Query, r: Run)
    ensures Idx(r) >= |q.steps| ==> forall c :: !IsChild(g, q, r, c)
  {}

  lemma LayersIgnoreLost(t: Trace, lost: seq<Run>, head: nat)
    ensures Layered(t, head) ==> Layered(t.(lost := lost), head)
  {}

  lemma {:induction false} BfsFromInv(g: Graph, q: Query, lim: Limits, from: nat, to: nat, t: Trace, head: nat)
    requires Inv(g, q, lim, from, to, t, head)
    ensures var t' := BfsFrom(g, q, lim, t, head); Inv(g, q, lim, from, to, t', |t'.queue|)
    decreases lim.maxPaths - head
  {
    if head < |t.queue| {
      PopKeepsInv(g, q, lim, from, to, t, head);
      BfsFromInv(g, q, lim, from, to, BfsPop(g, q, lim, t, t.queue[head]), head + 1);
    }
  }

  // ---- The start states ----

  ghost predicate StartsIn(g: Graph, q: Query, from: nat, to: nat, s: seq<Run>) {
    && (forall r :: r in s ==> IsStart(g, q, r) && from <= r.vertex < to)
    && Distinct(s)
  }

  lemma {:induction false} PushStartsInv(g: Graph, q: Query, lim: Limits, from: nat, mid: nat, to: nat, t: Trace)
    requires from <= mid && to <= |g.vertices| && |q.steps| > 0 && |t.queue| <= lim.maxPaths
    requires t.lost == [] && StartsIn(g, q, from, mid, t.queue)
    requires forall r :: IsStart(g, q, r) && from <= r.vertex < mid ==> r in t.queue
    ensures var t' := PushStarts(g, q, lim, t, mid, to);
      && StartsIn(g, q, from, if mid < to then to else mid, t'.queue + t'.lost)
      && (t'.lost != [] ==> |t'.queue| == lim.maxPaths)
      && (t'.lost == [] ==> forall r :: IsStart(g, q, r) && from <= r.vertex < to ==> r in t'.queue)
    decreases if mid < to then to - mid else 0
  {
    if mid >= to {
      assert t.queue + [] == t.queue;
    } else {
      var s := StartAt(g, mid);
      if g.vertices[mid].eventType != q.steps[0].name {
        PushStartsInv(g, q, lim, from, mid + 1, to, t);
      } else {
        assert Distinct(t.queue + [s]) by { DistinctAppend(t.queue, [s]); }
        if |t.queue| < lim.maxPaths {
          PushStartsInv(g, q, lim, from, mid + 1, to, Push(lim, t, s));
        } else {
          assert t.lost + [s] == [s];
        }
      }
    }
  }

  lemma {:induction false} StartsInv(g: Graph, q: Query, lim: Limits, from: nat, to: nat)
    requires from <= to <= |g.vertices| && |q.steps| > 0
    ensures Inv(g, q, lim, from, to, PushStarts(g, q, lim, Trace([], []), from, to), 0)
  {
    PushStartsInv(g, q, lim, from, from, to, Trace([], []));
    var t := PushStarts(g, q, lim, Trace([], []), from, to);
    forall r | r in t.queue ensures r in t.queue + t.lost {}
    forall r | r in t.lost ensures r in t.queue + t.lost {}
    assert forall i :: 0 <= i < |t.queue| ==> t.queue[i] in t.queue;
  }

  /** For any shard, the trace T-CET leaves holds only runs of the shard, each once, shortest
      first; runs are turned away only because their path or the queue is full; and if none
      was, everything reachable in one step from the queue is in the queue. */
  lemma TraceFacts(g: Graph, q: Query, lim: Limits, begin: nat, end: nat)
    requires |q.steps| > 0
    ensures var t := TcetTrace(g, q, lim, begin, end);
      Inv(g, q, lim, Clamp(begin, |g.vertices|), Max(Clamp(begin, |g.vertices|), Clamp(end, |g.vertices|)), t, |t.queue|)
  {
    var from, to := Clamp(begin, |g.vertices|), Clamp(end, |g.vertices|);
    StartsInv(g, q, lim, from, Max(from, to));
    assert PushStarts(g, q, lim, Trace([], []), from, to) == PushStarts(g, q, lim, Trace([], []), from, Max(from, to));
    BfsFromInv(g, q, lim, from, Max(from, to), PushStarts(g, q, lim, Trace([], []), from, to), 0);
  }
}
