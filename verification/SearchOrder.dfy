/** The order of the native searches, defined without them.  Depth first, a walk comes before its
    continuations; newer edges before older ones, and staying on a step before advancing; breadth
    first, shorter walks come first.  So under a full table or queue the first ones are kept. */
module SearchOrder {
  import opened TrendGraph
  import opened SearchSpec
  import opened BreadthFirst
  import opened BreadthFirstFacts
  import opened Engines
  import opened Agreement
  import opened NativeTheorems
  import opened HybridTheorems
  import opened NoSilentLoss

  // ---- The order ----

  /** What a run does at one place: where it starts, or which edge it takes and what it waits for then. */
  datatype Mark = Mark(place: int, waits: int)

  function Marks(r: Run): (ms: seq<Mark>)
    ensures |ms| == Len(r)
  {
    match r
    case Start(v, _, _) => [Mark(v, 1)]
    case Take(prev, e, _, _) => Marks(prev) + [HopMark(r)]
  }

  /** A newer edge has the smaller mark. */
  function HopMark(r: Run): Mark
    requires r.Take?
  {
    Mark(0 - r.edge, Idx(r))
  }

  predicate MarkBefore(a: Mark, b: Mark) {
    a.place < b.place || (a.place == b.place && a.waits < b.waits)
  }

  /** At the first difference a starts earlier, takes a newer edge, or stays where b advances. */
  predicate Parts(a: seq<Mark>, b: seq<Mark>) {
    exists i :: 0 <= i < |a| && i < |b| && a[..i] == b[..i] && MarkBefore(a[i], b[i])
  }

  predicate DeepBefore(a: Run, b: Run) {
    Marks(a) < Marks(b) || Parts(Marks(a), Marks(b))
  }

  predicate BroadBefore(a: Run, b: Run) {
    Len(a) < Len(b) || (Len(a) == Len(b) && Parts(Marks(a), Marks(b)))
  }

  ghost predicate Ordered(before: (Run, Run) -> bool, s: seq<Run>) {
    forall i, j :: 0 <= i < j < |s| ==> before(s[i], s[j])
  }

  ghost predicate DeepOrder(s: seq<Run>) { Ordered(DeepBefore, s) }

  ghost predicate BroadOrder(s: seq<Run>) {
    forall i, j :: 0 <= i < j < |s| ==> BroadBefore(s[i], s[j])
  }

  lemma PartsLonger(a: seq<Mark>, b: seq<Mark>, a': seq<Mark>, b': seq<Mark>)
    requires Parts(a, b) && a <= a' && b <= b'
    ensures Parts(a', b')
  {
    var i :| 0 <= i < |a| && i < |b| && a[..i] == b[..i] && MarkBefore(a[i], b[i]);
    assert a'[..i] == a[..i] && b'[..i] == b[..i] && a'[i] == a[i] && b'[i] == b[i];
  }

  lemma PartsAtEnd(m: seq<Mark>, x: Mark, y: Mark)
    requires MarkBefore(x, y)
    ensures Parts(m + [x], m + [y])
  {
    assert (m + [x])[..|m|] == m == (m + [y])[..|m|];
  }

  lemma {:induction false} ReachesMarks(g: Graph, q: Query, r: Run, x: Run)
    requires Reaches(g, q, r, x)
    ensures Marks(r) <= Marks(x) && (x != r ==> Marks(r) < Marks(x))
  {
    if x != r {
      ReachesMarks(g, q, r, x.prev);
      ReachesMeans(g, q, r, x);
    }
  }

  // ---- The children of a run ----

  predicate Falling(es: seq<nat>) {
    forall i, j :: 0 <= i < j < |es| ==> es[i] > es[j]
  }

  /** Edges are followed newest first. */
  lemma {:induction false} OutEdgesFall(g: Graph, p: int, n: nat)
    requires n <= |g.edges|
    ensures Falling(OutEdges(g, p, n))
  {
    if n > 0 { OutEdgesFall(g, p, n - 1); }
  }

  /** They are children of r, in order. */
  ghost predicate Siblings(r: Run, cs: seq<Run>) {
    && (forall i :: 0 <= i < |cs| ==> cs[i].Take? && cs[i].prev == r)
    && forall i, j :: 0 <= i < j < |cs| ==> MarkBefore(HopMark(cs[i]), HopMark(cs[j]))
  }

  lemma EdgeSiblings(g: Graph, q: Query, r: Run, e: nat)
    requires e < |g.edges| && Idx(r) < |q.steps|
    ensures Siblings(r, EdgeChildren(g, q, r, e)) && forall c :: c in EdgeChildren(g, q, r, e) ==> c.Take? && c.edge == e
  {}

  lemma {:induction false} OverSiblings(g: Graph, q: Query, r: Run, es: seq<nat>)
    requires Idx(r) < |q.steps| && InRange(es, |g.edges|) && Falling(es)
    ensures Siblings(r, ChildrenOver(g, q, r, es)) && forall c :: c in ChildrenOver(g, q, r, es) ==> c.Take? && c.edge in es
  {
    hide EdgeChildren;
    if es != [] {
      EdgeSiblings(g, q, r, es[0]);
      OverSiblings(g, q, r, es[1..]);
      JoinSiblings(r, es[0], EdgeChildren(g, q, r, es[0]), es[1..], ChildrenOver(g, q, r, es[1..]));
    }
  }

  lemma JoinSiblings(r: Run, e: nat, cs: seq<Run>, es: seq<nat>, ds: seq<Run>)
    requires Siblings(r, cs) && Siblings(r, ds) && forall i :: 0 <= i < |es| ==> es[i] < e
    requires (forall c :: c in cs ==> c.Take? && c.edge == e) && forall c :: c in ds ==> c.Take? && c.edge in es
    ensures Siblings(r, cs + ds)
  {
    var s := cs + ds;
    forall i, j | 0 <= i < j < |s| ensures MarkBefore(HopMark(s[i]), HopMark(s[j])) {
      if i < |cs| <= j { assert cs[i] in cs && ds[j - |cs|] in ds; }
    }
  }

  lemma ChildrenOrdered(g: Graph, q: Query, r: Run)
    requires Idx(r) < |q.steps|
    ensures Siblings(r, Children(g, q, r))
  {
    OutEdgesFall(g, VPos(g, Last(r)), |g.edges|);
    OverSiblings(g, q, r, Out(g, r));
  }

  lemma SiblingsPart(r: Run, cs: seq<Run>, i: nat, j: nat)
    requires Siblings(r, cs) && i < j < |cs|
    ensures Parts(Marks(cs[i]), Marks(cs[j]))
  {
    PartsAtEnd(Marks(r), HopMark(cs[i]), HopMark(cs[j]));
  }

  // ---- Depth first ----

  lemma OrderedConcat(before: (Run, Run) -> bool, a: seq<Run>, b: seq<Run>)
    requires Ordered(before, a) && Ordered(before, b) && forall x, y :: x in a && y in b ==> before(x, y)
    ensures Ordered(before, a + b)
  {
    var s := a + b;
    forall i, j | 0 <= i < j < |s| ensures before(s[i], s[j]) {
      if i < |a| <= j { assert a[i] in a && b[j - |a|] in b && s[j] == b[j - |a|]; }
      if |a| <= i { assert s[i] == b[i - |a|] && s[j] == b[j - |a|]; }
    }
  }

  lemma DeepConcat(a: seq<Run>, b: seq<Run>)
    requires DeepOrder(a) && DeepOrder(b) && forall x, y :: x in a && y in b ==> DeepBefore(x, y)
    ensures DeepOrder(a + b)
  {
    hide DeepBefore;
    OrderedConcat(DeepBefore, a, b);
  }

  lemma {:induction false} VisitInOrder(g: Graph, q: Query, lim: Limits, r: Run)
    requires Len(r) <= lim.maxPathLen
    ensures DeepOrder(Visit(g, q, lim, r))
    decreases Room(lim, Len(r)), 0, 0
  {
    if !TooDeep(lim, r) && Idx(r) < |q.steps| {
      var cs := Children(g, q, r);
      ChildrenOrdered(g, q, r);
      ChildrenExact(g, q, r);
      VisitAllInOrder(g, q, lim, r, cs);
      VisitAllExact(g, q, lim, r, cs);
      var rest := VisitAll(g, q, lim, r, cs);
      forall y | y in rest ensures DeepBefore(r, y) {
        var c :| c in cs && Reaches(g, q, c, y);
        ReachesFromChild(g, q, r, c, y);
        ReachesMarks(g, q, r, y);
      }
      hide DeepBefore;
      DeepConcat([r], rest);
    }
  }

  lemma {:induction false} VisitAllInOrder(g: Graph, q: Query, lim: Limits, r: Run, cs: seq<Run>)
    requires Len(r) < lim.maxPathLen && Siblings(r, cs)
    ensures DeepOrder(VisitAll(g, q, lim, r, cs))
    decreases Room(lim, Len(r) + 1), 1, |cs|
  {
    if cs != [] {
      VisitInOrder(g, q, lim, cs[0]);
      VisitAllInOrder(g, q, lim, r, cs[1..]);
      VisitExact(g, q, lim, cs[0]);
      SiblingsDistinct(r, cs[1..]);
      VisitAllExact(g, q, lim, r, cs[1..]);
      forall x, y | x in Visit(g, q, lim, cs[0]) && y in VisitAll(g, q, lim, r, cs[1..]) ensures DeepBefore(x, y) {
        var c :| c in cs[1..] && Reaches(g, q, c, y);
        var j :| 0 <= j < |cs[1..]| && cs[1..][j] == c;
        SiblingsPart(r, cs, 0, j + 1);
        ReachesMarks(g, q, cs[0], x);
        ReachesMarks(g, q, c, y);
        PartsLonger(Marks(cs[0]), Marks(c), Marks(x), Marks(y));
      }
      hide DeepBefore;
      DeepConcat(Visit(g, q, lim, cs[0]), VisitAll(g, q, lim, r, cs[1..]));
    }
  }

  lemma SiblingsDistinct(r: Run, cs: seq<Run>)
    requires Siblings(r, cs)
    ensures Distinct(cs)
  {}

  /** Roots that part from one another in order are searched in order. */
  lemma {:induction false} RootsInOrder(g: Graph, q: Query, lim: Limits, roots: seq<Run>)
    requires forall i :: 0 <= i < |roots| ==> Len(roots[i]) <= lim.maxPathLen
    requires forall i, j :: 0 <= i < j < |roots| ==> Parts(Marks(roots[i]), Marks(roots[j]))
    ensures DeepOrder(VisitRoots(g, q, lim, roots))
    ensures forall x :: x in VisitRoots(g, q, lim, roots) ==> ReachedFrom(g, q, roots, x)
  {
    hide Parts;
    if roots != [] {
      var r, t := roots[0], roots[1..];
      RootsInOrder(g, q, lim, t);
      VisitInOrder(g, q, lim, r);
      VisitExact(g, q, lim, r);
      forall x, y | x in Visit(g, q, lim, r) && y in VisitRoots(g, q, lim, t) ensures DeepBefore(x, y) {
        var j :| 0 <= j < |t| && Reaches(g, q, t[j], y);
        assert roots[j + 1] == t[j];
        ReachesMarks(g, q, r, x);
        ReachesMarks(g, q, t[j], y);
        PartsLonger(Marks(r), Marks(t[j]), Marks(x), Marks(y));
      }
      forall x | x in VisitRoots(g, q, lim, t) ensures ReachedFrom(g, q, roots, x) {
        var j :| 0 <= j < |t| && Reaches(g, q, t[j], x);
        assert roots[j + 1] == t[j];
      }
      hide DeepBefore;
      DeepConcat(Visit(g, q, lim, r), VisitRoots(g, q, lim, t));
    }
  }

  /** Start runs, of ascending vertices. */
  predicate StartsRise(s: seq<Run>, to: nat) {
    && (forall i :: 0 <= i < |s| ==> s[i].Start? && s[i].vertex < to)
    && forall i, j :: 0 <= i < j < |s| ==> s[i].Start? && s[j].Start? && s[i].vertex < s[j].vertex
  }

  lemma RiseSnoc(s: seq<Run>, r: Run, to: nat)
    requires StartsRise(s, to) && r.Start? && r.vertex == to
    ensures StartsRise(s + [r], to + 1)
  {}

  lemma {:induction false} StartsInOrder(g: Graph, q: Query, from: nat, to: nat)
    requires to <= |g.vertices| && |q.steps| > 0
    ensures StartsRise(Starts(g, q, from, to), to)
  {
    if from < to {
      StartsInOrder(g, q, from, to - 1);
      RiseSnoc(Starts(g, q, from, to - 1), StartAt(g, to - 1), to - 1);
      assert Starts(g, q, from, to - 1) + [] == Starts(g, q, from, to - 1);
    }
  }

  lemma StartsPart(a: Run, b: Run)
    requires a.Start? && b.Start? && a.vertex < b.vertex
    ensures Parts(Marks(a), Marks(b))
  {
    assert Marks(a)[..0] == Marks(b)[..0];
  }

  /** M-CET visits the runs in order. */
  lemma McetInOrder(g: Graph, q: Query, lim: Limits)
    requires |q.steps| > 0 && lim.maxPathLen >= 1
    ensures DeepOrder(McetVisits(g, q, lim))
  {
    hide Parts, DeepBefore, Marks, Starts;
    var s := Starts(g, q, 0, |g.vertices|);
    StartsInOrder(g, q, 0, |g.vertices|);
    forall i, j | 0 <= i < j < |s| ensures Parts(Marks(s[i]), Marks(s[j])) { StartsPart(s[i], s[j]); }
    RootsInOrder(g, q, lim, s);
  }

  lemma {:induction false} ShallowInOrder(before: (Run, Run) -> bool, lim: Limits, s: seq<Run>)
    requires Ordered(before, s)
    ensures Ordered(before, Shallow(lim, s)) && forall r :: r in Shallow(lim, s) <==> r in s && !TooDeep(lim, r)
  {
    if s != [] {
      var t, r := s[..|s| - 1], s[|s| - 1];
      assert s == t + [r];
      ShallowInOrder(before, lim, t);
      forall x | x in t ensures before(x, r) { var i :| 0 <= i < |t| && t[i] == x; }
      OrderedConcat(before, Shallow(lim, t), [r]);
    }
  }

  lemma {:induction false} FinishedInOrder(before: (Run, Run) -> bool, q: Query, s: seq<Run>)
    requires Ordered(before, s)
    ensures Ordered(before, Finished(q, s))
  {
    if s == [] {
      assert Finished(q, s) == [];
    } else {
      var t, r := s[..|s| - 1], s[|s| - 1];
      assert s == t + [r];
      FinishedInOrder(before, q, t);
      FinishedSnoc(q, t, r);
      FinishedLast(before, q, t, r);
    }
  }

  lemma FinishedLast(before: (Run, Run) -> bool, q: Query, t: seq<Run>, r: Run)
    requires Ordered(before, t + [r]) && Ordered(before, Finished(q, t))
    ensures Ordered(before, Finished(q, t) + [r])
  {
    hide Finished;
    var s := t + [r];
    forall x | x in Finished(q, t) ensures before(x, r) {
      FinishedMembers(q, t, x);
      var i :| 0 <= i < |t| && t[i] == x;
      assert s[i] == x && s[|t|] == r;
    }
    OrderedConcat(before, Finished(q, t), [r]);
  }

  /** M-CET emits the first accepting runs that fit the path buffer, at most a table full of them:
      every other such run comes after them, and there is another only if the table is full. */
  lemma McetKeepsFirst(g: Graph, q: Query, lim: Limits) returns (runs: seq<Run>)
    requires |q.steps| > 0 && lim.maxPathLen >= 1
    ensures McetOutcome(g, q, lim).paths == Paths(runs) && |runs| <= lim.maxPaths && DeepOrder(runs)
    ensures forall r :: r in runs ==> Accepting(g, q, r) && Len(r) < lim.maxPathLen
    ensures forall x :: Accepting(g, q, x) && Len(x) < lim.maxPathLen && x !in runs ==>
      |runs| == lim.maxPaths && forall i :: 0 <= i < |runs| ==> DeepBefore(runs[i], x)
  {
    hide DeepBefore, Accepting, Finished, Shallow, QueueRejects, Deepest, McetOutcome, McetVisits, Paths;
    var vis := McetVisits(g, q, lim);
    var all := Finished(q, Shallow(lim, vis));
    McetClips(g, q, lim);
    McetInOrder(g, q, lim);
    McetVisitsExact(g, q, lim);
    ShallowInOrder(DeepBefore, lim, vis);
    FinishedInOrder(DeepBefore, q, Shallow(lim, vis));
    forall x ensures x in all <==> Accepting(g, q, x) && Len(x) < lim.maxPathLen { AllAccepting(g, q, lim, vis, x); }
    runs := FirstOf(DeepBefore, all, lim.maxPaths);
  }

  lemma McetClips(g: Graph, q: Query, lim: Limits)
    requires |q.steps| > 0
    ensures McetOutcome(g, q, lim).paths == Clip(Paths(Finished(q, Shallow(lim, McetVisits(g, q, lim)))), lim.maxPaths)
  {
    hide Finished, Shallow, QueueRejects, Deepest, Paths, AfterAll;
    var vis := McetVisits(g, q, lim);
    AfterAllVisited(g, q, lim, Fresh, vis);
    assert [] + Paths(Finished(q, Shallow(lim, vis))) == Paths(Finished(q, Shallow(lim, vis)));
  }

  lemma FirstOf(before: (Run, Run) -> bool, all: seq<Run>, n: nat) returns (runs: seq<Run>)
    requires Ordered(before, all)
    ensures Paths(runs) == Clip(Paths(all), n) && |runs| <= n && Ordered(before, runs) && forall r :: r in runs ==> r in all
    ensures forall x :: x in all && x !in runs ==> |runs| == n && forall i :: 0 <= i < |runs| ==> before(runs[i], x)
  {
    hide Paths;
    runs := if |all| <= n then all else all[..n];
    if |all| > n { PathsTake(all, n); }
    assert forall i :: 0 <= i < |runs| ==> runs[i] == all[i];
    forall x, i | x in all && x !in runs && 0 <= i < |runs| ensures before(runs[i], x) {
      var j :| 0 <= j < |all| && all[j] == x;
    }
  }

  lemma AllAccepting(g: Graph, q: Query, lim: Limits, vis: seq<Run>, x: Run)
    requires forall r :: r in vis <==> InShard(g, q, 0, |g.vertices|, r) && Len(r) <= lim.maxPathLen
    requires forall r :: r in Shallow(lim, vis) <==> r in vis && !TooDeep(lim, r)
    ensures x in Finished(q, Shallow(lim, vis)) <==> Accepting(g, q, x) && Len(x) < lim.maxPathLen
  {
    FinishedMembers(q, Shallow(lim, vis), x);
    if Partial(g, q, x) { IdxBounded(g, q, x); }
  }

  // ---- Breadth first ----

  ghost predicate AllBefore(s: seq<Run>, x: Run) {
    forall i :: 0 <= i < |s| ==> BroadBefore(s[i], x)
  }

  /** x is in the queue, or the queue is full of runs that come before it. */
  ghost predicate QueuedOrLate(lim: Limits, s: seq<Run>, x: Run) {
    x in s || (|s| == lim.maxPaths && AllBefore(s, x))
  }

  /** A start is turned away if it is the first one that is not queued: the others are not tried. */
  ghost predicate LostStart(g: Graph, q: Query, from: nat, to: nat, s: seq<Run>, x: Run) {
    && IsStart(g, q, x) && from <= x.vertex < to && x !in s
    && forall y :: IsStart(g, q, y) && from <= y.vertex < x.vertex ==> y in s
  }

  /** A continuation of a popped run is turned away if it is not queued; of those over one edge that
      are too long only the first is tried. */
  ghost predicate LostChild(g: Graph, q: Query, lim: Limits, s: seq<Run>, head: nat, x: Run)
    requires head <= |s|
  {
    && x.Take? && x.prev in s[..head] && IsChild(g, q, x.prev, x) && x !in s
    && (Len(x.prev) >= lim.maxPathLen ==> FirstChoice(q, x.prev, x))
  }

  ghost predicate StartsTried(g: Graph, q: Query, lim: Limits, from: nat, to: nat, t: Trace) {
    forall x :: IsStart(g, q, x) && from <= x.vertex < to ==> QueuedOrLate(lim, t.queue, x)
  }

  ghost predicate ChildrenTried(g: Graph, q: Query, lim: Limits, t: Trace, head: nat)
    requires head <= |t.queue|
  {
    forall r, x :: r in t.queue[..head] && IsChild(g, q, r, x) && Len(x) <= lim.maxPathLen ==> QueuedOrLate(lim, t.queue, x)
  }

  ghost predicate LostExactly(g: Graph, q: Query, lim: Limits, from: nat, to: nat, t: Trace, head: nat)
    requires head <= |t.queue|
  {
    forall x :: x in t.lost <==> LostStart(g, q, from, to, t.queue, x) || LostChild(g, q, lim, t.queue, head, x)
  }

  ghost predicate QueueInv(g: Graph, q: Query, lim: Limits, from: nat, to: nat, t: Trace, head: nat) {
    && Inv(g, q, lim, from, to, t, head) && BroadOrder(t.queue)
    && StartsTried(g, q, lim, from, to, t) && ChildrenTried(g, q, lim, t, head) && LostExactly(g, q, lim, from, to, t, head)
  }

  /** A child of the run at head comes after everything queued so far. */
  lemma ChildAfter(g: Graph, q: Query, t: Trace, head: nat, c: Run)
    requires head < |t.queue| && FromPopped(t, head) && BroadOrder(t.queue) && IsChild(g, q, t.queue[head], c)
    ensures AllBefore(t.queue, c)
  {
    var r := t.queue[head];
    forall i | 0 <= i < |t.queue| ensures BroadBefore(t.queue[i], c) {
      var y := t.queue[i];
      assert y in t.queue + t.lost;
      if y.Take? {
        var j :| 0 <= j < head && t.queue[..head][j] == y.prev;
        assert BroadBefore(t.queue[j], r);
        if Len(y.prev) == Len(r) { PartsLonger(Marks(y.prev), Marks(r), Marks(y), Marks(c)); }
      }
    }
  }

  lemma BroadSiblings(r: Run, cs: seq<Run>, i: nat, j: nat)
    requires Siblings(r, cs) && i < j < |cs|
    ensures BroadBefore(cs[i], cs[j])
  {
    SiblingsPart(r, cs, i, j);
  }

  /** ins goes into the queue and outs is turned away when the run at head is popped. */
  ghost predicate Pops(g: Graph, q: Query, lim: Limits, t: Trace, head: nat, ins: seq<Run>, outs: seq<Run>)
    requires head < |t.queue|
  {
    var r := t.queue[head];
    && |t.queue + ins| <= lim.maxPaths
    && Siblings(r, ins) && (forall c :: c in ins || c in outs ==> IsChild(g, q, r, c))
    && (forall c :: IsChild(g, q, r, c) && Len(r) < lim.maxPathLen ==> c in ins || c in outs)
    && (forall c :: c in ins ==> c !in outs)
    && (Len(r) >= lim.maxPathLen ==> ins == [] && forall c :: c in outs <==> IsChild(g, q, r, c) && FirstChoice(q, r, c))
    && (outs != [] && Len(r) < lim.maxPathLen ==> |t.queue + ins| == lim.maxPaths)
    && forall i, c :: 0 <= i < |ins| && c in outs && Len(r) < lim.maxPathLen ==> BroadBefore(ins[i], c)
  }

  lemma PopHow(g: Graph, q: Query, lim: Limits, t: Trace, head: nat) returns (ins: seq<Run>, outs: seq<Run>)
    requires |t.queue| <= lim.maxPaths && head < |t.queue|
    ensures BfsPop(g, q, lim, t, t.queue[head]) == Trace(t.queue + ins, t.lost + outs)
    ensures Idx(t.queue[head]) < |q.steps| ==> Pops(g, q, lim, t, head, ins, outs)
    ensures Idx(t.queue[head]) >= |q.steps| ==> ins == [] && outs == []
  {
    hide IsChild, BroadBefore, FirstChoice, EdgeGate;
    var r := t.queue[head];
    if Idx(r) >= |q.steps| {
      ins, outs := [], [];
      assert t.queue + [] == t.queue && t.lost + [] == t.lost;
    } else {
      ChildrenExact(g, q, r);
      ChildrenOrdered(g, q, r);
      if Len(r) < lim.maxPathLen {
        ins, outs := PopPushes(g, q, lim, t, r);
        SplitSiblings(r, Children(g, q, r), ins, outs);
        QueueBounded(g, q, lim, t, r, ins, outs);
      } else {
        ins := [];
        outs := PopDrops(g, q, lim, t, r);
        assert t.queue + [] == t.queue;
      }
    }
  }

  lemma QueueBounded(g: Graph, q: Query, lim: Limits, t: Trace, r: Run, ins: seq<Run>, outs: seq<Run>)
    requires |t.queue| <= lim.maxPaths && BfsPop(g, q, lim, t, r) == Trace(t.queue + ins, t.lost + outs)
    ensures |t.queue + ins| <= lim.maxPaths
  {}

  lemma SplitSiblings(r: Run, cs: seq<Run>, ins: seq<Run>, outs: seq<Run>)
    requires Siblings(r, cs) && ins + outs == cs
    ensures Siblings(r, ins) && (forall c :: c in cs <==> c in ins || c in outs) && (forall c :: c in ins ==> c !in outs)
    ensures forall i, c :: 0 <= i < |ins| && c in outs ==> BroadBefore(ins[i], c)
  {
    assert forall i :: 0 <= i < |ins| ==> cs[i] == ins[i];
    assert forall i :: 0 <= i < |outs| ==> cs[|ins| + i] == outs[i];
    SiblingsDistinct(r, cs);
    forall i, c | 0 <= i < |ins| && c in outs ensures BroadBefore(ins[i], c) {
      var j :| 0 <= j < |outs| && outs[j] == c;
      BroadSiblings(r, cs, i, |ins| + j);
    }
  }

  lemma PopKeepsOrder(g: Graph, q: Query, lim: Limits, t: Trace, head: nat, ins: seq<Run>, outs: seq<Run>)
    requires head < |t.queue| && FromPopped(t, head) && BroadOrder(t.queue) && Pops(g, q, lim, t, head, ins, outs)
    ensures BroadOrder(t.queue + ins)
    ensures forall c :: IsChild(g, q, t.queue[head], c) ==> AllBefore(t.queue, c)
  {
    hide IsChild, BroadBefore, FirstChoice, Siblings;
    var s, r := t.queue + ins, t.queue[head];
    forall c | IsChild(g, q, r, c) ensures AllBefore(t.queue, c) { ChildAfter(g, q, t, head, c); }
    forall i, j | 0 <= i < j < |s| ensures BroadBefore(s[i], s[j]) {
      var n := |t.queue|;
      if j >= n {
        assert ins[j - n] in ins;
        if i >= n { BroadSiblings(r, ins, i - n, j - n); } else { assert AllBefore(t.queue, ins[j - n]); }
      }
    }
  }

  lemma QueuedStays(lim: Limits, s: seq<Run>, ins: seq<Run>, x: Run)
    requires QueuedOrLate(lim, s, x) && |s + ins| <= lim.maxPaths
    ensures QueuedOrLate(lim, s + ins, x)
  {
    if x !in s { assert ins == [] && s + ins == s; }
  }

  lemma PopKeepsTried(g: Graph, q: Query, lim: Limits, from: nat, to: nat, t: Trace, head: nat, ins: seq<Run>, outs: seq<Run>)
    requires head < |t.queue| && FromPopped(t, head) && BroadOrder(t.queue) && Pops(g, q, lim, t, head, ins, outs)
    requires StartsTried(g, q, lim, from, to, t) && ChildrenTried(g, q, lim, t, head)
    ensures var t' := Trace(t.queue + ins, t.lost + outs); StartsTried(g, q, lim, from, to, t') && ChildrenTried(g, q, lim, t', head + 1)
  {
    hide IsChild, BroadBefore, FirstChoice, Siblings;
    var r, s := t.queue[head], t.queue + ins;
    PopKeepsOrder(g, q, lim, t, head, ins, outs);
    forall x | IsStart(g, q, x) && from <= x.vertex < to ensures QueuedOrLate(lim, s, x) { QueuedStays(lim, t.queue, ins, x); }
    assert s[..head + 1] == t.queue[..head] + [r];
    forall p, x | p in s[..head + 1] && IsChild(g, q, p, x) && Len(x) <= lim.maxPathLen ensures QueuedOrLate(lim, s, x) {
      if p == r {
        ChildLonger(g, q, r, x);
        if x !in ins { LateChild(lim, t.queue, ins, x); }
      } else {
        assert p in t.queue[..head];
        QueuedStays(lim, t.queue, ins, x);
      }
    }
  }

  lemma ChildLonger(g: Graph, q: Query, r: Run, x: Run)
    requires IsChild(g, q, r, x)
    ensures Len(x) == Len(r) + 1
  {}

  lemma LateChild(lim: Limits, s: seq<Run>, ins: seq<Run>, x: Run)
    requires AllBefore(s, x) && (forall i :: 0 <= i < |ins| ==> BroadBefore(ins[i], x)) && |s + ins| == lim.maxPaths
    ensures QueuedOrLate(lim, s + ins, x)
  {}

  lemma PopKeepsLost(g: Graph, q: Query, lim: Limits, from: nat, to: nat, t: Trace, head: nat, ins: seq<Run>, outs: seq<Run>)
    requires head < |t.queue| && FromPopped(t, head) && Distinct(t.queue + t.lost) && Pops(g, q, lim, t, head, ins, outs)
    requires LostExactly(g, q, lim, from, to, t, head)
    ensures LostExactly(g, q, lim, from, to, Trace(t.queue + ins, t.lost + outs), head + 1)
  {
    hide IsChild, BroadBefore, FirstChoice, Siblings;
    var r, s := t.queue[head], t.queue + ins;
    NotYetPopped(t, head);
    assert s[..head + 1] == t.queue[..head] + [r];
    forall x ensures LostChild(g, q, lim, s, head + 1, x) <==> LostChild(g, q, lim, t.queue, head, x) || x in outs {
      LostChildStep(g, q, lim, t, head, ins, outs, x);
    }
    forall x | x in ins ensures x.Take? { ChildTaken(g, q, r, x); }
    forall x ensures LostStart(g, q, from, to, s, x) <==> LostStart(g, q, from, to, t.queue, x) {}
  }

  lemma ChildTaken(g: Graph, q: Query, r: Run, x: Run)
    requires IsChild(g, q, r, x)
    ensures x.Take? && x.prev == r
  {}

  lemma LostChildStep(g: Graph, q: Query, lim: Limits, t: Trace, head: nat, ins: seq<Run>, outs: seq<Run>, x: Run)
    requires head < |t.queue| && FromPopped(t, head) && t.queue[head] !in t.queue[..head] && Pops(g, q, lim, t, head, ins, outs)
    ensures LostChild(g, q, lim, t.queue + ins, head + 1, x) <==> LostChild(g, q, lim, t.queue, head, x) || x in outs
  {
    var r, s := t.queue[head], t.queue + ins;
    hide IsChild, BroadBefore, FirstChoice, Siblings;
    assert s[..head + 1] == t.queue[..head] + [r];
    if x.Take? && x.prev == r {
      assert x in t.queue ==> x in t.queue + t.lost;
    }
    forall c | c in ins || c in outs ensures c.Take? && c.prev == r { ChildTaken(g, q, r, c); }
  }

  lemma {:induction false} BfsKeepsInv(g: Graph, q: Query, lim: Limits, from: nat, to: nat, t: Trace, head: nat)
    requires QueueInv(g, q, lim, from, to, t, head)
    ensures var t' := BfsFrom(g, q, lim, t, head); QueueInv(g, q, lim, from, to, t', |t'.queue|)
    decreases lim.maxPaths - head
  {
    hide QueueInv, BfsPop;
    HeadBounded(g, q, lim, from, to, t, head);
    if head < |t.queue| {
      PopKeepsAll(g, q, lim, from, to, t, head);
      BfsKeepsInv(g, q, lim, from, to, BfsPop(g, q, lim, t, t.queue[head]), head + 1);
    }
  }

  lemma HeadBounded(g: Graph, q: Query, lim: Limits, from: nat, to: nat, t: Trace, head: nat)
    requires QueueInv(g, q, lim, from, to, t, head)
    ensures head <= |t.queue| <= lim.maxPaths
  {}

  lemma PopKeepsAll(g: Graph, q: Query, lim: Limits, from: nat, to: nat, t: Trace, head: nat)
    requires QueueInv(g, q, lim, from, to, t, head) && head < |t.queue|
    ensures QueueInv(g, q, lim, from, to, BfsPop(g, q, lim, t, t.queue[head]), head + 1)
  {
    hide BroadOrder, StartsTried, ChildrenTried, LostExactly, Pops, Layered, Closed, LostForCause;
    PopKeepsInv(g, q, lim, from, to, t, head);
    var ins, outs := PopHow(g, q, lim, t, head);
    if Idx(t.queue[head]) < |q.steps| {
      PopKeepsOrder(g, q, lim, t, head, ins, outs);
      PopKeepsTried(g, q, lim, from, to, t, head, ins, outs);
      PopKeepsLost(g, q, lim, from, to, t, head, ins, outs);
    } else {
      assert t.queue + [] == t.queue && t.lost + [] == t.lost;
      FinishedPop(g, q, lim, from, to, t, head);
    }
  }

  lemma FinishedPop(g: Graph, q: Query, lim: Limits, from: nat, to: nat, t: Trace, head: nat)
    requires head < |t.queue| && Idx(t.queue[head]) >= |q.steps|
    requires ChildrenTried(g, q, lim, t, head) && LostExactly(g, q, lim, from, to, t, head)
    ensures ChildrenTried(g, q, lim, t, head + 1) && LostExactly(g, q, lim, from, to, t, head + 1)
  {
    FinishedHasNoChild(g, q, t.queue[head]);
    hide IsChild;
    assert t.queue[..head + 1] == t.queue[..head] + [t.queue[head]];
    forall x ensures LostChild(g, q, lim, t.queue, head + 1, x) <==> LostChild(g, q, lim, t.queue, head, x) {}
  }

  // ---- The start states ----

  /** The queue holds the start runs of from..to, in order. */
  ghost predicate HoldsStarts(g: Graph, q: Query, from: nat, to: nat, s: seq<Run>) {
    && (forall r :: r in s <==> IsStart(g, q, r) && from <= r.vertex < to)
    && forall i, j :: 0 <= i < j < |s| ==> s[i].Start? && s[j].Start? && s[i].vertex < s[j].vertex
  }

  /** The starts before vertex `end` are queued; if that is not all, the queue is full and the one
      there was turned away. */
  ghost predicate StartsOutcome(g: Graph, q: Query, lim: Limits, from: nat, end: nat, to: nat, t: Trace)
    requires |q.steps| > 0 && end <= to <= |g.vertices|
  {
    && HoldsStarts(g, q, from, end, t.queue) && (end == to ==> t.lost == [])
    && (end < to ==> |t.queue| == lim.maxPaths && IsStart(g, q, StartAt(g, end)) && t.lost == [StartAt(g, end)])
  }

  lemma {:induction false} StartsPushed(g: Graph, q: Query, lim: Limits, from: nat, mid: nat, to: nat, t: Trace) returns (end: nat)
    requires from <= mid <= to <= |g.vertices| && |q.steps| > 0 && |t.queue| <= lim.maxPaths
    requires t.lost == [] && HoldsStarts(g, q, from, mid, t.queue)
    ensures mid <= end <= to && StartsOutcome(g, q, lim, from, end, to, PushStarts(g, q, lim, t, mid, to))
    decreases if mid < to then to - mid else 0
  {
    end := mid;
    if mid < to {
      var s := StartAt(g, mid);
      if g.vertices[mid].eventType != q.steps[0].name {
        end := StartsPushed(g, q, lim, from, mid + 1, to, t);
      } else if |t.queue| < lim.maxPaths {
        MoreStarts(g, q, from, mid, t.queue);
        end := StartsPushed(g, q, lim, from, mid + 1, to, Push(lim, t, s));
      } else {
        assert t.lost + [s] == [s];
      }
    }
  }

  lemma MoreStarts(g: Graph, q: Query, from: nat, mid: nat, s: seq<Run>)
    requires from <= mid < |g.vertices| && HoldsStarts(g, q, from, mid, s) && IsStart(g, q, StartAt(g, mid))
    ensures HoldsStarts(g, q, from, mid + 1, s + [StartAt(g, mid)])
  {
    var x, s' := StartAt(g, mid), s + [StartAt(g, mid)];
    forall i | 0 <= i < |s| ensures s[i].Start? && s[i].vertex < mid { assert s[i] in s; }
    forall r ensures r in s' <==> r in s || r == x {}
  }

  lemma StartsHold(g: Graph, q: Query, lim: Limits, from: nat, to: nat)
    requires from <= to <= |g.vertices| && |q.steps| > 0
    ensures var t := PushStarts(g, q, lim, Trace([], []), from, to); QueueInv(g, q, lim, from, to, t, 0)
  {
    hide Inv;
    StartsInv(g, q, lim, from, to);
    var end := StartsPushed(g, q, lim, from, from, to, Trace([], []));
    var t := PushStarts(g, q, lim, Trace([], []), from, to);
    QueueOfStarts(g, q, lim, from, end, to, t);
  }

  lemma QueueOfStarts(g: Graph, q: Query, lim: Limits, from: nat, end: nat, to: nat, t: Trace)
    requires |q.steps| > 0 && from <= end <= to <= |g.vertices| && StartsOutcome(g, q, lim, from, end, to, t)
    ensures BroadOrder(t.queue) && StartsTried(g, q, lim, from, to, t) && ChildrenTried(g, q, lim, t, 0) && LostExactly(g, q, lim, from, to, t, 0)
  {
    hide IsChild, FirstChoice, Parts, Marks;
    forall i, j | 0 <= i < j < |t.queue| ensures BroadBefore(t.queue[i], t.queue[j]) { StartsPart(t.queue[i], t.queue[j]); }
    forall x | IsStart(g, q, x) && end <= x.vertex < to ensures QueuedOrLate(lim, t.queue, x) {
      forall i | 0 <= i < |t.queue| ensures BroadBefore(t.queue[i], x) {
        assert t.queue[i] in t.queue;
        StartsPart(t.queue[i], x);
      }
    }
    assert t.queue[..0] == [];
    if end < to { assert StartAt(g, end) !in t.queue; }
    forall x ensures x in t.lost <==> LostStart(g, q, from, to, t.queue, x) {
      if end < to && IsStart(g, q, x) && x.vertex == end { assert x == StartAt(g, end); }
    }
  }

  lemma TraceInOrder(g: Graph, q: Query, lim: Limits, begin: nat, end: nat)
    requires |q.steps| > 0
    ensures var t := TcetTrace(g, q, lim, begin, end);
      QueueInv(g, q, lim, Clamp(begin, |g.vertices|), ShardEnd(g, begin, end), t, |t.queue|)
  {
    hide QueueInv;
    var from, to := Clamp(begin, |g.vertices|), Clamp(end, |g.vertices|);
    StartsHold(g, q, lim, from, ShardEnd(g, begin, end));
    assert PushStarts(g, q, lim, Trace([], []), from, to) == PushStarts(g, q, lim, Trace([], []), from, ShardEnd(g, begin, end));
    BfsKeepsInv(g, q, lim, from, ShardEnd(g, begin, end), PushStarts(g, q, lim, Trace([], []), from, to), 0);
  }

  /** Every run that fits the path buffer is queued, or comes after a full queue. */
  lemma {:induction false} QueuedFirst(g: Graph, q: Query, lim: Limits, from: nat, to: nat, t: Trace, x: Run)
    requires QueueInv(g, q, lim, from, to, t, |t.queue|) && InShard(g, q, from, to, x) && Len(x) <= lim.maxPathLen
    ensures QueuedOrLate(lim, t.queue, x)
  {
    hide Inv, LostExactly, BroadOrder;
    if x.Take? {
      QueuedFirst(g, q, lim, from, to, t, x.prev);
      assert IsChild(g, q, x.prev, x) && t.queue[..|t.queue|] == t.queue;
      if x.prev !in t.queue {
        forall i | 0 <= i < |t.queue| ensures BroadBefore(t.queue[i], x) { assert BroadBefore(t.queue[i], x.prev); }
      }
    }
  }

  /** T-CET queues the first runs that fit the path buffer, at most a queue full of them, and emits the
      accepting ones; what it counts as turned away are the tries that failed. */
  lemma TcetKeepsFirst(g: Graph, q: Query, lim: Limits, begin: nat, end: nat) returns (s: seq<Run>, lost: seq<Run>)
    requires |q.steps| > 0 && lim.maxPathLen >= 1
    ensures var from, to, o := Clamp(begin, |g.vertices|), ShardEnd(g, begin, end), TcetOutcome(g, q, lim, begin, end);
      && BroadOrder(s) && |s| <= lim.maxPaths && (forall r :: r in s ==> InShard(g, q, from, to, r) && Len(r) <= lim.maxPathLen)
      && (forall x :: InShard(g, q, from, to, x) && Len(x) <= lim.maxPathLen ==> QueuedOrLate(lim, s, x))
      && o.paths == Paths(Finished(q, s)) && o.c.statesEnqueued == |s|
      && o.c.statesTruncated == |lost| && Distinct(lost)
      && forall x :: x in lost <==> LostStart(g, q, from, to, s, x) || LostChild(g, q, lim, s, |s|, x)
    ensures TcetTrace(g, q, lim, begin, end) == Trace(s, lost)
  {
    hide BroadOrder, Layered, Closed, LostForCause, LostStart, LostChild, QueuedOrLate, StartsTried, ChildrenTried, Finished, QueueRejects, InShard;
    var from, to, t := Clamp(begin, |g.vertices|), ShardEnd(g, begin, end), TcetTrace(g, q, lim, begin, end);
    s, lost := t.queue, t.lost;
    TraceInOrder(g, q, lim, begin, end);
    TraceStaysShort(g, q, lim, begin, end);
    forall r | r in s ensures Len(r) <= lim.maxPathLen {
      var i :| 0 <= i < |s| && s[i] == r;
      DeepestCovers(s, i);
    }
    forall x | InShard(g, q, from, to, x) && Len(x) <= lim.maxPathLen ensures QueuedOrLate(lim, s, x) { QueuedFirst(g, q, lim, from, to, t, x); }
    LostDistinct(t);
  }

  lemma LostDistinct(t: Trace)
    requires Distinct(t.queue + t.lost)
    ensures Distinct(t.lost)
  {
    var s := t.queue + t.lost;
    assert forall i :: 0 <= i < |t.lost| ==> s[|t.queue| + i] == t.lost[i];
  }

  // ---- Both, one after the other ----

  /** Resumed runs come seed by seed, and depth first from each. */
  predicate LateBefore(n: nat, a: Run, b: Run) {
    BroadBefore(First(a, n), First(b, n)) || (First(a, n) == First(b, n) && DeepBefore(a, b))
  }

  function LateOrder(n: nat): (Run, Run) -> bool { (a: Run, b: Run) => LateBefore(n, a, b) }

  lemma {:induction false} RebaseMarks(g: Graph, r: Run)
    ensures Marks(Rebase(g, r)) == Marks(r)
  {
    RebaseSpells(g, r);
    if r.Take? { RebaseMarks(g, r.prev); }
  }

  /** A run that has just reached index n. */
  predicate JustThere(r: Run, n: nat) { Idx(r) >= n && (r.Take? ==> Idx(r.prev) < n) }

  lemma {:induction false} SeedsInOrder(g: Graph, q: Query, lim: Limits, n: nat, roots: seq<Run>)
    requires BroadOrder(roots) && forall i :: 0 <= i < |roots| ==> Len(roots[i]) <= lim.maxPathLen && JustThere(roots[i], n)
    ensures Ordered(LateOrder(n), VisitRoots(g, q, lim, roots))
    ensures forall x :: x in VisitRoots(g, q, lim, roots) ==> ReachedFrom(g, q, roots, x)
  {
    hide BroadBefore, DeepBefore, JustThere;
    if roots != [] {
      var r, t := roots[0], roots[1..];
      assert forall i :: 0 <= i < |t| ==> t[i] == roots[i + 1];
      SeedsInOrder(g, q, lim, n, t);
      VisitExact(g, q, lim, r);
      OneSeedInOrder(g, q, lim, n, r);
      forall x, y | x in Visit(g, q, lim, r) && y in VisitRoots(g, q, lim, t) ensures LateOrder(n)(x, y) {
        var j :| 0 <= j < |t| && Reaches(g, q, t[j], y);
        JustFirst(g, q, n, r, x);
        JustFirst(g, q, n, t[j], y);
        assert BroadBefore(roots[0], roots[j + 1]);
      }
      forall x | x in VisitRoots(g, q, lim, t) ensures ReachedFrom(g, q, roots, x) {
        var j :| 0 <= j < |t| && Reaches(g, q, t[j], x);
        assert roots[j + 1] == t[j];
      }
      OrderedConcat(LateOrder(n), Visit(g, q, lim, r), VisitRoots(g, q, lim, t));
    }
  }

  lemma JustFirst(g: Graph, q: Query, n: nat, f: Run, x: Run)
    requires JustThere(f, n) && Reaches(g, q, f, x)
    ensures First(x, n) == f
  {
    FirstUnique(g, q, n, f, x);
  }

  lemma OneSeedInOrder(g: Graph, q: Query, lim: Limits, n: nat, r: Run)
    requires Len(r) <= lim.maxPathLen && JustThere(r, n)
    ensures Ordered(LateOrder(n), Visit(g, q, lim, r))
  {
    hide BroadBefore, DeepBefore, JustThere;
    var vis := Visit(g, q, lim, r);
    VisitInOrder(g, q, lim, r);
    VisitExact(g, q, lim, r);
    forall i, j | 0 <= i < j < |vis| ensures LateOrder(n)(vis[i], vis[j]) {
      assert vis[i] in vis && vis[j] in vis && DeepBefore(vis[i], vis[j]);
      JustFirst(g, q, n, r, vis[i]);
      JustFirst(g, q, n, r, vis[j]);
    }
  }

  lemma SeedsBroad(g: Graph, q: Query, n: nat, s: seq<Run>)
    requires 0 < n <= |q.steps| && BroadOrder(s) && forall r :: r in s ==> Partial(g, Prefix(q, n), r)
    ensures BroadOrder(Rebased(g, Finished(Prefix(q, n), s)))
    ensures forall i :: 0 <= i < |Rebased(g, Finished(Prefix(q, n), s))| ==> JustThere(Rebased(g, Finished(Prefix(q, n), s))[i], n)
  {
    hide BroadBefore, Finished;
    var p := Prefix(q, n);
    var seeds := Finished(p, s);
    var roots := Rebased(g, seeds);
    assert Ordered(BroadBefore, s);
    FinishedInOrder(BroadBefore, p, s);
    forall i, j | 0 <= i < j < |roots| ensures BroadBefore(roots[i], roots[j]) {
      RebaseBroad(g, seeds[i], seeds[j]);
    }
    forall i | 0 <= i < |roots| ensures JustThere(roots[i], n) {
      FinishedMembers(p, s, seeds[i]);
      SeedJustThere(g, q, n, seeds[i]);
    }
  }

  lemma RebaseBroad(g: Graph, a: Run, b: Run)
    ensures BroadBefore(Rebase(g, a), Rebase(g, b)) <==> BroadBefore(a, b)
  {
    RebaseMarks(g, a);
    RebaseMarks(g, b);
    RebaseSpells(g, a);
    RebaseSpells(g, b);
  }

  lemma SeedJustThere(g: Graph, q: Query, n: nat, s: Run)
    requires 0 < n <= |q.steps| && Partial(g, Prefix(q, n), s) && Idx(s) >= n
    ensures JustThere(Rebase(g, s), n)
  {
    PrefixPartial(g, q, n, s);
    RebaseSpells(g, s);
    if s.Take? { RebaseSpells(g, s.prev); }
  }

  /** A run of the second phase that fits the path buffer and finishes; its seed was queued. */
  ghost predicate LateMatch(g: Graph, q: Query, lim: Limits, n: nat, s: seq<Run>, x: Run)
    requires n <= |q.steps|
  {
    Idx(x) >= |q.steps| && Len(x) < lim.maxPathLen && exists r :: r in s && Resumed(g, q, n, r, x)
  }

  lemma {:induction false} RootsMembers(g: Graph, q: Query, lim: Limits, roots: seq<Run>, x: Run)
    requires forall i :: 0 <= i < |roots| ==> Len(roots[i]) <= lim.maxPathLen
    ensures x in VisitRoots(g, q, lim, roots) <==> ReachedFrom(g, q, roots, x) && Len(x) <= lim.maxPathLen
  {
    if roots != [] {
      var t := roots[1..];
      RootsMembers(g, q, lim, t, x);
      VisitExact(g, q, lim, roots[0]);
      assert forall i :: 0 <= i < |t| ==> t[i] == roots[i + 1];
      if ReachedFrom(g, q, roots, x) {
        var i :| 0 <= i < |roots| && Reaches(g, q, roots[i], x);
        assert i > 0 ==> Reaches(g, q, t[i - 1], x);
      }
    }
  }

  /** The second phase looks, in order, at what the queued seeds lead to. */
  lemma LateVisits(g: Graph, q: Query, lim: Limits, n: nat, s: seq<Run>)
    requires 0 < n <= |q.steps| && BroadOrder(s)
    requires forall r :: r in s ==> Partial(g, Prefix(q, n), r) && Len(r) <= lim.maxPathLen
    ensures var vis := VisitRoots(g, q, lim, Rebased(g, Finished(Prefix(q, n), s)));
      && Ordered(LateOrder(n), vis)
      && forall x :: x in vis <==> (exists r :: r in s && Resumed(g, q, n, r, x)) && Len(x) <= lim.maxPathLen
  {
    hide BroadOrder, Partial, Finished, LateOrder, VisitRoots, JustThere, Reaches;
    var p := Prefix(q, n);
    var seeds := Finished(p, s);
    var roots := Rebased(g, seeds);
    SeedsBroad(g, q, n, s);
    forall i | 0 <= i < |roots| ensures Len(roots[i]) <= lim.maxPathLen {
      FinishedMembers(p, s, seeds[i]);
      RebaseSpells(g, seeds[i]);
    }
    SeedsInOrder(g, q, lim, n, roots);
    forall x ensures ReachedFrom(g, q, roots, x) <==> exists r :: r in s && Resumed(g, q, n, r, x) {
      if ReachedFrom(g, q, roots, x) {
        var i :| 0 <= i < |roots| && Reaches(g, q, roots[i], x);
        FinishedMembers(p, s, seeds[i]);
        assert Resumed(g, q, n, seeds[i], x);
      }
      if r :| r in s && Resumed(g, q, n, r, x) {
        FinishedMembers(p, s, r);
        var i :| 0 <= i < |seeds| && seeds[i] == r;
        assert Reaches(g, q, roots[i], x);
      }
    }
    forall x { RootsMembers(g, q, lim, roots, x); }
  }

  lemma HcetClips(g: Graph, q: Query, lim: Limits, n: nat, begin: nat, end: nat)
    requires 1 < n < |q.steps|
    ensures var p, o := Prefix(q, n), HcetOutcome(g, q, lim, n, begin, end);
      var t := TcetTrace(g, p, lim, begin, end);
      && o.paths == Clip(Paths(Finished(q, Shallow(lim, VisitRoots(g, q, lim, Rebased(g, Finished(p, t.queue)))))), lim.maxPaths)
      && o.c.statesEnqueued == |t.queue| && o.c.statesTruncated == |t.lost| && o.c.seedPaths == |Finished(p, t.queue)|
  {
    hide TcetTrace, Finished, Paths, Shallow, AfterAll, QueueRejects, Deepest, VisitRoots;
    SecondPhase(g, q, lim, n, begin, end);
    var all := Paths(Finished(q, Shallow(lim, VisitRoots(g, q, lim, Rebased(g, Finished(Prefix(q, n), TcetTrace(g, Prefix(q, n), lim, begin, end).queue))))));
    assert [] + all == all;
  }

  lemma AllLate(g: Graph, q: Query, lim: Limits, n: nat, s: seq<Run>, vis: seq<Run>, x: Run)
    requires n <= |q.steps| && (x in vis <==> (exists r :: r in s && Resumed(g, q, n, r, x)) && Len(x) <= lim.maxPathLen)
    requires x in Shallow(lim, vis) <==> x in vis && !TooDeep(lim, x)
    ensures x in Finished(q, Shallow(lim, vis)) <==> LateMatch(g, q, lim, n, s, x)
  {
    FinishedMembers(q, Shallow(lim, vis), x);
  }

  /** H-CET queues the first runs of its prefix, and emits the first finished runs resumed from these. */
  lemma HcetKeepsFirst(g: Graph, q: Query, lim: Limits, n: nat, begin: nat, end: nat) returns (s: seq<Run>, lost: seq<Run>, runs: seq<Run>)
    requires 1 < n < |q.steps| && lim.maxPathLen >= 1
    ensures var from, to, p, o := Clamp(begin, |g.vertices|), ShardEnd(g, begin, end), Prefix(q, n), HcetOutcome(g, q, lim, n, begin, end);
      && BroadOrder(s) && |s| <= lim.maxPaths && (forall r :: r in s ==> InShard(g, p, from, to, r) && Len(r) <= lim.maxPathLen)
      && (forall x :: InShard(g, p, from, to, x) && Len(x) <= lim.maxPathLen ==> QueuedOrLate(lim, s, x))
      && o.c.statesEnqueued == |s| && o.c.statesTruncated == |lost| && o.c.seedPaths == |Finished(p, s)|
      && (forall x :: x in lost <==> LostStart(g, p, from, to, s, x) || LostChild(g, p, lim, s, |s|, x)) && Distinct(lost)
      && o.paths == Paths(runs) && |runs| <= lim.maxPaths && Ordered(LateOrder(n), runs)
      && (forall r :: r in runs ==> LateMatch(g, q, lim, n, s, r))
      && forall x :: LateMatch(g, q, lim, n, s, x) && x !in runs ==> |runs| == lim.maxPaths && forall i :: 0 <= i < |runs| ==> LateBefore(n, runs[i], x)
  {
    hide BroadOrder, LostStart, LostChild, QueuedOrLate, Finished, QueueRejects, Paths, LateBefore, Shallow, LateMatch, HcetOutcome, TcetOutcome, AfterAll, Deepest;
    var p := Prefix(q, n);
    s, lost := TcetKeepsFirst(g, p, lim, begin, end);
    var vis := VisitRoots(g, q, lim, Rebased(g, Finished(p, s)));
    var all := Finished(q, Shallow(lim, vis));
    HcetClips(g, q, lim, n, begin, end);
    LateVisits(g, q, lim, n, s);
    ShallowInOrder(LateOrder(n), lim, vis);
    FinishedInOrder(LateOrder(n), q, Shallow(lim, vis));
    forall x ensures x in all <==> LateMatch(g, q, lim, n, s, x) { AllLate(g, q, lim, n, s, vis, x); }
    runs := FirstOf(LateOrder(n), all, lim.maxPaths);
  }
}
