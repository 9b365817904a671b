/** Completeness of the three executors, the exact condition under which each reports overflow,
    and their agreement. */
module NativeTheorems {
  import opened TrendGraph
  import opened SearchSpec
  import opened BreadthFirst
  import opened BreadthFirstFacts
  import opened Engines
  import opened Agreement

  // ---- Counting ----

  lemma {:induction false} Pigeonhole(a: seq<Run>, s: seq<Run>)
    requires Distinct(a) && Within(a, s)
    ensures |a| <= |s|
    decreases |a|
  {
    if a != [] {
      var r := a[|a| - 1];
      var i :| 0 <= i < |s| && s[i] == r;
      var s' := s[..i] + s[i + 1..];
      var a' := a[..|a| - 1];
      forall k | 0 <= k < |a'| ensures a'[k] in s' {
        var j :| 0 <= j < |s| && s[j] == a[k];
        assert s'[if j < i then j else j - 1] == a'[k];
      }
      Pigeonhole(a', s');
    }
  }

  lemma FinishedWithin(q: Query, a: seq<Run>, s: seq<Run>)
    requires Distinct(a) && Within(a, s)
    ensures |Finished(q, a)| <= |Finished(q, s)|
  {
    FinishedDistinct(q, a);
    forall i | 0 <= i < |Finished(q, a)| ensures Finished(q, a)[i] in Finished(q, s) {
      FinishedMembers(q, a, Finished(q, a)[i]);
      FinishedMembers(q, s, Finished(q, a)[i]);
    }
    Pigeonhole(Finished(q, a), Finished(q, s));
  }

  lemma EnumerationWithin(g: Graph, q: Query, from: nat, to: nat, a: seq<Run>, s: seq<Run>)
    requires Enumerates(g, q, from, to, s) && forall r :: r in a ==> InShard(g, q, from, to, r)
    ensures Within(a, s)
  {}

  // ---- T-CET ----

  /** The shard has few enough runs for the queue, none longer than a path buffer. */
  ghost predicate QueueSuffices(g: Graph, q: Query, lim: Limits, from: nat, to: nat) {
    exists s :: Enumerates(g, q, from, to, s) && |s| <= lim.maxPaths && Deepest(s) <= lim.maxPathLen
  }

  lemma TraceStaysShort(g: Graph, q: Query, lim: Limits, begin: nat, end: nat)
    requires |q.steps| > 0 && lim.maxPathLen >= 1
    ensures Deepest(TcetTrace(g, q, lim, begin, end).queue) <= lim.maxPathLen
  {
    var from, to := Clamp(begin, |g.vertices|), Clamp(end, |g.vertices|);
    StartsShort(g, q, lim, Trace([], []), from, to);
    TraceShort(g, q, lim, PushStarts(g, q, lim, Trace([], []), from, to), 0);
  }

  /** T-CET reports overflow exactly when the shard's runs do not fit its buffers. */
  lemma TcetOverflowExact(g: Graph, q: Query, lim: Limits, begin: nat, end: nat)
    requires |q.steps| > 0 && lim.maxPathLen >= 1
    ensures !TcetOutcome(g, q, lim, begin, end).c.overflow <==>
      QueueSuffices(g, q, lim, Clamp(begin, |g.vertices|), ShardEnd(g, begin, end))
  {
    var t := TcetTrace(g, q, lim, begin, end);
    var from, to := Clamp(begin, |g.vertices|), ShardEnd(g, begin, end);
    if t.lost == [] {
      TcetComplete(g, q, lim, begin, end);
      TraceStaysShort(g, q, lim, begin, end);
    } else if QueueSuffices(g, q, lim, from, to) {
      var s :| Enumerates(g, q, from, to, s) && |s| <= lim.maxPaths && Deepest(s) <= lim.maxPathLen;
      TraceFacts(g, q, lim, begin, end);
      OneTooMany(g, q, lim, from, to, t, s);
    }
  }

  lemma OneTooMany(g: Graph, q: Query, lim: Limits, from: nat, to: nat, t: Trace, s: seq<Run>)
    requires t.lost != [] && Sound(g, q, from, to, t) && LostForCause(lim, t)
    requires Enumerates(g, q, from, to, s) && Deepest(s) <= lim.maxPathLen
    ensures |s| > lim.maxPaths
  {
    var l := t.lost[0];
    assert l in t.lost;
    var i :| 0 <= i < |s| && s[i] == l;
    DeepestCovers(s, i);
    var a := t.queue + [l];
    assert forall k :: 0 <= k < |a| ==> a[k] == (t.queue + t.lost)[k];
    EnumerationWithin(g, q, from, to, a, s);
    Pigeonhole(a, s);
  }

  // ---- Depth-first search from a set of roots ----

  /** No run continues two different roots. */
  ghost predicate Apart(g: Graph, q: Query, roots: seq<Run>) {
    forall i, j, x :: 0 <= i < j < |roots| ==> !(Reaches(g, q, roots[i], x) && Reaches(g, q, roots[j], x))
  }

  ghost predicate ReachedFrom(g: Graph, q: Query, roots: seq<Run>, x: Run) {
    exists i :: 0 <= i < |roots| && Reaches(g, q, roots[i], x)
  }

  lemma {:induction false} RootsExact(g: Graph, q: Query, lim: Limits, roots: seq<Run>)
    requires Apart(g, q, roots) && forall i :: 0 <= i < |roots| ==> Len(roots[i]) <= lim.maxPathLen
    ensures Distinct(VisitRoots(g, q, lim, roots))
    ensures forall x :: x in VisitRoots(g, q, lim, roots) <==> ReachedFrom(g, q, roots, x) && Len(x) <= lim.maxPathLen
  {
    if roots != [] {
      var r, rest := roots[0], roots[1..];
      VisitExact(g, q, lim, r);
      assert forall i :: 0 <= i < |rest| ==> rest[i] == roots[i + 1];
      RootsExact(g, q, lim, rest);
      forall x ensures ReachedFrom(g, q, roots, x) <==> Reaches(g, q, r, x) || ReachedFrom(g, q, rest, x) {
        if ReachedFrom(g, q, rest, x) {
          var i :| 0 <= i < |rest| && Reaches(g, q, rest[i], x);
          assert Reaches(g, q, roots[i + 1], x);
        }
        if ReachedFrom(g, q, roots, x) && !Reaches(g, q, r, x) {
          var i :| 0 <= i < |roots| && Reaches(g, q, roots[i], x);
          assert Reaches(g, q, rest[i - 1], x);
        }
      }
      forall x | x in Visit(g, q, lim, r) ensures x !in VisitRoots(g, q, lim, rest) {
        forall i | 0 <= i < |rest| ensures !Reaches(g, q, rest[i], x) {
          assert rest[i] == roots[i + 1];
        }
      }
      DistinctAppend(Visit(g, q, lim, r), VisitRoots(g, q, lim, rest));
    }
  }

  /** If no visited run is too deep, nothing reachable was cut off. */
  lemma {:induction false} NothingDeeper(g: Graph, q: Query, lim: Limits, roots: seq<Run>, i: nat, x: Run)
    requires Apart(g, q, roots) && forall i :: 0 <= i < |roots| ==> Len(roots[i]) <= lim.maxPathLen
    requires forall r :: r in VisitRoots(g, q, lim, roots) ==> !TooDeep(lim, r)
    requires i < |roots| && Reaches(g, q, roots[i], x)
    ensures Len(x) < lim.maxPathLen
  {
    RootsExact(g, q, lim, roots);
    if x != roots[i] {
      NothingDeeper(g, q, lim, roots, i, x.prev);
    }
    assert ReachedFrom(g, q, roots, x);
  }

  // ---- M-CET ----

  function Base(r: Run): Run {
    match r
    case Start(_, _, _) => r
    case Take(prev, _, _, _) => Base(prev)
  }

  lemma {:induction false} FromBase(g: Graph, q: Query, r: Run)
    requires Partial(g, q, r)
    ensures IsStart(g, q, Base(r)) && Reaches(g, q, Base(r), r) && Origin(r) == Base(r).vertex
  {
    if r.Take? {
      FromBase(g, q, r.prev);
      assert IsChild(g, q, r.prev, r);
    }
  }

  lemma {:induction false} StartsExact(g: Graph, q: Query, from: nat, to: nat)
    requires to <= |g.vertices| && |q.steps| > 0
    ensures Distinct(Starts(g, q, from, to))
    ensures forall r :: r in Starts(g, q, from, to) <==> IsStart(g, q, r) && from <= r.vertex < to
  {
    if from < to {
      StartsExact(g, q, from, to - 1);
      DistinctAppend(Starts(g, q, from, to - 1), [StartAt(g, to - 1)]);
    }
  }

  lemma StartsApart(g: Graph, q: Query, from: nat, to: nat)
    requires to <= |g.vertices| && |q.steps| > 0
    ensures Apart(g, q, Starts(g, q, from, to))
    ensures forall i :: 0 <= i < |Starts(g, q, from, to)| ==> Len(Starts(g, q, from, to)[i]) == 1
  {
    StartsExact(g, q, from, to);
    var s := Starts(g, q, from, to);
    assert forall i :: 0 <= i < |s| ==> s[i] in s;
    forall i, j, x | 0 <= i < j < |s| && Reaches(g, q, s[i], x) && Reaches(g, q, s[j], x) ensures false {
      AncestorUnique(g, q, s[i], s[j], x);
    }
  }

  lemma StartsReachAll(g: Graph, q: Query, x: Run)
    requires |q.steps| > 0
    ensures ReachedFrom(g, q, Starts(g, q, 0, |g.vertices|), x) <==> InShard(g, q, 0, |g.vertices|, x)
  {
    var s := Starts(g, q, 0, |g.vertices|);
    StartsExact(g, q, 0, |g.vertices|);
    if ReachedFrom(g, q, s, x) {
      var i :| 0 <= i < |s| && Reaches(g, q, s[i], x);
      assert s[i] in s;
      ReachesMeans(g, q, s[i], x);
    }
    if InShard(g, q, 0, |g.vertices|, x) {
      FromBase(g, q, x);
      assert Base(x) in s;
    }
  }

  function McetVisits(g: Graph, q: Query, lim: Limits): seq<Run>
    requires |q.steps| > 0
  {
    VisitRoots(g, q, lim, Starts(g, q, 0, |g.vertices|))
  }

  lemma McetVisitsExact(g: Graph, q: Query, lim: Limits)
    requires |q.steps| > 0 && lim.maxPathLen >= 1
    ensures Distinct(McetVisits(g, q, lim))
    ensures forall x :: x in McetVisits(g, q, lim) <==> InShard(g, q, 0, |g.vertices|, x) && Len(x) <= lim.maxPathLen
  {
    StartsApart(g, q, 0, |g.vertices|);
    RootsExact(g, q, lim, Starts(g, q, 0, |g.vertices|));
    forall x ensures x in McetVisits(g, q, lim) <==> InShard(g, q, 0, |g.vertices|, x) && Len(x) <= lim.maxPathLen {
      StartsReachAll(g, q, x);
    }
  }

  lemma McetCutsNothing(g: Graph, q: Query, lim: Limits)
    requires |q.steps| > 0 && lim.maxPathLen >= 1
    requires forall r :: r in McetVisits(g, q, lim) ==> !TooDeep(lim, r)
    ensures Enumerates(g, q, 0, |g.vertices|, McetVisits(g, q, lim))
  {
    McetVisitsExact(g, q, lim);
    StartsApart(g, q, 0, |g.vertices|);
    var s := Starts(g, q, 0, |g.vertices|);
    forall x | InShard(g, q, 0, |g.vertices|, x) ensures Len(x) < lim.maxPathLen {
      StartsReachAll(g, q, x);
      var i :| 0 <= i < |s| && Reaches(g, q, s[i], x);
      NothingDeeper(g, q, lim, s, i, x);
    }
  }

  /** A search that began with an empty buffer overflows unless all runs it visits are short and
      the finished ones fit; then it emitted exactly those. */
  lemma CleanVisit(g: Graph, q: Query, lim: Limits, o: Outcome, vis: seq<Run>, o': Outcome)
    requires o.paths == [] && Visited(g, q, lim, o, vis, o')
    ensures !o'.c.overflow <==>
      !o.c.overflow && (forall r :: r in vis ==> !TooDeep(lim, r)) && |Finished(q, vis)| <= lim.maxPaths
    ensures !o'.c.overflow ==>
      && o'.paths == Paths(Finished(q, vis))
      && o'.c == o.c.(pathsEmitted := o.c.pathsEmitted + |o'.paths|, maxDepth := Max(o.c.maxDepth, Deepest(vis)),
                      rejects := o.c.rejects.Plus(QueueRejects(g, q, vis)))
  {
    ShallowShort(lim, vis);
    var all := Paths(Finished(q, Shallow(lim, vis)));
    assert o.paths + all == all;
  }

  /** Without overflow M-CET visits every run of the query once and emits one path per finished one. */
  lemma McetComplete(g: Graph, q: Query, lim: Limits)
    requires |q.steps| > 0 && lim.maxPathLen >= 1 && !McetOutcome(g, q, lim).c.overflow
    ensures Enumerates(g, q, 0, |g.vertices|, McetVisits(g, q, lim)) && Reports(g, q, McetVisits(g, q, lim), McetOutcome(g, q, lim))
    ensures forall r :: r in McetVisits(g, q, lim) ==> Len(r) < lim.maxPathLen
  {
    AfterAllVisited(g, q, lim, Fresh, McetVisits(g, q, lim));
    CleanVisit(g, q, lim, Fresh, McetVisits(g, q, lim), McetOutcome(g, q, lim));
    McetCutsNothing(g, q, lim);
  }

  /** Every run is shorter than a path buffer and the accepting ones fit the result table. */
  ghost predicate StackSuffices(g: Graph, q: Query, lim: Limits, from: nat, to: nat) {
    exists s :: Enumerates(g, q, from, to, s) && Deepest(s) < lim.maxPathLen && |Finished(q, s)| <= lim.maxPaths
  }

  lemma {:induction false} DeepestWithin(s: seq<Run>, n: nat)
    requires forall r :: r in s ==> Len(r) <= n
    ensures Deepest(s) <= n
  {
    if s != [] {
      assert s[|s| - 1] in s;
      forall r | r in s[..|s| - 1] ensures r in s {}
      DeepestWithin(s[..|s| - 1], n);
    }
  }

  lemma StackFits(g: Graph, q: Query, lim: Limits, from: nat, to: nat, vis: seq<Run>)
    requires StackSuffices(g, q, lim, from, to) && Distinct(vis) && forall r :: r in vis ==> InShard(g, q, from, to, r)
    ensures (forall r :: r in vis ==> !TooDeep(lim, r)) && |Finished(q, vis)| <= lim.maxPaths
  {
    var e :| Enumerates(g, q, from, to, e) && Deepest(e) < lim.maxPathLen && |Finished(q, e)| <= lim.maxPaths;
    forall x | x in vis ensures !TooDeep(lim, x) {
      var i :| 0 <= i < |e| && e[i] == x;
      DeepestCovers(e, i);
    }
    EnumerationWithin(g, q, from, to, vis, e);
    FinishedWithin(q, vis, e);
  }

  lemma McetEnumerates(g: Graph, q: Query, lim: Limits)
    requires |q.steps| > 0 && lim.maxPathLen >= 1 && (forall r :: r in McetVisits(g, q, lim) ==> !TooDeep(lim, r))
    requires |Finished(q, McetVisits(g, q, lim))| <= lim.maxPaths
    ensures StackSuffices(g, q, lim, 0, |g.vertices|)
  {
    McetCutsNothing(g, q, lim);
    DeepestWithin(McetVisits(g, q, lim), lim.maxPathLen - 1);
  }

  /** M-CET reports overflow exactly when some run is too long or the results do not fit. */
  lemma McetOverflowExact(g: Graph, q: Query, lim: Limits)
    requires |q.steps| > 0 && lim.maxPathLen >= 1
    ensures !McetOutcome(g, q, lim).c.overflow <==> StackSuffices(g, q, lim, 0, |g.vertices|)
  {
    var vis := McetVisits(g, q, lim);
    AfterAllVisited(g, q, lim, Fresh, vis);
    CleanVisit(g, q, lim, Fresh, vis, McetOutcome(g, q, lim));
    if (forall r :: r in vis ==> !TooDeep(lim, r)) && |Finished(q, vis)| <= lim.maxPaths {
      McetEnumerates(g, q, lim);
    } else if StackSuffices(g, q, lim, 0, |g.vertices|) {
      McetVisitsExact(g, q, lim);
      StackFits(g, q, lim, 0, |g.vertices|, vis);
    }
  }

  // ---- Room for a search of bounded depth ----

  lemma EnumerateShort(g: Graph, q: Query, len: nat) returns (s: seq<Run>)
    requires |q.steps| > 0 && len >= 1 && forall r :: Partial(g, q, r) ==> Len(r) <= len
    ensures Enumerates(g, q, 0, |g.vertices|, s) && Deepest(s) <= len
  {
    var lim := Limits(|g.vertices|, |g.edges|, 0, len + 1);
    s := McetVisits(g, q, lim);
    McetVisitsExact(g, q, lim);
    McetCutsNothing(g, q, lim);
    DeepestWithin(s, len);
  }

  /** If all runs are short, there are capacities with which neither M-CET nor T-CET overflows. */
  lemma RoomForShort(g: Graph, q: Query, len: nat) returns (lim: Limits)
    requires |q.steps| > 0 && len >= 1 && forall r :: Partial(g, q, r) ==> Len(r) <= len
    ensures Fits(g, lim) && !McetOutcome(g, q, lim).c.overflow && QueueSuffices(g, q, lim, 0, |g.vertices|)
  {
    hide McetOutcome;
    var s := EnumerateShort(g, q, len);
    FinishedShort(q, s);
    lim := Limits(|g.vertices|, |g.edges|, |s|, len + 1);
    McetOverflowExact(g, q, lim);
  }
}
