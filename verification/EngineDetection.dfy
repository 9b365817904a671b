/** Detection end to end: with no cap reached, each native executor emits a path starting at an event
    exactly when the standing matcher returns a match starting there. */
module EngineDetection {
  import opened Events
  import opened Matcher
  import opened SecurityGraph
  import opened Detection
  import opened TiedTimes
  import TG = TrendGraph
  import opened SearchSpec
  import opened BreadthFirst
  import opened Agreement
  import opened NativeTheorems
  import opened HybridTheorems

  ghost predicate EmitsFrom(paths: seq<seq<int>>, id: int) {
    exists p :: p in paths && p != [] && p[0] == id
  }

  ghost predicate FindsFrom(matches: seq<seq<Event>>, a: Event) {
    exists m :: m in matches && m != [] && m[0] == a
  }

  lemma {:induction false} PathStarts(g: TG.Graph, q: TG.Query, r: TG.Run)
    requires TG.Partial(g, q, r)
    ensures TG.Origin(r) < |g.vertices| && TG.Path(r)[0] == g.vertices[TG.Origin(r)].id
  {
    if r.Take? { PathStarts(g, q, r.prev); }
  }

  lemma InPaths(runs: seq<TG.Run>, p: seq<int>)
    ensures p in Paths(runs) <==> exists r :: r in runs && p == TG.Path(r)
  {
    forall i | 0 <= i < |runs| ensures Paths(runs)[i] == TG.Path(runs[i]) { PathsAt(runs, i); }
    if p in Paths(runs) {
      var i :| 0 <= i < |runs| && Paths(runs)[i] == p;
      assert runs[i] in runs;
    }
    if r :| r in runs && p == TG.Path(r) {
      var i :| 0 <= i < |runs| && runs[i] == r;
    }
  }

  lemma SamePaths(a: seq<seq<int>>, b: seq<seq<int>>, id: int)
    requires multiset(a) == multiset(b)
    ensures EmitsFrom(a, id) <==> EmitsFrom(b, id)
  {
    forall p ensures p in a <==> p in b { assert p in multiset(a) <==> p in multiset(b); }
  }

  /** A complete executor emits a path from a vertex exactly when an accepting run starts there. */
  lemma EmitsExactly(g: TG.Graph, q: TG.Query, runs: seq<TG.Run>, o: Outcome, id: int)
    requires Enumerates(g, q, 0, |g.vertices|, runs) && Reports(g, q, runs, o)
    ensures EmitsFrom(o.paths, id) <==>
      exists r :: TG.Accepting(g, q, r) && TG.Origin(r) < |g.vertices| && g.vertices[TG.Origin(r)].id == id
  {
    OnePathPerAcceptingRun(g, q, 0, |g.vertices|, runs, o);
    var done := Finished(q, runs);
    SamePaths(o.paths, Paths(done), id);
    if EmitsFrom(Paths(done), id) {
      var p :| p in Paths(done) && p != [] && p[0] == id;
      InPaths(done, p);
      var r :| r in done && p == TG.Path(r);
      PathStarts(g, q, r);
    }
    if r :| TG.Accepting(g, q, r) && TG.Origin(r) < |g.vertices| && g.vertices[TG.Origin(r)].id == id {
      PathStarts(g, q, r);
      InPaths(done, TG.Path(r));
    }
  }

  lemma FindsExactly(steps: seq<PatternStep>, within: int, s: seq<Event>, max: nat, a: Event)
    requires Ascending(s) && |Rec(steps, within, 0, s, [])| <= max
    ensures FindsFrom(Matcher.Clip(Rec(steps, within, 0, s, []), max), a) <==> exists p :: ValidMatch(steps, within, s, p) && p[0] == a
  {
    var all := Rec(steps, within, 0, s, []);
    if m :| m in all && m != [] && m[0] == a { EnumerationExact(steps, within, s, m); }
    if p :| ValidMatch(steps, within, s, p) && p[0] == a { EnumerationExact(steps, within, s, p); }
  }

  lemma CompleteAgrees(g: TG.Graph, s: seq<Event>, steps: seq<PatternStep>, within: int, max: nat,
                                          runs: seq<TG.Run>, o: Outcome, a: Event)
    requires Common(steps) && within >= 0 && GoodGraph(g, s, within) && a in s && |Rec(steps, within, 0, s, [])| <= max
    requires Enumerates(g, NativeQuery(steps, within), 0, |g.vertices|, runs) && Reports(g, NativeQuery(steps, within), runs, o)
    ensures EmitsFrom(o.paths, a.id) <==> FindsFrom(Matcher.Clip(Rec(steps, within, 0, s, []), max), a)
  {
    hide Enumerates, Reports, EmitsFrom, FindsFrom, Rec, Matcher.Clip;
    var q := NativeQuery(steps, within);
    EmitsExactly(g, q, runs, o, a.id);
    FindsExactly(steps, within, s, max, a);
    SameStarts(g, s, steps, within, a);
    forall r | TG.Origin(r) < |s| ensures g.vertices[TG.Origin(r)].id == a.id <==> s[TG.Origin(r)] == a {
      DistinctMember(s, s[TG.Origin(r)], a);
    }
  }

  lemma GoodIdsUnique(g: TG.Graph, s: seq<Event>)
    requires VerticesAre(g, s) && DistinctIds(s)
    ensures UniqueIds(g)
  {}

  /** M-CET, T-CET and H-CET each detect what the standing matcher detects. */
  lemma EnginesDetectAlike(events: seq<Event>, p: string, gap: Option<int>, keys: seq<string>, meta: seq<EdgeMeta>,
                                              steps: seq<PatternStep>, within: int, lim: TG.Limits, switchDepth: nat, max: nat, a: Event)
    requires DistinctIds(events) && (forall e :: e in events ==> e.partition == p) && ParentsFirst(SortByPartition(events))
    requires Grown([], meta, Wanted(gap, SortByPartition(events), keys)) && GapSpans(gap, SortByPartition(events), within)
    requires Common(steps) && within >= 0 && lim.maxPathLen >= 1 && a in events
    requires |Rec(steps, within, 0, SortEvents(events), [])| <= max
    ensures var g, q := NativeGraph(SortByPartition(events), meta), NativeQuery(steps, within);
      var found := FindsFrom(Matcher.Clip(Rec(steps, within, 0, SortEvents(events), []), max), a);
      && (!McetOutcome(g, q, lim).c.overflow ==> (EmitsFrom(McetOutcome(g, q, lim).paths, a.id) <==> found))
      && (!TcetOutcome(g, q, lim, 0, |g.vertices|).c.overflow ==>
            (EmitsFrom(TcetOutcome(g, q, lim, 0, |g.vertices|).paths, a.id) <==> found))
      && (!HcetOutcome(g, q, lim, switchDepth, 0, |g.vertices|).c.overflow ==>
            (EmitsFrom(HcetOutcome(g, q, lim, switchDepth, 0, |g.vertices|).paths, a.id) <==> found))
  {
    hide Rec, Matcher.Clip, FindsFrom, EmitsFrom, GoodGraph, Wanted, Grown, Enumerates, Reports, TcetOutcome, McetOutcome, HcetOutcome;
    var s := SortEvents(events);
    OnePartitionSort(events, p);
    var g, q := NativeGraph(s, meta), NativeQuery(steps, within);
    SortedEvents(events, p, a);
    BuiltIsGood(gap, s, p, keys, meta, within);
    GoodIdsUnique(g, s);
    UniqueIdsResolve(g, q);
    if !McetOutcome(g, q, lim).c.overflow {
      McetComplete(g, q, lim);
      CompleteAgrees(g, s, steps, within, max, McetVisits(g, q, lim), McetOutcome(g, q, lim), a);
    }
    if !TcetOutcome(g, q, lim, 0, |g.vertices|).c.overflow {
      TcetComplete(g, q, lim, 0, |g.vertices|);
      CompleteAgrees(g, s, steps, within, max, TcetTrace(g, q, lim, 0, |g.vertices|).queue, TcetOutcome(g, q, lim, 0, |g.vertices|), a);
    }
    if !HcetOutcome(g, q, lim, switchDepth, 0, |g.vertices|).c.overflow {
      var runs, sp := HcetComplete(g, q, lim, switchDepth, 0, |g.vertices|);
      CompleteAgrees(g, s, steps, within, max, runs, HcetOutcome(g, q, lim, switchDepth, 0, |g.vertices|), a);
    }
  }

  /** Without the condition on parents they need not: whatever the switch depth, all three executors,
      none overflowing, emit a path from the parent, where the standing matcher finds nothing. */
  lemma TiedParentDiffers(keys: seq<string>, meta: seq<EdgeMeta>, switchDepth: nat) returns (lim: TG.Limits)
    requires Grown([], meta, Wanted(None, SortByPartition(Family()), keys))
    ensures var g, q := NativeGraph(SortByPartition(Family()), meta), NativeQuery(AThenB(), 0);
      var m, t, h := McetOutcome(g, q, lim), TcetOutcome(g, q, lim, 0, |g.vertices|), HcetOutcome(g, q, lim, switchDepth, 0, |g.vertices|);
      && lim.maxPathLen >= 1 && !m.c.overflow && !t.c.overflow && !h.c.overflow
      && EmitsFrom(m.paths, TheParent.id) && EmitsFrom(t.paths, TheParent.id) && EmitsFrom(h.paths, TheParent.id)
    ensures forall max: nat :: !FindsFrom(Matcher.Clip(Rec(AThenB(), 0, 0, SortEvents(Family()), []), max), TheParent)
  {
    hide Wanted, Grown, EmitsFrom, FindsFrom, Rec, Enumerates, Reports, TcetOutcome, McetOutcome, HcetOutcome, TG.Partial, ParentsFirst;
    var s, g, q := Family(), NativeGraph(Family(), meta), NativeQuery(AThenB(), 0);
    FamilySorted();
    var r := ParentToChild(keys, meta);
    forall x | TG.Partial(g, q, x) ensures TG.Len(x) <= 2 { FamilyRuns(keys, meta, x); }
    lim := RoomForShort(g, q, 2);
    TcetOverflowExact(g, q, lim, 0, |g.vertices|);
    HcetOverflowExact(g, q, lim, switchDepth, 0, |g.vertices|);
    McetComplete(g, q, lim);
    EmitsExactly(g, q, McetVisits(g, q, lim), McetOutcome(g, q, lim), TheParent.id);
    EnginesAgree(g, q, lim, switchDepth);
    SamePaths(McetOutcome(g, q, lim).paths, TcetOutcome(g, q, lim, 0, |g.vertices|).paths, TheParent.id);
    SamePaths(McetOutcome(g, q, lim).paths, HcetOutcome(g, q, lim, switchDepth, 0, |g.vertices|).paths, TheParent.id);
    NothingFromParent(0);
    forall max: nat ensures !FindsFrom(Matcher.Clip(Rec(AThenB(), 0, 0, s, []), max), TheParent) {
      if FindsFrom(Matcher.Clip(Rec(AThenB(), 0, 0, s, []), max), TheParent) { FindsOnlyMatches(AThenB(), 0, s, max, TheParent); }
    }
  }

  lemma FindsOnlyMatches(steps: seq<PatternStep>, within: int, s: seq<Event>, max: nat, a: Event)
    requires Ascending(s) && FindsFrom(Matcher.Clip(Rec(steps, within, 0, s, []), max), a)
    ensures MatchFrom(steps, within, s, a)
  {
    hide Rec;
    var all := Rec(steps, within, 0, s, []);
    var m :| m in Matcher.Clip(all, max) && m != [] && m[0] == a;
    assert m in all;
    EnumerationExact(steps, within, s, m);
  }

  lemma SortedEvents(events: seq<Event>, p: string, a: Event)
    requires DistinctIds(events) && (forall e :: e in events ==> e.partition == p) && a in events
    ensures var s := SortEvents(events);
      Ascending(s) && DistinctIds(s) && (forall e :: e in s ==> e.partition == p) && a in s
  {
    var s := SortEvents(events);
    SortAscending(events);
    SortMembers(events);
    forall i, j | 0 <= i < j < |s| ensures s[i].id != s[j].id {
      assert s[i] in events && s[j] in events && Before(s[i], s[j]);
      DistinctMember(events, s[i], s[j]);
    }
  }
}
