/** Over the graph built of one partition the engines detect alike exactly when no parent process's
    event comes after its child at the same time, and the gap limit cuts off no neighbour inside the
    window.  An edge back closes a circle, in which the native engine matches one event many times. */
module TiedTimes {
  import opened Events
  import opened Matcher
  import opened Links
  import opened SecurityGraph
  import opened Detection

  /** For every common pattern the same events start a detection in both engines. */
  ghost predicate AgreeOver(g: TG.Graph, s: seq<Event>, within: int) {
    forall steps, a :: Common(steps) ==> (NativeFrom(g, s, steps, within, a) <==> MatchFrom(steps, within, s, a))
  }

  /** The edges are those the builder makes of the partition s. */
  ghost predicate BuiltOf(gap: Option<int>, s: seq<Event>, p: string, keys: seq<string>, meta: seq<EdgeMeta>) {
    && Ascending(s) && DistinctIds(s) && (forall e :: e in s ==> e.partition == p)
    && Grown([], meta, Wanted(gap, s, keys))
  }

  function One(eventType: string): PatternStep { PatternStep([eventType], 1, Some(1)) }

  lemma BuiltVertices(s: seq<Event>, meta: seq<EdgeMeta>)
    ensures VerticesAre(NativeGraph(s, meta), s)
  {}

  lemma EdgeJoins(gap: Option<int>, s: seq<Event>, p: string, keys: seq<string>, meta: seq<EdgeMeta>, e: nat) returns (a: Event, b: Event)
    requires BuiltOf(gap, s, p, keys, meta) && e < |meta|
    ensures a in s && b in s && a.id != b.id && WithinGap(gap, a, b)
    ensures meta[e] == EdgeMeta(a.id, b.id, meta[e].relation, a.time, b.time)
  {
    hide Wanted, Grown, Ascending;
    assert meta[e] in meta;
    BuiltExactly(gap, s, keys, meta, meta[e]);
    WantedJoins(gap, s, keys, meta[e]);
    var x, y :| x in s && y in s && Makes(gap, x, y, meta[e].relation, meta[e]);
    if x.time <= y.time { a, b := x, y; } else { a, b := y, x; }
  }

  // ---- A neighbour that is cut off ----

  /** No edge leaves s[i]: what comes next is too far off. */
  lemma NoWayOn(gap: Option<int>, s: seq<Event>, p: string, keys: seq<string>, meta: seq<EdgeMeta>, i: nat)
    requires BuiltOf(gap, s, p, keys, meta) && i + 1 < |s| && !WithinGap(gap, s[i], s[i + 1])
    requires ParentsFirst(s) || gap.value < 0
    ensures forall x :: x in meta ==> x.src != s[i].id
  {
    hide Wanted, ParentsFirst, Grown;
    forall e | 0 <= e < |meta| ensures meta[e].src != s[i].id {
      var a, b := EdgeJoins(gap, s, p, keys, meta, e);
      if meta[e].src == s[i].id && gap.value >= 0 {
        assert meta[e] in meta;
        BuiltExactly(gap, s, keys, meta, meta[e]);
        WantedLeadsOn(gap, s, keys, meta[e]);
        LeadsFar(s, i, meta[e], a, b);
      }
    }
  }

  lemma LeadsFar(s: seq<Event>, i: nat, x: EdgeMeta, a: Event, b: Event)
    requires Ascending(s) && DistinctIds(s) && i + 1 < |s| && LeadsOn(s, x) && x.src == s[i].id
    requires a in s && b in s && x == EdgeMeta(a.id, b.id, x.relation, a.time, b.time)
    ensures a == s[i] && s[i].time <= s[i + 1].time <= b.time
  {
    hide Before;
    var c, d :| c in s && d in s && Before(c, d) && x == EdgeMeta(c.id, d.id, x.relation, c.time, d.time);
    DistinctMember(s, a, s[i]);
    DistinctMember(s, c, s[i]);
    DistinctMember(s, b, d);
    PositionsOf(s, c, d);
    var m, j :| 0 <= m < j < |s| && s[m] == c && s[j] == d;
    assert m == i;
    TimesBetween(s, i, i + 1, j);
  }

  lemma {:induction false} Stuck(g: TG.Graph, q: TG.Query, s: seq<Event>, i: nat, r: TG.Run)
    requires VerticesAre(g, s) && DistinctIds(s) && i < |s| && TG.Partial(g, q, r) && TG.Origin(r) == i
    requires forall e :: 0 <= e < |g.edges| ==> g.edges[e].src != s[i].id
    ensures r.Start?
  {
    if r.Take? {
      Stuck(g, q, s, i, r.prev);
      assert false;
    }
  }

  /** So the pattern of both types is found from s[i], but not natively. */
  lemma CutOff(gap: Option<int>, s: seq<Event>, p: string, keys: seq<string>, meta: seq<EdgeMeta>, within: int, i: nat)
    requires BuiltOf(gap, s, p, keys, meta) && i + 1 < |s| && !WithinGap(gap, s[i], s[i + 1]) && s[i + 1].time - s[i].time <= within
    requires ParentsFirst(s) || gap.value < 0
    ensures !AgreeOver(NativeGraph(s, meta), s, within)
  {
    hide Wanted, ParentsFirst, Grown, Splits;
    var g, steps, m := NativeGraph(s, meta), [One(s[i].eventType), One(s[i + 1].eventType)], [s[i], s[i + 1]];
    BuiltVertices(s, meta);
    NoWayOn(gap, s, p, keys, meta, i);
    forall r | TG.Accepting(g, NativeQuery(steps, within), r) && TG.Origin(r) < |s| && s[TG.Origin(r)] == s[i] ensures false {
      forall e | 0 <= e < |g.edges| ensures g.edges[e].src != s[i].id { assert meta[e] in meta; }
      Stuck(g, NativeQuery(steps, within), s, i, r);
    }
    OneEach(steps, 0, m);
    assert ValidMatch(steps, within, s, m);
    assert MatchFrom(steps, within, s, s[i]) && !NativeFrom(g, s, steps, within, s[i]);
  }

  // ---- An edge back ----

  /** The position after j on the circle from c up to p and back. */
  function Onto(c: nat, p: nat, j: nat): nat { if j == p then c else j + 1 }

  /** Where one is after k steps around the circle from p. */
  function Spot(c: nat, p: nat, k: nat): (j: nat)
    requires c < p
    ensures c <= j <= p
  {
    if k == 0 then p else Onto(c, p, Spot(c, p, k - 1))
  }

  /** Events of one time linked in a circle. */
  ghost predicate Circle(g: TG.Graph, s: seq<Event>, c: nat, p: nat) {
    && c < p < |s|
    && forall j :: c <= j <= p ==> s[j].time == s[p].time && EdgeBetween(s[j], s[Onto(c, p, j)]) in g.edges
  }

  /** The types met on n steps around the circle. */
  function Around(s: seq<Event>, c: nat, p: nat, n: nat): seq<PatternStep>
    requires c < p < |s|
  {
    seq(n, k requires 0 <= k < n => One(s[Spot(c, p, k)].eventType))
  }

  lemma LateParent(s: seq<Event>) returns (c: nat, p: nat)
    requires Ascending(s) && !ParentsFirst(s)
    ensures c < p < |s| && s[c].time == s[p].time && s[c].id != s[p].id && IsParentOf(s, s[p], s[c])
  {
    var child, parent :| child in s && IsParentOf(s, parent, child) && parent.id != child.id && !Before(parent, child);
    assert parent in s;
    p :| p < |s| && s[p] == parent;
    c :| c < |s| && s[c] == child;
    assert c < p;
  }

  lemma ParentAfter(gap: Option<int>, s: seq<Event>, part: string, keys: seq<string>, meta: seq<EdgeMeta>) returns (c: nat, p: nat)
    requires BuiltOf(gap, s, part, keys, meta) && !ParentsFirst(s) && (gap.Some? ==> gap.value >= 0)
    ensures c < p < |s| && s[c].time == s[p].time && EdgeBetween(s[p], s[c]) in NativeGraph(s, meta).edges
  {
    hide Grown, DistinctIds, TemporalLinks, EntityLinks;
    c, p := LateParent(s);
    var x := MetaOf(s[p], s[c], PARENT_PROCESS);
    assert Makes(gap, s[p], s[c], PARENT_PROCESS, x);
    assert x in ParentLinks(gap, s, s);
    BuiltExactly(gap, s, keys, meta, x);
    var e :| 0 <= e < |meta| && meta[e] == x;
    assert NativeGraph(s, meta).edges[e] == EdgeBetween(s[p], s[c]);
  }

  lemma CircleThere(gap: Option<int>, s: seq<Event>, part: string, keys: seq<string>, meta: seq<EdgeMeta>, c: nat, p: nat)
    requires BuiltOf(gap, s, part, keys, meta) && (gap.Some? ==> gap.value >= 0)
    requires c < p < |s| && s[c].time == s[p].time && EdgeBetween(s[p], s[c]) in NativeGraph(s, meta).edges
    ensures Circle(NativeGraph(s, meta), s, c, p)
  {
    hide Wanted, Grown;
    forall j | c <= j <= p ensures s[j].time == s[p].time && EdgeBetween(s[j], s[Onto(c, p, j)]) in NativeGraph(s, meta).edges {
      TimesBetween(s, c, j, p);
      if j < p {
        TimesBetween(s, c, j + 1, p);
        NextBuilt(gap, s, part, keys, meta, j);
      }
    }
  }

  /** The native engine goes around as long as the pattern does. */
  lemma {:induction false} Circling(g: TG.Graph, s: seq<Event>, within: int, c: nat, p: nat, n: nat, k: nat) returns (r: TG.Run)
    requires VerticesAre(g, s) && DistinctIds(s) && within >= 0 && c < p < |s| && Circle(g, s, c, p) && k < n
    requires Common(Around(s, c, p, n))
    ensures TG.Partial(g, NativeQuery(Around(s, c, p, n), within), r) && TG.Idx(r) == k + 1
    ensures TG.Last(r) == s[Spot(c, p, k)].id && TG.Origin(r) == p && TG.StartTime(r) == s[p].time
  {
    hide Circle, DistinctIds, VerticesAre, Common, StepMatches, Around, TG.Partial, TG.Idx, TG.Last;
    var steps := Around(s, c, p, n);
    OnCircle(g, s, c, p, n, k);
    if k == 0 {
      r := GreedyStart(g, s, steps, within, p);
    } else {
      var prev := Circling(g, s, within, c, p, n, k - 1);
      r := TiedStep(g, s, steps, within, prev, Spot(c, p, k - 1), Spot(c, p, k));
    }
  }

  lemma OnCircle(g: TG.Graph, s: seq<Event>, c: nat, p: nat, n: nat, k: nat)
    requires c < p < |s| && Circle(g, s, c, p) && k < n
    ensures |Around(s, c, p, n)| == n && s[Spot(c, p, k)].time == s[p].time && StepMatches(Around(s, c, p, n)[k], s[Spot(c, p, k)])
    ensures k > 0 ==>
      s[Spot(c, p, k - 1)].time == s[p].time && EdgeBetween(s[Spot(c, p, k - 1)], s[Spot(c, p, k)]) in g.edges
  {}

  lemma TiedStep(g: TG.Graph, s: seq<Event>, steps: seq<PatternStep>, within: int, prev: TG.Run, i: nat, j: nat) returns (r: TG.Run)
    requires VerticesAre(g, s) && DistinctIds(s) && Common(steps) && within >= 0 && i < |s| && j < |s|
    requires TG.Partial(g, NativeQuery(steps, within), prev) && TG.Last(prev) == s[i].id && TG.StartTime(prev) == s[i].time == s[j].time
    requires TG.Idx(prev) < |steps| && StepMatches(steps[TG.Idx(prev)], s[j]) && EdgeBetween(s[i], s[j]) in g.edges
    ensures TG.Partial(g, NativeQuery(steps, within), r) && TG.Idx(r) == TG.Idx(prev) + 1
    ensures TG.Last(r) == s[j].id && TG.Origin(r) == TG.Origin(prev) && TG.StartTime(r) == TG.StartTime(prev)
  {
    hide Common, StepMatches, DistinctIds, TG.Partial, TG.TypeMatches;
    var q := NativeQuery(steps, within);
    var e :| 0 <= e < |g.edges| && g.edges[e] == EdgeBetween(s[i], s[j]);
    PositionIs(g, s, i);
    PositionIs(g, s, j);
    TypeOf(g, s, steps, within, s[i].id, j, TG.Idx(prev));
    GoesOn(g, q, prev, e, TG.Advance, s[j].id);
    r := TG.Take(prev, e, s[j].id, TG.Advance);
  }

  lemma {:induction false} EventPerStep(steps: seq<PatternStep>, k: nat, p: seq<Event>)
    requires Common(steps) && k <= |steps| && Splits(steps, k, p)
    ensures |p| >= |steps| - k
    decreases |steps| - k
  {
    if k < |steps| {
      var m := FirstBlock(steps, k, p);
      EventPerStep(steps, k + 1, p[m..]);
    }
  }

  /** The standing matcher uses no event twice. */
  lemma TooManySteps(steps: seq<PatternStep>, within: int, s: seq<Event>, a: Event)
    requires Common(steps) && Ascending(s) && |steps| > |s|
    ensures !MatchFrom(steps, within, s, a)
  {
    if m :| ValidMatch(steps, within, s, m) && m[0] == a {
      EventPerStep(steps, 0, m);
      SublistExact(m, s);
      SublistShort(m, s);
    }
  }

  lemma Circled(gap: Option<int>, s: seq<Event>, part: string, keys: seq<string>, meta: seq<EdgeMeta>, within: int)
    requires BuiltOf(gap, s, part, keys, meta) && !ParentsFirst(s) && (gap.Some? ==> gap.value >= 0) && within >= 0
    ensures !AgreeOver(NativeGraph(s, meta), s, within)
  {
    hide Wanted, ParentsFirst, Grown, Circle, Spot, EdgeBetween, VerticesAre;
    var c, p := ParentAfter(gap, s, part, keys, meta);
    CircleThere(gap, s, part, keys, meta, c, p);
    BuiltVertices(s, meta);
    CircleParts(NativeGraph(s, meta), s, within, c, p);
  }

  lemma CircleParts(g: TG.Graph, s: seq<Event>, within: int, c: nat, p: nat)
    requires VerticesAre(g, s) && Ascending(s) && DistinctIds(s) && within >= 0 && c < p < |s| && Circle(g, s, c, p)
    ensures !AgreeOver(g, s, within)
  {
    hide Circle, Spot, VerticesAre, DistinctIds, Ascending, MatchFrom;
    var n := |s| + 1;
    var steps := Around(s, c, p, n);
    var r := Circling(g, s, within, c, p, n, n - 1);
    TooManySteps(steps, within, s, s[p]);
    assert NativeFrom(g, s, steps, within, s[p]);
  }

  lemma TiedNeighbours(s: seq<Event>)
    requires Ascending(s) && !ParentsFirst(s)
    ensures exists i :: 0 <= i < |s| - 1 && s[i + 1].time == s[i].time
  {
    var c, p := LateParent(s);
    TimesBetween(s, c, c + 1, p);
  }

  // ---- The exact condition ----

  lemma BuiltAgrees(gap: Option<int>, s: seq<Event>, p: string, keys: seq<string>, meta: seq<EdgeMeta>, within: int)
    requires BuiltOf(gap, s, p, keys, meta) && within >= 0 && ParentsFirst(s) && GapSpans(gap, s, within)
    ensures AgreeOver(NativeGraph(s, meta), s, within)
  {
    hide Wanted, ParentsFirst, GapSpans, Grown, Ascending, DistinctIds, GoodGraph;
    var g := NativeGraph(s, meta);
    BuiltIsGood(gap, s, p, keys, meta, within);
    forall steps, a | Common(steps) ensures NativeFrom(g, s, steps, within, a) <==> MatchFrom(steps, within, s, a) {
      SameStarts(g, s, steps, within, a);
    }
  }

  /** Whatever the window that is not negative: the engines detect alike over the built graph exactly
      when parents come first and the gap limit spans the window's neighbours. */
  lemma BuiltAgreesExactly(gap: Option<int>, s: seq<Event>, p: string, keys: seq<string>, meta: seq<EdgeMeta>, within: int)
    requires BuiltOf(gap, s, p, keys, meta) && within >= 0
    ensures AgreeOver(NativeGraph(s, meta), s, within) <==> ParentsFirst(s) && GapSpans(gap, s, within)
  {
    hide Wanted, ParentsFirst, Grown, AgreeOver, DistinctIds, Ascending;
    if ParentsFirst(s) && GapSpans(gap, s, within) {
      BuiltAgrees(gap, s, p, keys, meta, within);
    } else if !ParentsFirst(s) && (gap.Some? ==> gap.value >= 0) {
      Circled(gap, s, p, keys, meta, within);
    } else {
      if !ParentsFirst(s) { TiedNeighbours(s); }
      var i :| 0 <= i < |s| - 1 && s[i + 1].time - s[i].time <= within && !WithinGap(gap, s[i], s[i + 1]);
      CutOff(gap, s, p, keys, meta, within, i);
    }
  }

  // ---- An input that breaks it ----

  const TheChild := Event(1, "p", "B", 0, map["parent_process_id" := "x"])
  const TheParent := Event(2, "p", "A", 0, map["process_id" := "x"])

  /** A child and its parent process's event, of the same time. */
  function Family(): (s: seq<Event>)
    ensures |s| == 2 && s[0] == TheChild && s[1] == TheParent
  {
    [TheChild, TheParent]
  }

  function AThenB(): (steps: seq<PatternStep>)
    ensures Common(steps)
  {
    [One("A"), One("B")]
  }

  lemma FamilySorted()
    ensures Ascending(Family()) && DistinctIds(Family()) && SortEvents(Family()) == Family() && SortByPartition(Family()) == Family()
    ensures !ParentsFirst(Family())
  {
    hide Ascending, DistinctIds, ParentsFirst, SortByPartition, SortEvents;
    var s := Family();
    FamilyAscends();
    SortAscending(s);
    SortMembers(s);
    AscendingUnique(s, SortEvents(s));
    OnePartitionSort(s, "p");
    ParentIsLate();
  }

  lemma FamilyAscends()
    ensures Ascending(Family()) && DistinctIds(Family()) && UniqueKeys(Family()) && forall e :: e in Family() ==> e.partition == "p"
  {}

  lemma ParentIsLate()
    ensures !ParentsFirst(Family())
  {
    var s := Family();
    assert IsCandidate(s, TheParent, TheChild);
    forall e | IsCandidate(s, e, TheChild) ensures !Before(TheParent, e) {}
    assert IsParentOf(s, TheParent, TheChild) && TheChild in s;
  }

  /** Natively there is a run from the parent to its child; it is the only one, and short. */
  lemma ParentToChild(keys: seq<string>, meta: seq<EdgeMeta>) returns (r: TG.Run)
    requires BuiltOf(None, Family(), "p", keys, meta)
    ensures TG.Accepting(NativeGraph(Family(), meta), NativeQuery(AThenB(), 0), r) && TG.Origin(r) == 1
  {
    hide Wanted, Grown, TG.Partial, Ascending, DistinctIds, ParentsFirst;
    var s := Family();
    FamilySorted();
    var c, p := ParentAfter(None, s, "p", keys, meta);
    BuiltVertices(s, meta);
    var start := GreedyStart(NativeGraph(s, meta), s, AThenB(), 0, 1);
    r := TiedStep(NativeGraph(s, meta), s, AThenB(), 0, start, 1, 0);
  }

  lemma {:induction false} FamilyRuns(keys: seq<string>, meta: seq<EdgeMeta>, r: TG.Run)
    requires BuiltOf(None, Family(), "p", keys, meta) && TG.Partial(NativeGraph(Family(), meta), NativeQuery(AThenB(), 0), r)
    ensures TG.Len(r) == TG.Idx(r) <= 2
  {
    hide Wanted, Grown, Ascending;
    var s, g, q := Family(), NativeGraph(Family(), meta), NativeQuery(AThenB(), 0);
    TG.IdxBounded(g, q, r);
    if r.Take? {
      FamilyRuns(keys, meta, r.prev);
      BuiltVertices(s, meta);
      PositionIs(g, s, 0);
      PositionIs(g, s, 1);
      var a, b := EdgeJoins(None, s, "p", keys, meta, r.edge);
      assert r.prev.Start? && r.prev.vertex == 1;
    }
  }

  /** The standing matcher finds nothing from the parent. */
  lemma NothingFromParent(within: int)
    ensures !MatchFrom(AThenB(), within, Family(), TheParent)
  {
    if m :| ValidMatch(AThenB(), within, Family(), m) && m[0] == TheParent {
      ParentIsLast(m);
      EventPerStep(AThenB(), 0, m);
    }
  }

  lemma ParentIsLast(m: seq<Event>)
    requires Ascending(m) && m != [] && m[0] == TheParent && forall i :: 0 <= i < |m| ==> m[i] in Family()
    ensures |m| == 1
  {
    FamilySorted();
    var j :| 0 <= j < 2 && Family()[j] == m[|m| - 1];
    TailOfMatch(Family(), m, 1, j);
    SublistShort(m[1..], Family()[2..j + 1]);
  }
}
