/** Events inserted one by one, in any order, give the standing graph every temporal and entity edge
    the batch builder makes from the same events. */
module GraphCoverage {
  import opened Events
  import opened Matcher
  import opened Links
  import opened EdgeIndex
  import opened GraphState
  import opened StandingGraph
  import opened SecurityGraph

  function EventsOf(s: seq<Event>): (m: map<int, Event>)
    ensures Filed(m)
  {
    if s == [] then map[] else EventsOf(s[..|s| - 1])[s[|s| - 1].id := s[|s| - 1]]
  }

  lemma EventsOfSnoc(s: seq<Event>, e: Event)
    ensures EventsOf(s + [e]) == EventsOf(s)[e.id := e]
  {
    assert (s + [e])[..|s|] == s;
  }

  lemma {:induction false} EventsOfExact(s: seq<Event>)
    requires DistinctIds(s)
    ensures forall i :: i in EventsOf(s) <==> exists e :: e in s && e.id == i
    ensures forall e :: e in s ==> EventsOf(s)[e.id] == e
  {
    if s != [] {
      var t, e := s[..|s| - 1], s[|s| - 1];
      assert s == t + [e];
      EventsOfExact(t);
      assert forall x :: x in s <==> x in t || x == e;
      forall x | x in t ensures x.id != e.id { var i :| 0 <= i < |t| && t[i] == x; assert s[i] == x; }
    }
  }

  /** ix is the edge index after inserting the events one after the other. */
  ghost predicate GrownFrom(keys: seq<string>, gap: Option<int>, s: seq<Event>, ix: Index) {
    if s == [] then ix == Index(map[], map[])
    else
      var e := s[|s| - 1];
      exists before ::
        GrownFrom(keys, gap, s[..|s| - 1], before)
        && Rebuilt(EventsOf(s), keys, gap, PartitionEvents(EventsOf(s), e.partition), e, before, ix)
  }

  /** Inserting distinct events into an empty graph. */
  method InsertAll(g: TemporalGraph, s: seq<Event>)
    requires g.Valid() && Clean(g.events, g.byPartition) && g.events == map[] && g.Ix() == Index(map[], map[])
    requires DistinctIds(s)
    modifies g
    ensures g.Valid() && Clean(g.events, g.byPartition)
    ensures g.events == EventsOf(s) && GrownFrom(g.entityKeys, g.maxGapMs, s, g.Ix())
  {
    assert s[..0] == [];
    for i := 0 to |s|
      invariant g.Valid() && Clean(g.events, g.byPartition)
      invariant g.events == EventsOf(s[..i]) && GrownFrom(g.entityKeys, g.maxGapMs, s[..i], g.Ix())
    {
      NotYet(s, i);
      InsertNext(g, s, i);
    }
    assert s[..|s|] == s;
  }

  method InsertNext(g: TemporalGraph, s: seq<Event>, i: nat)
    requires g.Valid() && Clean(g.events, g.byPartition) && i < |s| && s[i].id !in g.events
    requires g.events == EventsOf(s[..i]) && GrownFrom(g.entityKeys, g.maxGapMs, s[..i], g.Ix())
    modifies g
    ensures g.Valid() && Clean(g.events, g.byPartition)
    ensures g.events == EventsOf(s[..i + 1]) && GrownFrom(g.entityKeys, g.maxGapMs, s[..i + 1], g.Ix())
  {
    hide GoodEdges, Rebuilt, Clean, Indexed, GrownFrom, EventsOf;
    ghost var before := g.Ix();
    EventsOfSnoc(s[..i], s[i]);
    assert s[..i + 1] == s[..i] + [s[i]];
    var m := g.UpsertEvent(s[i]);
    GrownSnoc(g.entityKeys, g.maxGapMs, s[..i], s[i], before, g.Ix());
  }

  lemma GrownSnoc(keys: seq<string>, gap: Option<int>, s: seq<Event>, e: Event, before: Index, ix: Index)
    requires GrownFrom(keys, gap, s, before)
    requires Rebuilt(EventsOf(s + [e]), keys, gap, PartitionEvents(EventsOf(s + [e]), e.partition), e, before, ix)
    ensures GrownFrom(keys, gap, s + [e], ix)
  {
    assert (s + [e])[..|s|] == s;
  }

  lemma NotYet(s: seq<Event>, i: nat)
    requires DistinctIds(s) && i < |s|
    ensures s[i].id !in EventsOf(s[..i])
  {
    EventsOfExact(s[..i]);
  }

  // ---- Neighbours stay linked ----

  /** Every two neighbours of a partition within the gap are linked. */
  ghost predicate Chained(events: map<int, Event>, gap: Option<int>, ix: Index)
    requires Filed(events)
  {
    forall p, a, b :: Adjacent(PartitionEvents(events, p), a, b) && WithinGap(gap, a, b) ==> Has(ix, Link(a, b, TEMPORAL_NEXT))
  }

  lemma AdjacentMeans(s: seq<Event>, a: Event, b: Event)
    requires Ascending(s)
    ensures Adjacent(s, a, b) <==> a in s && b in s && Before(a, b) && forall c :: c in s ==> !(Before(a, c) && Before(c, b))
  {
    if Adjacent(s, a, b) {
      var i :| 0 <= i < |s| - 1 && s[i] == a && s[i + 1] == b;
      forall c | c in s ensures !(Before(a, c) && Before(c, b)) {
        var j :| 0 <= j < |s| && s[j] == c;
        assert j <= i || i + 1 <= j;
      }
    }
    if a in s && b in s && Before(a, b) && forall c :: c in s ==> !(Before(a, c) && Before(c, b)) {
      var i :| 0 <= i < |s| && s[i] == a;
      var j :| 0 <= j < |s| && s[j] == b;
      assert i < j;
      SomethingBetween(s, i, j);
    }
  }

  lemma SomethingBetween(s: seq<Event>, i: nat, j: nat)
    requires Ascending(s) && i < j < |s|
    ensures i + 1 < j ==> exists c :: c in s && Before(s[i], c) && Before(c, s[j])
  {
    var c := s[i + 1];
    assert c in s && Before(s[i], c);
  }

  /** Inserting a fresh event keeps neighbours linked: only it can have new neighbours. */
  lemma InsertKeepsChained(events: map<int, Event>, keys: seq<string>, gap: Option<int>, e: Event, ix: Index, ix': Index)
    requires Filed(events) && e.id !in events && Chained(events, gap, ix)
    requires Rebuilt(events[e.id := e], keys, gap, PartitionEvents(events[e.id := e], e.partition), e, ix, ix')
    ensures Chained(events[e.id := e], gap, ix')
  {
    hide Has, Adjacent, Before, Ascending, Link;
    var after := events[e.id := e];
    forall p, a, b | Adjacent(PartitionEvents(after, p), a, b) && WithinGap(gap, a, b) ensures Has(ix', Link(a, b, TEMPORAL_NEXT)) {
      AdjacentMeans(PartitionEvents(after, p), a, b);
      if a.id == e.id {
        assert a == e && p == e.partition && NewTemporal(PartitionEvents(after, p), gap, e, Link(e, b, TEMPORAL_NEXT));
      } else if b.id == e.id {
        assert b == e && a.partition == e.partition;
        LinkSymmetric(a, e, TEMPORAL_NEXT);
        assert NewTemporal(PartitionEvents(after, e.partition), gap, e, Link(e, a, TEMPORAL_NEXT));
      } else {
        StillAdjacent(events, e, p, a, b);
      }
    }
  }

  lemma StillAdjacent(events: map<int, Event>, e: Event, p: string, a: Event, b: Event)
    requires Filed(events) && e.id !in events && a.id != e.id && b.id != e.id
    requires Adjacent(PartitionEvents(events[e.id := e], p), a, b)
    ensures Adjacent(PartitionEvents(events, p), a, b)
  {
    var s, s' := PartitionEvents(events, p), PartitionEvents(events[e.id := e], p);
    AdjacentMeans(s', a, b);
    LiveOthers(events, e, p);
    AdjacentAmongFewer(s, s', a, b);
  }

  lemma LiveOthers(events: map<int, Event>, e: Event, p: string)
    requires Filed(events) && e.id !in events
    ensures var s, s' := PartitionEvents(events, p), PartitionEvents(events[e.id := e], p);
      (forall c :: c in s ==> c in s') && forall c :: c in s' && c.id != e.id ==> c in s
  {
    hide Before, Ascending;
  }

  lemma AdjacentAmongFewer(s: seq<Event>, s': seq<Event>, a: Event, b: Event)
    requires Ascending(s) && Ascending(s') && (forall c :: c in s ==> c in s')
    requires a in s && b in s && Adjacent(s', a, b)
    ensures Adjacent(s, a, b)
  {
    AdjacentMeans(s, a, b);
    AdjacentMeans(s', a, b);
  }

  lemma EmptyIsGood(keys: seq<string>, gap: Option<int>)
    ensures GoodEdges(map[], keys, gap, Index(map[], map[])) && Chained(map[], gap, Index(map[], map[]))
  {}

  lemma NothingTouches(events: map<int, Event>, ix: Index, i: int)
    requires Sound(events, ix) && i !in events
    ensures forall x :: Has(ix, x) <==> Has(ix, x) && x.src != i && x.dst != i
  {}

  lemma {:induction false} GrownIsGood(keys: seq<string>, gap: Option<int>, s: seq<Event>, ix: Index)
    requires DistinctIds(s) && GrownFrom(keys, gap, s, ix)
    ensures GoodEdges(EventsOf(s), keys, gap, ix) && Chained(EventsOf(s), gap, ix)
  {
    hide Rebuilt, Chained, EntityExact, Mirrored, Sound, Has;
    if s == [] {
      EmptyIsGood(keys, gap);
    } else {
      var t, e := s[..|s| - 1], s[|s| - 1];
      var before :| GrownFrom(keys, gap, t, before)
        && Rebuilt(EventsOf(s), keys, gap, PartitionEvents(EventsOf(s), e.partition), e, before, ix);
      GrownIsGood(keys, gap, t, before);
      NotYet(s, |s| - 1);
      NothingTouches(EventsOf(t), before, e.id);
      RebuildExact(EventsOf(t), keys, gap, before, PartitionEvents(EventsOf(s), e.partition), e, before, ix);
      InsertKeepsChained(EventsOf(t), keys, gap, e, before, ix);
    }
  }

  // ---- The builder's edges ----

  /** The standing edge an edge of the builder corresponds to. */
  function Counterpart(x: EdgeMeta): GraphEdge {
    GraphEdge(x.src, x.dst, x.relation, x.windowEnd)
  }

  lemma TemporalPresent(gap: Option<int>, s: seq<Event>, events: map<int, Event>, ix: Index, x: EdgeMeta)
    requires Filed(events) && PartitionsAscend(s) && forall e :: e in s <==> e.id in events && events[e.id] == e
    requires Chained(events, gap, ix) && x in TemporalLinks(gap, s, PartitionsOf(s))
    ensures Has(ix, Counterpart(x))
  {
    hide ChainLinks, OfPartition, Has, ListOf;
    var p :| p in PartitionsOf(s) && x in ChainLinks(gap, OfPartition(s, p), TEMPORAL_NEXT);
    var c := OfPartition(s, p);
    OfPartitionAscending(s, p);
    forall e ensures e in c <==> e.id in PartitionIds(events, p) && events[e.id] == e {
      OfPartitionMembers(s, p, e);
    }
    ListOfUnique(PartitionIds(events, p), events, c);
    ChainAdjacent(gap, c, TEMPORAL_NEXT, x);
    var a, b :| Adjacent(c, a, b) && WithinGap(gap, a, b) && Counterpart(x) == Link(a, b, TEMPORAL_NEXT);
    assert Adjacent(PartitionEvents(events, p), a, b);
  }

  lemma ChainAdjacent(gap: Option<int>, c: seq<Event>, relation: string, x: EdgeMeta)
    requires Ascending(c) && x in ChainLinks(gap, c, relation)
    ensures exists a, b ::
      Adjacent(c, a, b) && WithinGap(gap, a, b) && a in c && b in c && Before(a, b) && a.id != b.id
      && x == EdgeMeta(a.id, b.id, relation, a.time, b.time) && Counterpart(x) == Link(a, b, relation)
  {
    var i :| 0 <= i < |c| - 1 && Makes(gap, c[i], c[i + 1], relation, x);
    assert Adjacent(c, c[i], c[i + 1]) && Before(c[i], c[i + 1]);
  }

  lemma EntityPresent(keys: seq<string>, gap: Option<int>, s: seq<Event>, events: map<int, Event>, ix: Index, x: EdgeMeta)
    requires Filed(events) && DistinctIds(s) && forall e :: e in s <==> e.id in events && events[e.id] == e
    requires EntityExact(events, keys, gap, ix) && x in EntityLinks(gap, s, keys)
    ensures Has(ix, Counterpart(x))
  {
    hide ChainLinks, Group, Has, RelationOf, Field, Adjacent;
    var k :| 0 <= k < |keys| && x in EntityLinksFor(gap, s, keys[k], ValuesOf(s, keys[k]));
    var v :| v in ValuesOf(s, keys[k]) && x in ChainLinks(gap, Group(s, keys[k], v), RelationOf(keys[k]));
    var c := Group(s, keys[k], v);
    GroupAscending(s, keys[k], v);
    ChainAdjacent(gap, c, RelationOf(keys[k]), x);
    var a, b :| Adjacent(c, a, b) && WithinGap(gap, a, b) && a in c && b in c && Before(a, b) && a.id != b.id
      && x == EdgeMeta(a.id, b.id, RelationOf(keys[k]), a.time, b.time) && Counterpart(x) == Link(a, b, RelationOf(keys[k]));
    GroupMembers(s, keys[k], v, a);
    GroupMembers(s, keys[k], v, b);
    assert Shares(keys[k], a, b);
    assert EntityEdge(events, keys, gap, Counterpart(x));
  }

  lemma SortedDistinct(given: seq<Event>, s: seq<Event>)
    requires DistinctIds(given) && PartitionSorted(s) && forall e :: e in s <==> e in given
    ensures DistinctIds(s)
  {
    forall i, j | 0 <= i < j < |s| ensures s[i].id != s[j].id {
      assert s[i] in given && s[j] in given && Precedes(s[i], s[j]);
      LexIrreflexive(s[i].partition);
      DistinctMember(given, s[i], s[j]);
    }
  }

  /** Whatever order the events were inserted in, the standing graph holds each temporal and entity
      edge the builder makes from them, in the same direction. */
  lemma BuilderEdgesPresent(keys: seq<string>, gap: Option<int>, arrived: seq<Event>, ix: Index, given: seq<Event>, x: EdgeMeta)
    requires DistinctIds(arrived) && DistinctIds(given) && Within(arrived, given) && Within(given, arrived)
    requires GrownFrom(keys, gap, arrived, ix)
    requires var s := SortByPartition(given);
      x in TemporalLinks(gap, s, PartitionsOf(s)) + EntityLinks(gap, s, keys)
    ensures Has(ix, Counterpart(x))
  {
    hide TemporalLinks, EntityLinks, Chained, EntityExact;
    var s, events := SortByPartition(given), EventsOf(arrived);
    GrownIsGood(keys, gap, arrived, ix);
    SortedByPartition(given);
    SortedPartitionsAscend(s);
    ByPartitionMembers(given);
    SortedDistinct(given, s);
    EventsOfExact(arrived);
    forall e ensures e in s <==> e.id in events && events[e.id] == e {
      if e in s { var j :| 0 <= j < |given| && given[j] == e; assert e in arrived; }
      if e.id in events && events[e.id] == e {
        var i :| 0 <= i < |arrived| && arrived[i] == e;
        assert e in given;
      }
    }
    if x in TemporalLinks(gap, s, PartitionsOf(s)) {
      TemporalPresent(gap, s, events, ix, x);
    } else {
      EntityPresent(keys, gap, s, events, ix, x);
    }
  }
}
