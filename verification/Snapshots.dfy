/** Writing a temporal graph out and loading it again. */
module Snapshots {
  import opened Events
  import opened Matcher
  import opened Links
  import opened EdgeIndex
  import opened GraphState
  import opened StandingGraph
  import opened GraphCoverage

  datatype Snapshot = Snapshot(revision: nat, events: seq<Event>, edges: seq<GraphEdge>)

  /** The snapshot lists every live event and every edge once. */
  ghost predicate Shows(snap: Snapshot, events: map<int, Event>, bySrc: map<int, seq<GraphEdge>>, revision: nat) {
    && snap.revision == revision && DistinctIds(snap.events)
    && (forall e :: e in snap.events <==> e.id in events && events[e.id] == e)
    && EdgeIndex.UniqueKeys(snap.edges) && (forall x :: x in snap.edges <==> x in At(bySrc, x.src))
  }

  method TakeSnapshot(g: TemporalGraph) returns (snap: Snapshot)
    requires g.Valid()
    ensures Shows(snap, g.events, g.bySrc, g.revision)
  {
    var events := LiveEvents(g.events);
    var edges := AllEdges(g.bySrc, g.Ix());
    snap := Snapshot(g.revision, events, edges);
  }

  method LiveEvents(events: map<int, Event>) returns (s: seq<Event>)
    requires Filed(events)
    ensures DistinctIds(s) && forall e :: e in s <==> e.id in events && events[e.id] == e
  {
    s := [];
    var todo := events.Keys;
    while todo != {}
      invariant todo <= events.Keys && DistinctIds(s)
      invariant forall e :: e in s <==> e.id in events.Keys - todo && events[e.id] == e
      decreases todo
    {
      var i := TakeAny(todo);
      todo := todo - {i};
      forall k | 0 <= k < |s| ensures s[k].id != i { assert s[k] in s; }
      s := s + [events[i]];
    }
  }

  method AllEdges(bySrc: map<int, seq<GraphEdge>>, ghost ix: Index) returns (s: seq<GraphEdge>)
    requires Mirrored(ix) && ix.bySrc == bySrc
    ensures EdgeIndex.UniqueKeys(s) && forall x :: x in s <==> x in At(bySrc, x.src)
  {
    s := [];
    var todo := bySrc.Keys;
    while todo != {}
      invariant todo <= bySrc.Keys && EdgeIndex.UniqueKeys(s)
      invariant forall x :: x in s <==> x.src in bySrc.Keys - todo && x in bySrc[x.src]
      decreases todo
    {
      var k := TakeAny(todo);
      todo := todo - {k};
      assert At(bySrc, k) == bySrc[k];
      forall x | x in s ensures x.src != k {}
      assert forall x :: x in bySrc[k] ==> x.src == k;
      JoinedKeys(s, bySrc[k], k);
      s := s + bySrc[k];
    }
  }

  lemma JoinedKeys(a: seq<GraphEdge>, b: seq<GraphEdge>, k: int)
    requires EdgeIndex.UniqueKeys(a) && EdgeIndex.UniqueKeys(b)
    requires (forall x :: x in a ==> x.src != k) && forall x :: x in b ==> x.src == k
    ensures EdgeIndex.UniqueKeys(a + b)
  {
    forall i, j | 0 <= i < j < |a + b| ensures !SameKey((a + b)[i], (a + b)[j]) {
      if i < |a| <= j { assert a[i] in a && b[j - |a|] in b; }
    }
  }

  function AddEdges(es: seq<GraphEdge>): Index {
    if es == [] then Index(map[], map[]) else AddEdge(AddEdges(es[..|es| - 1]), es[|es| - 1])
  }

  method LoadSnapshot(g: TemporalGraph, snap: Snapshot)
    modifies g
    ensures g.revision == snap.revision && g.mutationLog == []
    ensures g.events == EventsOf(snap.events) && g.Ix() == AddEdges(snap.edges)
    ensures DistinctIds(snap.events) ==> Indexed(g.events, g.byPartition) && Clean(g.events, g.byPartition)
  {
    g.events, g.byPartition, g.bySrc, g.byDst, g.mutationLog := map[], map[], map[], map[], [];
    g.revision := snap.revision;
    assert snap.events[..0] == [] && snap.edges[..0] == [];
    for i := 0 to |snap.events|
      invariant g.revision == snap.revision && g.mutationLog == [] && g.Ix() == AddEdges([])
      invariant g.events == EventsOf(snap.events[..i])
      invariant DistinctIds(snap.events) ==> Indexed(g.events, g.byPartition) && Clean(g.events, g.byPartition)
    {
      var e := snap.events[i];
      if DistinctIds(snap.events) { NotYet(snap.events, i); }
      UpsertKeepsFiled(g.events, g.byPartition, e);
      EventsOfSnoc(snap.events[..i], e);
      assert snap.events[..i + 1] == snap.events[..i] + [e];
      g.AddEventOnly(e);
    }
    assert snap.events[..|snap.events|] == snap.events;
    for i := 0 to |snap.edges|
      invariant g.revision == snap.revision && g.mutationLog == [] && g.events == EventsOf(snap.events)
      invariant DistinctIds(snap.events) ==> Indexed(g.events, g.byPartition) && Clean(g.events, g.byPartition)
      invariant g.Ix() == AddEdges(snap.edges[..i])
    {
      assert snap.edges[..i + 1][..i] == snap.edges[..i];
      hide Indexed, Clean, EventsOf, AddEdge;
      g.AddEdgeOnly(snap.edges[i]);
    }
    assert snap.edges[..|snap.edges|] == snap.edges;
  }

  lemma UpsertKeepsFiled(events: map<int, Event>, byPartition: map<string, set<int>>, e: Event)
    ensures e.id !in events && Indexed(events, byPartition) && Clean(events, byPartition) ==>
      Indexed(events[e.id := e], Refile(byPartition, e.partition, e.id)) && Clean(events[e.id := e], Refile(byPartition, e.partition, e.id))
  {}

  /** Edges without repeats and loops all go in. */
  lemma {:induction false} AddEdgesExact(es: seq<GraphEdge>)
    requires EdgeIndex.UniqueKeys(es) && forall x :: x in es ==> x.src != x.dst
    ensures Mirrored(AddEdges(es)) && forall x :: Has(AddEdges(es), x) <==> x in es
  {
    if es != [] {
      var n := |es| - 1;
      var init, e := es[..n], es[n];
      assert es == init + [e];
      AddEdgesExact(init);
      var ix := AddEdges(init);
      AddEdgeMirrors(ix, e);
      KnownMeans(ix, e);
      forall x | Has(ix, x) ensures !SameKey(x, e) {
        var i :| 0 <= i < |init| && init[i] == x;
        assert es[i] == x;
      }
    }
  }

  /** Loading what was written gives back the live events and edges, revision and invariants, with
      the partition index clean even if it was not before. */
  lemma SnapshotRoundTrip(snap: Snapshot, events: map<int, Event>, keys: seq<string>, gap: Option<int>, ix: Index, revision: nat)
    requires GoodEdges(events, keys, gap, ix) && Shows(snap, events, ix.bySrc, revision)
    ensures EventsOf(snap.events) == events && snap.revision == revision
    ensures GoodEdges(events, keys, gap, AddEdges(snap.edges))
    ensures forall x :: Has(AddEdges(snap.edges), x) <==> Has(ix, x)
  {
    EventsOfExact(snap.events);
    var loaded := EventsOf(snap.events);
    forall i ensures i in loaded <==> i in events {
      if i in events { assert events[i] in snap.events; }
    }
    forall i | i in loaded ensures loaded[i] == events[i] { assert events[i] in snap.events; }
    assert loaded == events;
    forall x | x in snap.edges ensures x.src != x.dst { assert Has(ix, x); }
    AddEdgesExact(snap.edges);
  }
}
