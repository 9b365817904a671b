/** The standing runtime's mutable temporal graph. */
module GraphState {
  import opened Events
  import opened Links
  import opened EdgeIndex

  // ---- What the edges should be ----

  /** No edge dangles, and every edge strictly increases (time, id) under the current times. */
  ghost predicate Sound(events: map<int, Event>, ix: Index) {
    forall x :: Has(ix, x) ==>
      x.src in events && x.dst in events && Before(events[x.src], events[x.dst]) && x.time == events[x.dst].time
  }

  ghost predicate EntityEdge(events: map<int, Event>, keys: seq<string>, gap: Option<int>, x: GraphEdge) {
    && x.src in events && x.dst in events && Before(events[x.src], events[x.dst]) && x.time == events[x.dst].time
    && WithinGap(gap, events[x.src], events[x.dst])
    && exists k :: 0 <= k < |keys| && RelationOf(keys[k]) == x.relation && Shares(keys[k], events[x.src], events[x.dst])
  }

  /** The entity edges are exactly the pairs of live events sharing a field within the gap. */
  ghost predicate EntityExact(events: map<int, Event>, keys: seq<string>, gap: Option<int>, ix: Index) {
    forall x: GraphEdge :: IsEntityRelation(keys, x.relation) ==> (Has(ix, x) <==> EntityEdge(events, keys, gap, x))
  }

  ghost predicate GoodEdges(events: map<int, Event>, keys: seq<string>, gap: Option<int>, ix: Index) {
    Filed(events) && Mirrored(ix) && Sound(events, ix) && EntityExact(events, keys, gap, ix)
  }

  // ---- What rebuilding an event's edges adds ----

  ghost predicate NewTemporal(s: seq<Event>, gap: Option<int>, e: Event, x: GraphEdge) {
    exists n :: (Adjacent(s, e, n) || Adjacent(s, n, e)) && n.partition == e.partition && WithinGap(gap, e, n)
      && x == Link(e, n, TEMPORAL_NEXT)
  }

  ghost predicate NewEntity(events: map<int, Event>, gap: Option<int>, e: Event, key: string, among: set<int>, x: GraphEdge) {
    exists i :: i in among && i in events && i != e.id && Shares(key, e, events[i]) && WithinGap(gap, e, events[i])
      && x == Link(e, events[i], RelationOf(key))
  }

  ghost predicate NewEntities(events: map<int, Event>, gap: Option<int>, e: Event, keys: seq<string>, x: GraphEdge) {
    exists k :: 0 <= k < |keys| && NewEntity(events, gap, e, keys[k], events.Keys, x)
  }

  ghost predicate NewParent(events: map<int, Event>, gap: Option<int>, e: Event, x: GraphEdge) {
    var pid := Field(e, "parent_process_id");
    && pid.Some? && pid.value != ""
    && exists p ::
         IsParent(events, p, e, pid.value) && p.id != e.id && WithinGap(gap, p, e) && x == Link(p, e, PARENT_PROCESS)
  }

  ghost predicate Rebuilt(events: map<int, Event>, keys: seq<string>, gap: Option<int>, s: seq<Event>, e: Event, ix: Index, ix': Index) {
    && Mirrored(ix') && Sound(events, ix')
    && forall x :: Has(ix', x) <==>
         Has(ix, x) || NewTemporal(s, gap, e, x) || NewEntities(events, gap, e, keys, x) || NewParent(events, gap, e, x)
  }

  lemma AddLink(events: map<int, Event>, ix: Index, a: Event, b: Event, relation: string)
    requires Filed(events) && Mirrored(ix) && Sound(events, ix) && a.id != b.id
    requires a.id in events && events[a.id] == a && b.id in events && events[b.id] == b
    ensures var ix' := AddEdge(ix, Link(a, b, relation));
      && Mirrored(ix') && Sound(events, ix')
      && forall x :: Has(ix', x) <==> Has(ix, x) || x == Link(a, b, relation)
  {
    var e := Link(a, b, relation);
    AddEdgeMirrors(ix, e);
    KnownMeans(ix, e);
    if Known(ix, e) {
      var x :| Has(ix, x) && SameKey(x, e);
      assert x == e;
    }
  }

  /** Linking an event anew makes the entity edges exact again. */
  lemma RebuildExact(events: map<int, Event>, keys: seq<string>, gap: Option<int>, ix: Index,
                                        s: seq<Event>, e: Event, cleared: Index, ix': Index)
    requires GoodEdges(events, keys, gap, ix)
    requires forall x :: Has(cleared, x) <==> Has(ix, x) && x.src != e.id && x.dst != e.id
    requires forall n :: n in s ==> n.id in events[e.id := e] && events[e.id := e][n.id] == n
    requires Rebuilt(events[e.id := e], keys, gap, s, e, cleared, ix')
    ensures GoodEdges(events[e.id := e], keys, gap, ix')
  {
    var ev' := events[e.id := e];
    forall x: GraphEdge | IsEntityRelation(keys, x.relation) ensures Has(ix', x) <==> EntityEdge(ev', keys, gap, x) {
      OnlyEntities(keys, s, ev', gap, e, x);
      if x.src == e.id || x.dst == e.id {
        TouchingExact(ev', keys, gap, e, x);
      } else {
        NewTouches(ev', keys, gap, e, x);
        assert EntityEdge(ev', keys, gap, x) <==> EntityEdge(events, keys, gap, x);
      }
    }
  }

  /** An entity edge is neither a temporal nor a parent edge. */
  lemma OnlyEntities(keys: seq<string>, s: seq<Event>, events: map<int, Event>, gap: Option<int>, e: Event, x: GraphEdge)
    requires IsEntityRelation(keys, x.relation)
    ensures !NewTemporal(s, gap, e, x) && !NewParent(events, gap, e, x)
  {
    var k :| 0 <= k < |keys| && RelationOf(keys[k]) == x.relation;
    EntityRelationsApart(keys[k]);
  }

  lemma NewTouches(events: map<int, Event>, keys: seq<string>, gap: Option<int>, e: Event, x: GraphEdge)
    requires Filed(events)
    ensures NewEntities(events, gap, e, keys, x) ==> x.src == e.id || x.dst == e.id
  {}

  lemma TouchingExact(events: map<int, Event>, keys: seq<string>, gap: Option<int>, e: Event, x: GraphEdge)
    requires Filed(events) && e.id in events && events[e.id] == e && (x.src == e.id || x.dst == e.id)
    ensures NewEntities(events, gap, e, keys, x) <==> EntityEdge(events, keys, gap, x)
  {
    if NewEntities(events, gap, e, keys, x) {
      var k :| 0 <= k < |keys| && NewEntity(events, gap, e, keys[k], events.Keys, x);
      var i :| i in events && i != e.id && Shares(keys[k], e, events[i]) && WithinGap(gap, e, events[i])
        && x == Link(e, events[i], RelationOf(keys[k]));
      assert Shares(keys[k], events[x.src], events[x.dst]);
    }
    if EntityEdge(events, keys, gap, x) {
      var k :| 0 <= k < |keys| && RelationOf(keys[k]) == x.relation && Shares(keys[k], events[x.src], events[x.dst]);
      var i := if x.src == e.id then x.dst else x.src;
      assert x == Link(e, events[i], RelationOf(keys[k]));
      assert NewEntity(events, gap, e, keys[k], events.Keys, x);
    }
  }

  lemma RemoveExact(events: map<int, Event>, keys: seq<string>, gap: Option<int>, ix: Index, id: int)
    requires GoodEdges(events, keys, gap, ix)
    ensures GoodEdges(events - {id}, keys, gap, RemoveTouching(ix, id))
  {
    RemoveTouchingExact(ix, id);
    var ev', ix' := events - {id}, RemoveTouching(ix, id);
    forall x: GraphEdge | IsEntityRelation(keys, x.relation) ensures Has(ix', x) <==> EntityEdge(ev', keys, gap, x) {
      if x.src != id && x.dst != id {
        assert EntityEdge(ev', keys, gap, x) <==> EntityEdge(events, keys, gap, x);
      }
    }
  }

  // ---- Acyclicity ----

  ghost predicate Joined(ix: Index, a: int, b: int) {
    exists x :: Has(ix, x) && x.src == a && x.dst == b
  }

  ghost predicate IsWalk(ix: Index, w: seq<int>) {
    forall i {:trigger w[i]} :: 0 <= i < |w| - 1 ==> Joined(ix, w[i], w[i + 1])
  }

  /** Following edges always leads to later events. */
  lemma {:induction false} WalksAscend(events: map<int, Event>, ix: Index, w: seq<int>)
    requires Sound(events, ix) && |w| >= 2 && IsWalk(ix, w)
    ensures w[0] in events && w[|w| - 1] in events && Before(events[w[0]], events[w[|w| - 1]])
  {
    var a, b := w[|w| - 2], w[|w| - 1];
    assert Joined(ix, a, b);
    var x :| Has(ix, x) && x.src == a && x.dst == b;
    if |w| > 2 {
      var v := w[..|w| - 1];
      forall i {:trigger v[i]} | 0 <= i < |v| - 1 ensures Joined(ix, v[i], v[i + 1]) {
        assert v[i] == w[i] && v[i + 1] == w[i + 1];
      }
      WalksAscend(events, ix, v);
    }
  }

  /** So no walk comes back to where it started. */
  lemma NoCycle(events: map<int, Event>, ix: Index, w: seq<int>)
    requires Sound(events, ix) && |w| >= 2 && IsWalk(ix, w)
    ensures w[0] != w[|w| - 1]
  {
    WalksAscend(events, ix, w);
  }
}
