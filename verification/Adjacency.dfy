/** The linked adjacency index: one list head per vertex position, edges chained through
    their `next` slot.  It is filled in place and only read afterwards. */
module Adjacency {
  import opened TrendGraph

  datatype AdjEdge = AdjEdge(to: int, next: int, windowStart: int, windowEnd: int)

  /** The finished index as the executors see it, never changing it. */
  datatype AdjIndex = AdjIndex(head: seq<int>, slots: seq<AdjEdge>)

  /** The graph edge each slot is a copy of: the edges below n whose source exists. */
  function Origins(g: Graph, n: nat): (o: seq<nat>)
    requires n <= |g.edges|
    ensures |o| <= n && InRange(o, n)
  {
    if n == 0 then []
    else Origins(g, n - 1) + if VPos(g, g.edges[n - 1].src) >= 0 then [n - 1] else []
  }

  predicate Copies(g: Graph, ae: AdjEdge, e: nat) {
    && e < |g.edges|
    && ae.to == g.edges[e].dst
    && ae.windowStart == g.edges[e].windowStart
    && ae.windowEnd == g.edges[e].windowEnd
  }

  predicate Linked(slots: seq<AdjEdge>) {
    forall s :: 0 <= s < |slots| ==> -1 <= slots[s].next < s
  }

  /** The edge indices met when following `next` from slot ei. */
  function Chain(slots: seq<AdjEdge>, origin: seq<nat>, ei: int): seq<nat>
    requires |origin| == |slots| && -1 <= ei < |slots| && Linked(slots)
    decreases ei + 1
  {
    if ei < 0 then [] else [origin[ei]] + Chain(slots, origin, slots[ei].next)
  }

  lemma {:induction false} ChainGrow(slots: seq<AdjEdge>, origin: seq<nat>, e: AdjEdge, o: nat, ei: int)
    requires |origin| == |slots| && -1 <= ei < |slots| && -1 <= e.next < |slots| && Linked(slots)
    ensures Linked(slots + [e]) && Chain(slots + [e], origin + [o], ei) == Chain(slots, origin, ei)
    decreases ei + 1
  {
    if ei >= 0 {
      ChainGrow(slots, origin, e, o, slots[ei].next);
    }
  }

  /** Slots copy the edges below n, and following the list of any vertex meets its outgoing
      edges below n, latest first. */
  ghost predicate Indexes(g: Graph, head: seq<int>, slots: seq<AdjEdge>, n: nat) {
    && n <= |g.edges| && |slots| == |Origins(g, n)| && Linked(slots)
    && (forall s :: 0 <= s < |slots| ==> Copies(g, slots[s], Origins(g, n)[s]))
    && |g.vertices| <= |head|
    && forall p :: 0 <= p < |g.vertices| ==>
         -1 <= head[p] < |slots| && Chain(slots, Origins(g, n), head[p]) == OutEdges(g, p, n)
  }

  ghost predicate Built(g: Graph, a: AdjIndex) {
    Indexes(g, a.head, a.slots, |g.edges|)
  }

  lemma SkipSlot(g: Graph, head: seq<int>, slots: seq<AdjEdge>, n: nat)
    requires n < |g.edges| && Indexes(g, head, slots, n) && VPos(g, g.edges[n].src) < 0
    ensures Indexes(g, head, slots, n + 1)
  {
    forall p | 0 <= p < |g.vertices| ensures OutEdges(g, p, n + 1) == OutEdges(g, p, n) {}
    assert Origins(g, n + 1) == Origins(g, n);
  }

  lemma AddSlot(g: Graph, head: seq<int>, slots: seq<AdjEdge>, n: nat, slot: AdjEdge)
    requires n < |g.edges| && Indexes(g, head, slots, n) && VPos(g, g.edges[n].src) >= 0
    requires Copies(g, slot, n) && slot.next == head[VPos(g, g.edges[n].src)]
    ensures Indexes(g, head[VPos(g, g.edges[n].src) := |slots|], slots + [slot], n + 1)
  {
    var sp, origin := VPos(g, g.edges[n].src), Origins(g, n);
    var slots', head' := slots + [slot], head[sp := |slots|];
    assert Origins(g, n + 1) == origin + [n];
    forall p | 0 <= p < |g.vertices|
      ensures -1 <= head'[p] < |slots'| && Chain(slots', origin + [n], head'[p]) == OutEdges(g, p, n + 1)
    {
      ChainGrow(slots, origin, slot, n, head[p]);
    }
  }

  /** The edges still to be looked at when the scan stands at slot ei. */
  function From(g: Graph, a: AdjIndex, ei: int): seq<nat>
    requires |a.slots| == |Origins(g, |g.edges|)| && Linked(a.slots) && -1 <= ei < |a.slots|
  {
    Chain(a.slots, Origins(g, |g.edges|), ei)
  }

  lemma FromEnd(g: Graph, a: AdjIndex)
    requires Built(g, a)
    ensures From(g, a, -1) == []
  {}

  lemma Next(g: Graph, a: AdjIndex, ei: nat) returns (e: nat)
    requires Built(g, a) && ei < |a.slots| && InRange(From(g, a, ei), |g.edges|)
    ensures -1 <= a.slots[ei].next < ei && Copies(g, a.slots[ei], e)
    ensures From(g, a, ei) == [e] + From(g, a, a.slots[ei].next)
    ensures InRange(From(g, a, a.slots[ei].next), |g.edges|)
  {
    e := Origins(g, |g.edges|)[ei];
    var rest := From(g, a, a.slots[ei].next);
    assert From(g, a, ei) == [e] + rest;
    assert forall i :: 0 <= i < |rest| ==> rest[i] == From(g, a, ei)[i + 1];
  }

  method BuildAdj(g: Graph, lim: Limits) returns (a: AdjIndex)
    requires Fits(g, lim)
    ensures Built(g, a)
  {
    var head := new int[lim.maxEvents];
    var slots := new AdjEdge[lim.maxEdges](_ => AdjEdge(0, -1, 0, 0));
    for i := 0 to |g.vertices|
      invariant forall p :: 0 <= p < i ==> head[p] == -1
    {
      head[i] := -1;
    }
    var ecount := 0;
    for i := 0 to |g.edges|
      invariant ecount <= i && Indexes(g, head[..], slots[..ecount], i)
    {
      var sp := VertexPosition(g, g.edges[i].src);
      if sp < 0 {
        SkipSlot(g, head[..], slots[..ecount], i);
      } else {
        var slot := AdjEdge(g.edges[i].dst, head[sp], g.edges[i].windowStart, g.edges[i].windowEnd);
        AddSlot(g, head[..], slots[..ecount], i, slot);
        ghost var heads, before := head[..], slots[..ecount];
        slots[ecount] := slot;
        head[sp] := ecount;
        ecount := ecount + 1;
        assert slots[..ecount] == before + [slot] && head[..] == heads[sp := |before|];
      }
    }
    return AdjIndex(head[..], slots[..ecount]);
  }

  method VertexPosition(g: Graph, id: int) returns (p: int)
    ensures p == VPos(g, id)
  {
    for i := 0 to |g.vertices|
      invariant forall k :: 0 <= k < i ==> g.vertices[k].id != id
    {
      if g.vertices[i].id == id {
        VPosFirst(g, id, i);
        return i;
      }
    }
    VPosFirst(g, id, -1);
    return -1;
  }
}
