/** The two mirrored edge indexes of the standing graph, as values. */
module EdgeIndex {
  import opened Events
  import opened Links

  datatype Index = Index(bySrc: map<int, seq<GraphEdge>>, byDst: map<int, seq<GraphEdge>>)

  function At(m: map<int, seq<GraphEdge>>, k: int): seq<GraphEdge> {
    if k in m then m[k] else []
  }

  predicate Has(ix: Index, x: GraphEdge) {
    x in At(ix.bySrc, x.src)
  }

  predicate SameKey(x: GraphEdge, y: GraphEdge) {
    x.src == y.src && x.dst == y.dst && x.relation == y.relation
  }

  ghost predicate UniqueKeys(s: seq<GraphEdge>) {
    forall i, j :: 0 <= i < j < |s| ==> !SameKey(s[i], s[j])
  }

  /** Each edge is listed once under its source and once under its target, and nowhere else. */
  ghost predicate Mirrored(ix: Index) {
    && (forall k, x :: x in At(ix.bySrc, k) ==> x.src == k && x in At(ix.byDst, x.dst))
    && (forall k, x :: x in At(ix.byDst, k) ==> x.dst == k && x in At(ix.bySrc, x.src))
    && (forall k :: UniqueKeys(At(ix.bySrc, k)) && UniqueKeys(At(ix.byDst, k)))
  }

  predicate Known(ix: Index, e: GraphEdge) {
    exists i :: 0 <= i < |At(ix.bySrc, e.src)| &&
      At(ix.bySrc, e.src)[i].dst == e.dst && At(ix.bySrc, e.src)[i].relation == e.relation
  }

  function AddEdge(ix: Index, e: GraphEdge): Index {
    if e.src == e.dst || Known(ix, e) then ix
    else Index(ix.bySrc[e.src := At(ix.bySrc, e.src) + [e]], ix.byDst[e.dst := At(ix.byDst, e.dst) + [e]])
  }

  lemma KnownMeans(ix: Index, e: GraphEdge)
    requires Mirrored(ix)
    ensures Known(ix, e) <==> exists x :: Has(ix, x) && SameKey(x, e)
  {
    var s := At(ix.bySrc, e.src);
    if Known(ix, e) {
      var i :| 0 <= i < |s| && s[i].dst == e.dst && s[i].relation == e.relation;
      assert s[i] in s;
      assert Has(ix, s[i]) && SameKey(s[i], e);
    }
  }

  lemma AddEdgeMirrors(ix: Index, e: GraphEdge)
    requires Mirrored(ix)
    ensures Mirrored(AddEdge(ix, e))
    ensures forall x :: Has(AddEdge(ix, e), x) <==> Has(ix, x) || (x == e && e.src != e.dst && !Known(ix, e))
  {
    if e.src != e.dst && !Known(ix, e) {
      KnownMeans(ix, e);
      forall x | x in At(ix.bySrc, e.src) || x in At(ix.byDst, e.dst) ensures !SameKey(x, e) { assert Has(ix, x); }
      Listed(ix.bySrc, e.src, e);
      Listed(ix.byDst, e.dst, e);
    }
  }

  lemma Listed(m: map<int, seq<GraphEdge>>, k: int, e: GraphEdge)
    requires (forall j :: UniqueKeys(At(m, j))) && forall x :: x in At(m, k) ==> !SameKey(x, e)
    ensures var m' := m[k := At(m, k) + [e]];
      && (forall j :: UniqueKeys(At(m', j)))
      && forall j, x :: x in At(m', j) <==> x in At(m, j) || (x == e && j == k)
  {
    Appended(At(m, k), e);
    var m' := m[k := At(m, k) + [e]];
    assert forall j :: At(m', j) == if j == k then At(m, k) + [e] else At(m, j);
  }

  lemma Appended(s: seq<GraphEdge>, e: GraphEdge)
    requires UniqueKeys(s) && forall x :: x in s ==> !SameKey(x, e)
    ensures UniqueKeys(s + [e])
  {
    forall i | 0 <= i < |s| ensures !SameKey(s[i], e) { assert s[i] in s; }
  }

  // ---- Removing an event's edges ----

  function DropSrc(s: seq<GraphEdge>, src: int, relation: string): seq<GraphEdge> {
    if s == [] then []
    else (if s[0].src == src && s[0].relation == relation then [] else [s[0]]) + DropSrc(s[1..], src, relation)
  }

  function DropDst(s: seq<GraphEdge>, dst: int, relation: string): seq<GraphEdge> {
    if s == [] then []
    else (if s[0].dst == dst && s[0].relation == relation then [] else [s[0]]) + DropDst(s[1..], dst, relation)
  }

  lemma {:induction false} DropSrcExact(s: seq<GraphEdge>, src: int, relation: string)
    ensures forall x :: x in DropSrc(s, src, relation) <==> x in s && !(x.src == src && x.relation == relation)
    ensures UniqueKeys(s) ==> UniqueKeys(DropSrc(s, src, relation))
  {
    if s != [] {
      DropSrcExact(s[1..], src, relation);
      assert s == [s[0]] + s[1..];
      if UniqueKeys(s) { Prepended(s, DropSrc(s[1..], src, relation)); }
    }
  }

  lemma {:induction false} DropDstExact(s: seq<GraphEdge>, dst: int, relation: string)
    ensures forall x :: x in DropDst(s, dst, relation) <==> x in s && !(x.dst == dst && x.relation == relation)
    ensures UniqueKeys(s) ==> UniqueKeys(DropDst(s, dst, relation))
  {
    if s != [] {
      DropDstExact(s[1..], dst, relation);
      assert s == [s[0]] + s[1..];
      if UniqueKeys(s) { Prepended(s, DropDst(s[1..], dst, relation)); }
    }
  }

  lemma Prepended(s: seq<GraphEdge>, t: seq<GraphEdge>)
    requires s != [] && UniqueKeys(s) && (UniqueKeys(s[1..]) ==> UniqueKeys(t)) && forall x :: x in t ==> x in s[1..]
    ensures UniqueKeys(t) && UniqueKeys([s[0]] + t) && [] + t == t
  {
    assert UniqueKeys(s[1..]);
    forall i | 0 <= i < |t| ensures !SameKey(s[0], t[i]) {
      assert t[i] in s[1..];
      var j :| 0 <= j < |s| - 1 && s[1..][j] == t[i];
      assert s[j + 1] == t[i];
    }
  }

  /** byDst without the edges of the list, all of them leaving one event. */
  function DropFromDst(byDst: map<int, seq<GraphEdge>>, gone: seq<GraphEdge>): map<int, seq<GraphEdge>>
    decreases |gone|
  {
    if gone == [] then byDst
    else DropFromDst(byDst[gone[0].dst := DropSrc(At(byDst, gone[0].dst), gone[0].src, gone[0].relation)], gone[1..])
  }

  function DropFromSrc(bySrc: map<int, seq<GraphEdge>>, gone: seq<GraphEdge>): map<int, seq<GraphEdge>>
    decreases |gone|
  {
    if gone == [] then bySrc
    else DropFromSrc(bySrc[gone[0].src := DropDst(At(bySrc, gone[0].src), gone[0].dst, gone[0].relation)], gone[1..])
  }

  /** An edge of the list has x's key. */
  ghost predicate Lists(gone: seq<GraphEdge>, x: GraphEdge) {
    exists j :: 0 <= j < |gone| && SameKey(gone[j], x)
  }

  lemma GoneStep(gone: seq<GraphEdge>)
    requires gone != []
    ensures forall x :: Lists(gone, x) <==> SameKey(gone[0], x) || Lists(gone[1..], x)
  {
    forall x ensures Lists(gone, x) <==> SameKey(gone[0], x) || Lists(gone[1..], x) {
      if j :| 0 <= j < |gone| && SameKey(gone[j], x) && j > 0 { assert SameKey(gone[1..][j - 1], x); }
      if j :| 0 <= j < |gone[1..]| && SameKey(gone[1..][j], x) { assert SameKey(gone[j + 1], x); }
    }
  }

  lemma {:induction false} DropFromDstExact(byDst: map<int, seq<GraphEdge>>, gone: seq<GraphEdge>, k: int)
    requires UniqueKeys(At(byDst, k)) && forall x :: x in At(byDst, k) ==> x.dst == k
    ensures var s := At(DropFromDst(byDst, gone), k);
      && UniqueKeys(s)
      && forall x :: x in s <==> x in At(byDst, k) && !Lists(gone, x)
    decreases |gone|
  {
    if gone != [] {
      hide DropSrc, UniqueKeys;
      var g, m := gone[0], byDst[gone[0].dst := DropSrc(At(byDst, gone[0].dst), gone[0].src, gone[0].relation)];
      DropSrcExact(At(byDst, g.dst), g.src, g.relation);
      DropFromDstExact(m, gone[1..], k);
      GoneStep(gone);
    }
  }

  lemma {:induction false} DropFromSrcExact(bySrc: map<int, seq<GraphEdge>>, gone: seq<GraphEdge>, k: int)
    requires UniqueKeys(At(bySrc, k)) && forall x :: x in At(bySrc, k) ==> x.src == k
    ensures var s := At(DropFromSrc(bySrc, gone), k);
      && UniqueKeys(s)
      && forall x :: x in s <==> x in At(bySrc, k) && !Lists(gone, x)
    decreases |gone|
  {
    if gone != [] {
      hide DropDst, UniqueKeys;
      var g, m := gone[0], bySrc[gone[0].src := DropDst(At(bySrc, gone[0].src), gone[0].dst, gone[0].relation)];
      DropDstExact(At(bySrc, g.src), g.dst, g.relation);
      DropFromSrcExact(m, gone[1..], k);
      GoneStep(gone);
    }
  }

  function RemoveTouching(ix: Index, id: int): Index {
    var byDst := DropFromDst(ix.byDst, At(ix.bySrc, id));
    var bySrc := DropFromSrc(ix.bySrc, At(byDst, id));
    Index(bySrc - {id}, byDst - {id})
  }

  ghost predicate DstCleared(ix: Index, id: int, byDst: map<int, seq<GraphEdge>>) {
    forall k :: UniqueKeys(At(byDst, k)) && forall x :: x in At(byDst, k) <==> x in At(ix.byDst, k) && x.src != id
  }

  ghost predicate SrcCleared(ix: Index, id: int, bySrc: map<int, seq<GraphEdge>>) {
    forall k :: k != id ==> UniqueKeys(At(bySrc, k)) && forall x :: x in At(bySrc, k) <==> x in At(ix.bySrc, k) && x.dst != id
  }

  lemma ClearDst(ix: Index, id: int)
    requires Mirrored(ix)
    ensures DstCleared(ix, id, DropFromDst(ix.byDst, At(ix.bySrc, id)))
  {
    var out := At(ix.bySrc, id);
    var byDst := DropFromDst(ix.byDst, out);
    forall k ensures UniqueKeys(At(byDst, k)) && forall x :: x in At(byDst, k) <==> x in At(ix.byDst, k) && x.src != id {
      DropFromDstExact(ix.byDst, out, k);
      ListedOut(ix, id, k);
    }
  }

  lemma ClearSrc(ix: Index, id: int, into: seq<GraphEdge>)
    requires Mirrored(ix) && forall x :: x in into <==> x in At(ix.byDst, id) && x.src != id
    ensures SrcCleared(ix, id, DropFromSrc(ix.bySrc, into))
  {
    var bySrc := DropFromSrc(ix.bySrc, into);
    forall k | k != id ensures UniqueKeys(At(bySrc, k)) && forall x :: x in At(bySrc, k) <==> x in At(ix.bySrc, k) && x.dst != id {
      DropFromSrcExact(ix.bySrc, into, k);
      ListedIn(ix, id, into, k);
    }
  }

  /** After the removal no edge touches the event, and all others are where they were. */
  lemma RemoveTouchingExact(ix: Index, id: int)
    requires Mirrored(ix)
    ensures Mirrored(RemoveTouching(ix, id))
    ensures forall x :: Has(RemoveTouching(ix, id), x) <==> Has(ix, x) && x.src != id && x.dst != id
  {
    var byDst := DropFromDst(ix.byDst, At(ix.bySrc, id));
    ClearDst(ix, id);
    ClearSrc(ix, id, At(byDst, id));
    ClearedMirrors(ix, id, byDst, DropFromSrc(ix.bySrc, At(byDst, id)));
  }

  lemma ClearedMirrors(ix: Index, id: int, byDst: map<int, seq<GraphEdge>>, bySrc: map<int, seq<GraphEdge>>)
    requires Mirrored(ix) && DstCleared(ix, id, byDst) && SrcCleared(ix, id, bySrc)
    ensures var r := Index(bySrc - {id}, byDst - {id});
      Mirrored(r) && forall x :: Has(r, x) <==> Has(ix, x) && x.src != id && x.dst != id
  {
    var r := Index(bySrc - {id}, byDst - {id});
    forall k ensures At(r.bySrc, k) == if k == id then [] else At(bySrc, k) {}
    forall k ensures At(r.byDst, k) == if k == id then [] else At(byDst, k) {}
  }

  lemma ListedOut(ix: Index, id: int, k: int)
    requires Mirrored(ix)
    ensures var out := At(ix.bySrc, id);
      forall x :: x in At(ix.byDst, k) ==> (x.src == id <==> Lists(out, x))
  {
    var out := At(ix.bySrc, id);
    forall x | x in At(ix.byDst, k) ensures x.src == id <==> Lists(out, x) {
      if x.src == id {
        var j :| 0 <= j < |out| && out[j] == x;
        assert SameKey(out[j], x);
      }
      forall j | 0 <= j < |out| && SameKey(out[j], x) ensures x.src == id { assert out[j] in out; }
    }
  }

  lemma ListedIn(ix: Index, id: int, into: seq<GraphEdge>, k: int)
    requires Mirrored(ix) && k != id && forall x :: x in into <==> x in At(ix.byDst, id) && x.src != id
    ensures forall x :: x in At(ix.bySrc, k) ==> (x.dst == id <==> Lists(into, x))
  {
    forall x | x in At(ix.bySrc, k) ensures x.dst == id <==> Lists(into, x) {
      if x.dst == id {
        assert x in into;
        var j :| 0 <= j < |into| && into[j] == x;
        assert SameKey(into[j], x);
      }
      forall j | 0 <= j < |into| && SameKey(into[j], x) ensures x.dst == id { assert into[j] in into; }
    }
  }
}
