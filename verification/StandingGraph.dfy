/** TemporalGraphState: the mutable graph under the standing queries. */
module StandingGraph {
  import opened Events
  import opened Links
  import opened EdgeIndex
  import opened GraphState

  datatype Mutation = Upserted(id: int, partition: string, revision: nat) | Removed(id: int, was: Option<string>, revision: nat)

  /** The live events filed under a partition key. */
  ghost function Members(events: map<int, Event>, byPartition: map<string, set<int>>, p: string): set<int> {
    (if p in byPartition then byPartition[p] else {}) * events.Keys
  }

  ghost function PartitionIds(events: map<int, Event>, p: string): set<int> {
    set i | i in events && events[i].partition == p
  }

  /** Every live event is filed under its partition. */
  ghost predicate Indexed(events: map<int, Event>, byPartition: map<string, set<int>>) {
    forall i :: i in events ==> events[i].partition in byPartition && i in byPartition[events[i].partition]
  }

  /** And nothing else is filed anywhere. */
  ghost predicate Clean(events: map<int, Event>, byPartition: map<string, set<int>>) {
    forall p, i :: p in byPartition && i in byPartition[p] ==> i in events && events[i].partition == p
  }

  lemma CleanMembers(events: map<int, Event>, byPartition: map<string, set<int>>, p: string)
    requires Indexed(events, byPartition) && Clean(events, byPartition)
    ensures Members(events, byPartition, p) == PartitionIds(events, p)
  {
    forall i ensures i in Members(events, byPartition, p) <==> i in PartitionIds(events, p) {}
  }

  function FiledUnder(byPartition: map<string, set<int>>, p: string): set<int> {
    if p in byPartition then byPartition[p] else {}
  }

  function Unfile(byPartition: map<string, set<int>>, p: string, id: int): map<string, set<int>> {
    byPartition[p := FiledUnder(byPartition, p) - {id}]
  }

  function Refile(byPartition: map<string, set<int>>, p: string, id: int): map<string, set<int>> {
    byPartition[p := FiledUnder(byPartition, p) + {id}]
  }

  /** The partition index after an upsert. */
  function Upserting(events: map<int, Event>, byPartition: map<string, set<int>>, e: Event): map<string, set<int>> {
    Refile(if e.id in events then Unfile(byPartition, events[e.id].partition, e.id) else byPartition, e.partition, e.id)
  }

  /** The partition index after a removal. */
  function Removing(events: map<int, Event>, byPartition: map<string, set<int>>, id: int): map<string, set<int>> {
    if id in events then Unfile(byPartition, DiscardKey(events[id].partition), id) else byPartition
  }

  /** Upserting files the event once, under its new partition. */
  lemma UpsertFiles(events: map<int, Event>, byPartition: map<string, set<int>>, e: Event)
    requires Indexed(events, byPartition)
    ensures Indexed(events[e.id := e], Upserting(events, byPartition, e))
    ensures Clean(events, byPartition) ==> Clean(events[e.id := e], Upserting(events, byPartition, e))
  {}

  /** The key a removed event is discarded from. */
  function DiscardKey(partition: string): string { if partition == "" then "default" else partition }

  lemma DiscardedRight(events: map<int, Event>, byPartition: map<string, set<int>>, id: int)
    requires Indexed(events, byPartition) && id in events
    ensures Indexed(events - {id}, Unfile(byPartition, DiscardKey(events[id].partition), id))
  {}

  lemma DiscardedClean(events: map<int, Event>, byPartition: map<string, set<int>>, id: int)
    requires Indexed(events, byPartition) && id in events && events[id].partition != "" && Clean(events, byPartition)
    ensures Clean(events - {id}, Unfile(byPartition, events[id].partition, id))
  {}

  lemma DiscardedElsewhere(events: map<int, Event>, byPartition: map<string, set<int>>, id: int)
    requires Indexed(events, byPartition) && id in events && events[id].partition == ""
    ensures !Clean(events - {id}, Unfile(byPartition, "default", id))
  {
    var p, bp := events[id].partition, Unfile(byPartition, "default", id);
    assert p != "default" by { assert |p| != |"default"|; }
    assert p in bp && id in bp[p];
    CleanAt(events - {id}, bp, p, id);
  }

  lemma CleanAt(events: map<int, Event>, byPartition: map<string, set<int>>, p: string, i: int)
    ensures Clean(events, byPartition) && p in byPartition && i in byPartition[p] ==> i in events
  {}

  /** Removing discards from "default" when the key is empty, so the event stays filed under "". */
  lemma RemoveUnfiles(events: map<int, Event>, byPartition: map<string, set<int>>, id: int)
    requires Indexed(events, byPartition)
    ensures Indexed(events - {id}, Removing(events, byPartition, id))
    ensures Clean(events, byPartition) ==>
      (Clean(events - {id}, Removing(events, byPartition, id)) <==> !(id in events && events[id].partition == ""))
  {
    if id !in events {
      assert events - {id} == events;
    } else {
      DiscardedRight(events, byPartition, id);
      if events[id].partition == "" {
        DiscardedElsewhere(events, byPartition, id);
      } else if Clean(events, byPartition) {
        DiscardedClean(events, byPartition, id);
      }
    }
  }

  /** The events of a partition, in order. */
  ghost function PartitionEvents(events: map<int, Event>, p: string): seq<Event>
    requires Filed(events)
  {
    ListOf(PartitionIds(events, p), events)
  }

  class TemporalGraph {
    const entityKeys: seq<string>
    const maxGapMs: Option<int>
    var events: map<int, Event>
    var byPartition: map<string, set<int>>
    var bySrc: map<int, seq<GraphEdge>>
    var byDst: map<int, seq<GraphEdge>>
    var revision: nat
    var mutationLog: seq<Mutation>

    constructor (entityKeys: seq<string>, maxGapMs: Option<int>)
      ensures this.entityKeys == entityKeys && this.maxGapMs == maxGapMs
      ensures events == map[] && byPartition == map[] && bySrc == map[] && byDst == map[] && revision == 0 && mutationLog == []
      ensures Valid()
    {
      this.entityKeys, this.maxGapMs := entityKeys, maxGapMs;
      events, byPartition, bySrc, byDst, revision, mutationLog := map[], map[], map[], map[], 0, [];
    }

    ghost function Ix(): Index
      reads this
    {
      Index(bySrc, byDst)
    }

    ghost predicate Valid()
      reads this
    {
      GoodEdges(events, entityKeys, maxGapMs, Ix()) && Indexed(events, byPartition)
    }

    method EventsForPartition(p: string) returns (s: seq<Event>)
      requires Filed(events)
      ensures s == ListOf(Members(events, byPartition, p), events)
    {
      var ids := if p in byPartition then byPartition[p] else {};
      var found: seq<Event> := [];
      var todo := ids;
      while todo != {}
        invariant todo <= ids
        invariant forall e :: e in found <==> e.id in ids - todo && e.id in events && events[e.id] == e
        invariant forall i, j :: 0 <= i < j < |found| ==> found[i].id != found[j].id
        decreases todo
      {
        var i := TakeAny(todo);
        todo := todo - {i};
        if i in events {
          forall k | 0 <= k < |found| ensures found[k].id != i { assert found[k] in found; }
          found := found + [events[i]];
        }
      }
      s := SortEvents(found);
      SortAscending(found);
      SortMembers(found);
      forall e ensures e in s <==> e in found {
        if e in s { var i :| 0 <= i < |s| && s[i] == e; }
        if e in found { var i :| 0 <= i < |found| && found[i] == e; }
      }
      ListOfUnique(Members(events, byPartition, p), events, s);
    }

    method AddEventOnly(e: Event)
      modifies this`events, this`byPartition
      ensures events == old(events)[e.id := e]
      ensures byPartition == Refile(old(byPartition), e.partition, e.id)
    {
      events := events[e.id := e];
      byPartition := byPartition[e.partition := (if e.partition in byPartition then byPartition[e.partition] else {}) + {e.id}];
    }

    method AddEdgeOnly(e: GraphEdge)
      modifies this`bySrc, this`byDst
      ensures Ix() == AddEdge(old(Ix()), e)
    {
      if e.src == e.dst { return; }
      var out := if e.src in bySrc then bySrc[e.src] else [];
      if exists i :: 0 <= i < |out| && out[i].dst == e.dst && out[i].relation == e.relation { return; }
      bySrc := bySrc[e.src := out + [e]];
      byDst := byDst[e.dst := (if e.dst in byDst then byDst[e.dst] else []) + [e]];
    }

    method RemoveEdgesTouching(id: int)
      modifies this`bySrc, this`byDst
      ensures Ix() == RemoveTouching(old(Ix()), id)
    {
      var out := if id in bySrc then bySrc[id] else [];
      for i := 0 to |out|
        invariant bySrc == old(bySrc)
        invariant DropFromDst(byDst, out[i..]) == DropFromDst(old(byDst), out)
      {
        var e := out[i];
        assert out[i..][0] == e && out[i..][1..] == out[i + 1..];
        byDst := byDst[e.dst := DropSrc(if e.dst in byDst then byDst[e.dst] else [], e.src, e.relation)];
      }
      assert out[|out|..] == [];
      var into := if id in byDst then byDst[id] else [];
      ghost var byDst1 := byDst;
      for i := 0 to |into|
        invariant byDst == byDst1
        invariant DropFromSrc(bySrc, into[i..]) == DropFromSrc(old(bySrc), into)
      {
        var e := into[i];
        assert into[i..][0] == e && into[i..][1..] == into[i + 1..];
        bySrc := bySrc[e.src := DropDst(if e.src in bySrc then bySrc[e.src] else [], e.dst, e.relation)];
      }
      assert into[|into|..] == [];
      bySrc := bySrc - {id};
      byDst := byDst - {id};
    }

    /** Filed, mirrored and sound: what every step of rebuilding relies on and keeps. */
    ghost predicate Linked()
      reads this
    {
      Filed(events) && Mirrored(Ix()) && Sound(events, Ix())
    }

    ghost predicate IsLive(e: Event)
      reads this
    {
      e.id in events && events[e.id] == e
    }

    method MaybeAddTemporalEdge(a: Event, b: Event)
      requires Linked() && IsLive(a) && IsLive(b) && a.id != b.id
      modifies this`bySrc, this`byDst
      ensures Linked() && forall x :: Has(Ix(), x) <==>
        Has(old(Ix()), x) || (a.partition == b.partition && WithinGap(maxGapMs, a, b) && x == Link(a, b, TEMPORAL_NEXT))
    {
      if a.partition != b.partition || !WithinGap(maxGapMs, a, b) { return; }
      AddLink(events, Ix(), a, b, TEMPORAL_NEXT);
      AddEdgeOnly(Link(a, b, TEMPORAL_NEXT));
    }

    method MaybeAddRelationEdge(a: Event, b: Event, relation: string)
      requires Linked() && IsLive(a) && IsLive(b)
      modifies this`bySrc, this`byDst
      ensures Linked() && forall x :: Has(Ix(), x) <==>
        Has(old(Ix()), x) || (a.id != b.id && WithinGap(maxGapMs, a, b) && x == Link(a, b, relation))
    {
      if !WithinGap(maxGapMs, a, b) { return; }
      if a.id != b.id { AddLink(events, Ix(), a, b, relation); }
      AddEdgeOnly(Link(a, b, relation));
    }

    /** Links the event to its neighbours in the partition's order. */
    method AddTemporalEdges(e: Event, ghost s: seq<Event>)
      requires Linked() && IsLive(e) && s == ListOf(Members(events, byPartition, e.partition), events) && e in s
      modifies this`bySrc, this`byDst
      ensures Linked()
      ensures forall x :: Has(Ix(), x) <==> Has(old(Ix()), x) || NewTemporal(s, maxGapMs, e, x)
    {
      hide Mirrored, Sound, Has, Link, WithinGap;
      var partition := EventsForPartition(e.partition);
      var i := PositionOf(partition, e);
      Neighbours(partition, e, i);
      assert forall k :: 0 <= k < |partition| ==> partition[k] in partition;
      if i > 0 {
        MaybeAddTemporalEdge(e, partition[i - 1]);
      }
      if i + 1 < |partition| {
        MaybeAddTemporalEdge(e, partition[i + 1]);
      }
    }

    /** Links the event to every other one sharing its value of one field. */
    method AddEntityEdgesFor(e: Event, key: string)
      requires Linked() && IsLive(e)
      modifies this`bySrc, this`byDst
      ensures Linked()
      ensures forall x :: Has(Ix(), x) <==> Has(old(Ix()), x) || NewEntity(events, maxGapMs, e, key, events.Keys, x)
    {
      hide Before, Link, RelationOf, Mirrored, Sound;
      var value := Field(e, key);
      if value.None? || value.value == "" { return; }
      var relation := RelationOf(key);
      var todo := events.Keys;
      while todo != {}
        invariant todo <= events.Keys && Linked()
        invariant forall x :: Has(Ix(), x) <==> Has(old(Ix()), x) || NewEntity(events, maxGapMs, e, key, events.Keys - todo, x)
        decreases todo
      {
        var i := TakeAny(todo);
        ghost var done := events.Keys - todo;
        todo := todo - {i};
        NewEntityStep(events, maxGapMs, e, key, done, i);
        assert events.Keys - todo == done + {i};
        if i != e.id && Field(events[i], key) == value {
          MaybeAddRelationEdge(e, events[i], relation);
        }
      }
      assert events.Keys - todo == events.Keys;
    }

    method AddEntityEdges(e: Event)
      requires Linked() && IsLive(e)
      modifies this`bySrc, this`byDst
      ensures Linked()
      ensures forall x :: Has(Ix(), x) <==> Has(old(Ix()), x) || NewEntities(events, maxGapMs, e, entityKeys, x)
    {
      hide NewEntity, NewEntities, Linked, Has;
      NoKeys(events, maxGapMs, e, entityKeys);
      for k := 0 to |entityKeys|
        invariant Linked()
        invariant forall x :: Has(Ix(), x) <==> Has(old(Ix()), x) || NewEntities(events, maxGapMs, e, entityKeys[..k], x)
      {
        OneKeyMore(events, maxGapMs, e, entityKeys, k);
        AddEntityEdgesFor(e, entityKeys[k]);
      }
      assert entityKeys[..|entityKeys|] == entityKeys;
    }

    /** Links the event to the latest event of its parent process, if there is one. */
    method AddParentEdge(e: Event)
      requires Linked() && IsLive(e)
      modifies this`bySrc, this`byDst
      ensures Linked()
      ensures forall x :: Has(Ix(), x) <==> Has(old(Ix()), x) || NewParent(events, maxGapMs, e, x)
    {
      var pid := Field(e, "parent_process_id");
      if pid.None? || pid.value == "" { return; }
      var parent := LatestOf(e, pid.value);
      if parent.Some? {
        MaybeAddRelationEdge(parent.value, e, PARENT_PROCESS);
      }
    }

    method LatestOf(e: Event, pid: string) returns (parent: Option<Event>)
      requires Filed(events)
      ensures parent.Some? ==> IsParent(events, parent.value, e, pid)
      ensures forall p :: IsParent(events, p, e, pid) ==> parent == Some(p)
    {
      parent := None;
      var todo := events.Keys;
      while todo != {}
        invariant todo <= events.Keys
        invariant parent.Some? ==>
          IsLive(parent.value) && Field(parent.value, "process_id") == Some(pid) && parent.value.time <= e.time
        invariant forall i :: i in events.Keys - todo && Field(events[i], "process_id") == Some(pid) && events[i].time <= e.time ==>
          parent.Some? && (events[i] == parent.value || Before(events[i], parent.value))
        decreases todo
      {
        var i := TakeAny(todo);
        todo := todo - {i};
        if Field(events[i], "process_id") == Some(pid) && events[i].time <= e.time {
          if parent.None? || Before(parent.value, events[i]) {
            parent := Some(events[i]);
          }
        }
      }
    }

    /** All edges between the event and the others, as the current events call for. */
    method RebuildEdgesForEvent(id: int)
      requires Linked() && id in events && events[id].partition in byPartition && id in byPartition[events[id].partition]
      modifies this`bySrc, this`byDst
      ensures Rebuilt(events, entityKeys, maxGapMs, ListOf(Members(events, byPartition, events[id].partition), events), events[id], old(Ix()), Ix())
    {
      hide NewTemporal, NewEntities, NewParent, Mirrored, Sound;
      var e := events[id];
      ghost var s := ListOf(Members(events, byPartition, e.partition), events);
      assert e in s;
      AddTemporalEdges(e, s);
      AddEntityEdges(e);
      AddParentEdge(e);
    }

    /** Files the event, first taking back whatever an older version of it had put into the graph. */
    method UpsertEvent(e: Event) returns (m: Mutation)
      requires Valid()
      modifies this
      ensures Valid() && events == old(events)[e.id := e] && revision == old(revision) + 1
      ensures m == Upserted(e.id, e.partition, revision) && mutationLog == old(mutationLog) + [m]
      ensures byPartition == Upserting(old(events), old(byPartition), e)
      ensures old(Clean(events, byPartition)) ==> Clean(events, byPartition)
      ensures old(Clean(events, byPartition)) && e.id !in old(events) ==>
        Rebuilt(events, entityKeys, maxGapMs, PartitionEvents(events, e.partition), e, old(Ix()), Ix())
    {
      ghost var events0, ix0 := events, Ix();
      UpsertFiles(events, byPartition, e);
      if e.id in events {
        var was := events[e.id].partition;
        byPartition := byPartition[was := byPartition[was] - {e.id}];
        RemoveTouchingExact(Ix(), e.id);
        RemoveEdgesTouching(e.id);
      }
      ghost var cleared := Ix();
      SoundAfterChange(events0, ix0, e, cleared);
      AddEventOnly(e);
      Relink(e, events0, ix0);
      if old(Clean(events, byPartition)) { CleanMembers(events, byPartition, e.partition); }
      revision := revision + 1;
      m := Upserted(e.id, e.partition, revision);
      mutationLog := mutationLog + [m];
    }

    /** Rebuilding the edges of a filed event makes the whole graph right again. */
    method Relink(e: Event, ghost events0: map<int, Event>, ghost ix0: Index)
      requires Linked() && Indexed(events, byPartition) && events == events0[e.id := e]
      requires GoodEdges(events0, entityKeys, maxGapMs, ix0)
      requires forall x :: Has(Ix(), x) <==> Has(ix0, x) && x.src != e.id && x.dst != e.id
      modifies this`bySrc, this`byDst
      ensures GoodEdges(events, entityKeys, maxGapMs, Ix())
      ensures Rebuilt(events, entityKeys, maxGapMs, ListOf(Members(events, byPartition, e.partition), events), e, old(Ix()), Ix())
    {
      RebuildEdgesForEvent(e.id);
      RebuildExact(events0, entityKeys, maxGapMs, ix0, ListOf(Members(events, byPartition, e.partition), events), e, old(Ix()), Ix());
    }

    /** Takes the event and its edges out.  The index stays clean exactly when the event was not
        filed under the empty partition key. */
    method RemoveEvent(id: int) returns (m: Mutation)
      requires Valid()
      modifies this
      ensures Valid() && events == old(events) - {id} && revision == old(revision) + 1
      ensures m == Removed(id, if id in old(events) then Some(old(events)[id].partition) else None, revision)
      ensures mutationLog == old(mutationLog) + [m]
      ensures forall x :: Has(Ix(), x) <==> Has(old(Ix()), x) && x.src != id && x.dst != id
      ensures byPartition == Removing(old(events), old(byPartition), id)
      ensures old(Clean(events, byPartition)) ==>
        (Clean(events, byPartition) <==> !(id in old(events) && old(events)[id].partition == ""))
    {
      var was := if id in events then Some(events[id].partition) else None;
      if id in events {
        var p := DiscardKey(was.value);
        byPartition := byPartition[p := (if p in byPartition then byPartition[p] else {}) - {id}];
        RemoveUnfiles(events, old(byPartition), id);
        RemoveExact(events, entityKeys, maxGapMs, Ix(), id);
        RemoveTouchingExact(Ix(), id);
        events := events - {id};
        RemoveEdgesTouching(id);
      } else {
        assert events - {id} == events;
      }
      revision := revision + 1;
      m := Removed(id, was, revision);
      mutationLog := mutationLog + [m];
    }

    static method PositionOf(s: seq<Event>, e: Event) returns (i: nat)
      requires e in s && Ascending(s) && forall k :: 0 <= k < |s| && s[k].id == e.id ==> s[k] == e
      ensures i < |s| && s[i] == e
    {
      i := 0;
      while i < |s| && s[i].id != e.id
        invariant i <= |s| && forall j :: 0 <= j < i ==> s[j].id != e.id
      {
        i := i + 1;
      }
    }
  }

  lemma NoKeys(events: map<int, Event>, gap: Option<int>, e: Event, keys: seq<string>)
    ensures forall x :: !NewEntities(events, gap, e, keys[..0], x)
  {}

  lemma OneKeyMore(events: map<int, Event>, gap: Option<int>, e: Event, keys: seq<string>, k: nat)
    requires k < |keys|
    ensures forall x :: NewEntities(events, gap, e, keys[..k + 1], x) <==>
      NewEntities(events, gap, e, keys[..k], x) || NewEntity(events, gap, e, keys[k], events.Keys, x)
  {
    hide NewEntity;
    var a, b := keys[..k], keys[..k + 1];
    assert b[k] == keys[k] && forall j :: 0 <= j < k ==> a[j] == b[j];
    forall x ensures NewEntities(events, gap, e, b, x) <==>
      NewEntities(events, gap, e, a, x) || NewEntity(events, gap, e, keys[k], events.Keys, x)
    {
      if NewEntities(events, gap, e, a, x) {
        var j :| 0 <= j < |a| && NewEntity(events, gap, e, a[j], events.Keys, x);
        assert NewEntity(events, gap, e, b[j], events.Keys, x);
      }
      if NewEntity(events, gap, e, keys[k], events.Keys, x) { assert NewEntity(events, gap, e, b[k], events.Keys, x); }
      if NewEntities(events, gap, e, b, x) {
        var j :| 0 <= j < |b| && NewEntity(events, gap, e, b[j], events.Keys, x);
        if j < k { assert NewEntity(events, gap, e, a[j], events.Keys, x); }
      }
    }
  }

  lemma NewEntityStep(events: map<int, Event>, gap: Option<int>, e: Event, key: string, done: set<int>, i: int)
    requires Filed(events) && i in events
    ensures forall x :: NewEntity(events, gap, e, key, done + {i}, x) <==>
      NewEntity(events, gap, e, key, done, x)
      || (i != e.id && Shares(key, e, events[i]) && WithinGap(gap, e, events[i]) && x == Link(e, events[i], RelationOf(key)))
  {}

  /** Once the edges of an event are gone, the others are sound whatever the event becomes. */
  lemma SoundAfterChange(events: map<int, Event>, ix: Index, e: Event, cleared: Index)
    requires Filed(events) && Sound(events, ix)
    requires if e.id in events then forall x :: Has(cleared, x) <==> Has(ix, x) && x.src != e.id && x.dst != e.id else cleared == ix
    ensures Filed(events[e.id := e]) && Sound(events[e.id := e], cleared)
    ensures forall x :: Has(cleared, x) <==> Has(ix, x) && x.src != e.id && x.dst != e.id
  {}

  /** The only events next to s[i] are the ones before and after it. */
  lemma Neighbours(s: seq<Event>, e: Event, i: nat)
    requires Ascending(s) && i < |s| && s[i] == e
    ensures forall n :: Adjacent(s, n, e) <==> i > 0 && n == s[i - 1]
    ensures forall n :: Adjacent(s, e, n) <==> i + 1 < |s| && n == s[i + 1]
  {
    if i > 0 { assert Adjacent(s, s[i - 1], e); }
    if i + 1 < |s| { assert Adjacent(s, e, s[i + 1]); }
  }
}
