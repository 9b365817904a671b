/** When two events are linked, and what the edges of a temporal graph look like.  Shared by the
    batch graph builder and the standing graph. */
module Links {
  import opened Events

  datatype GraphEdge = GraphEdge(src: int, dst: int, relation: string, time: int)

  const TEMPORAL_NEXT := "temporal_next"
  const PARENT_PROCESS := "parent_process"

  /** Entity relations are named after the field shared. */
  function RelationOf(key: string): string {
    if key == "user_id" then "same_user"
    else if key == "host_id" then "same_host"
    else if key == "session_id" then "same_session"
    else if key == "source_ip" then "same_source_ip"
    else if key == "cloud_account_id" then "same_cloud_account"
    else if key == "process_id" then "same_process"
    else if key == "asset_id" then "same_asset"
    else "same_" + key
  }

  predicate IsEntityRelation(keys: seq<string>, relation: string) {
    exists k :: 0 <= k < |keys| && RelationOf(keys[k]) == relation
  }

  lemma EntityRelationsApart(key: string)
    ensures RelationOf(key) != TEMPORAL_NEXT && RelationOf(key) != PARENT_PROCESS
  {
    assert RelationOf(key)[0] == 's';
    assert TEMPORAL_NEXT[0] == 't' && PARENT_PROCESS[0] == 'p';
  }

  function Abs(i: int): nat { if i < 0 then -i else i }

  predicate WithinGap(gap: Option<int>, a: Event, b: Event) {
    gap.Some? ==> Abs(a.time - b.time) <= gap.value
  }

  /** The events carry the same non-empty value in this field. */
  predicate Shares(key: string, a: Event, b: Event) {
    Field(a, key).Some? && Field(a, key).value != "" && Field(b, key) == Field(a, key)
  }

  /** The edge between two events, from the earlier to the later. */
  function Link(a: Event, b: Event, relation: string): GraphEdge {
    if Before(a, b) || (a.time == b.time && a.id == b.id) then GraphEdge(a.id, b.id, relation, b.time)
    else GraphEdge(b.id, a.id, relation, a.time)
  }

  lemma LinkSymmetric(a: Event, b: Event, relation: string)
    requires a.id != b.id
    ensures Link(a, b, relation) == Link(b, a, relation)
  {}

  /** Events are filed under their own id. */
  predicate Filed(events: map<int, Event>) {
    forall i :: i in events ==> events[i].id == i
  }

  /** p is the latest event of process `pid` not after the child. */
  ghost predicate IsParent(events: map<int, Event>, p: Event, child: Event, pid: string) {
    && p.id in events && events[p.id] == p && Field(p, "process_id") == Some(pid) && p.time <= child.time
    && forall i :: i in events && Field(events[i], "process_id") == Some(pid) && events[i].time <= child.time ==>
         events[i] == p || Before(events[i], p)
  }

  // ---- Lists of live events ----

  ghost function AnyOf<T>(s: set<T>): (x: T)
    requires s != {}
    ensures x in s
  {
    var x :| x in s;
    x
  }

  /** The order in which Python walks a set is not specified. */
  method TakeAny<T>(s: set<T>) returns (x: T)
    requires s != {}
    ensures x in s
  {
    x :| x in s;
  }

  /** The events filed under the given ids, in (time, id) order. */
  ghost function ListOf(ids: set<int>, events: map<int, Event>): (s: seq<Event>)
    requires Filed(events) && ids <= events.Keys
    ensures Ascending(s) && (forall e :: e in s <==> e.id in ids && events[e.id] == e)
  {
    if ids == {} then []
    else
      var i := AnyOf(ids);
      var t := ListOf(ids - {i}, events);
      InsertAscending(events[i], t);
      var s := Insert(events[i], t);
      assert forall e :: e in s <==> e in multiset(s);
      assert forall e :: e in t <==> e in multiset(t);
      s
  }

  lemma ListOfUnique(ids: set<int>, events: map<int, Event>, s: seq<Event>)
    requires Filed(events) && ids <= events.Keys
    requires Ascending(s) && forall e :: e in s <==> e.id in ids && events[e.id] == e
    ensures s == ListOf(ids, events)
  {
    AscendingUnique(s, ListOf(ids, events));
  }

  /** a comes right before b among the listed events. */
  predicate Adjacent(s: seq<Event>, a: Event, b: Event) {
    exists i :: 0 <= i < |s| - 1 && s[i] == a && s[i + 1] == b
  }
}
