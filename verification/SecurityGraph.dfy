/** SecurityGraphBuilder: the batch builder of event graphs for the native engine. */
module SecurityGraph {
  import opened Events
  import opened Matcher
  import opened Links
  import TrendGraph

  datatype EdgeMeta = EdgeMeta(src: int, dst: int, relation: string, windowStart: int, windowEnd: int)

  function EdgeWindow(a: Event, b: Event): (int, int) {
    if a.time <= b.time then (a.time, b.time) else (b.time, a.time)
  }

  /** The edge between two events, from the one given first unless it is later. */
  function MetaOf(a: Event, b: Event, relation: string): EdgeMeta {
    var (start, end) := EdgeWindow(a, b);
    if a.time <= b.time then EdgeMeta(a.id, b.id, relation, start, end) else EdgeMeta(b.id, a.id, relation, start, end)
  }

  function KeyOf(x: EdgeMeta): (int, int, string) { (x.src, x.dst, x.relation) }

  function Keys(m: seq<EdgeMeta>): set<(int, int, string)> { set x | x in m :: KeyOf(x) }

  // ---- The edges that are called for ----

  ghost predicate Makes(gap: Option<int>, a: Event, b: Event, relation: string, x: EdgeMeta) {
    a.id != b.id && WithinGap(gap, a, b) && x == MetaOf(a, b, relation)
  }

  ghost function OneLink(gap: Option<int>, a: Event, b: Event, relation: string): iset<EdgeMeta> {
    iset x | Makes(gap, a, b, relation, x)
  }

  /** Between neighbours of a list. */
  ghost function ChainLinks(gap: Option<int>, s: seq<Event>, relation: string): iset<EdgeMeta> {
    iset x | IsChainLink(gap, s, relation, x)
  }

  ghost predicate IsChainLink(gap: Option<int>, s: seq<Event>, relation: string, x: EdgeMeta) {
    exists i :: 0 <= i < |s| - 1 && Makes(gap, s[i], s[i + 1], relation, x)
  }

  function OfPartition(s: seq<Event>, p: string): seq<Event> {
    if s == [] then [] else (if s[0].partition == p then [s[0]] else []) + OfPartition(s[1..], p)
  }

  /** The events with this value of the field. */
  function WithValue(s: seq<Event>, key: string, value: string): seq<Event> {
    if s == [] then [] else (if Field(s[0], key) == Some(value) then [s[0]] else []) + WithValue(s[1..], key, value)
  }

  lemma {:induction false} OfPartitionMembers(s: seq<Event>, p: string, e: Event)
    ensures e in OfPartition(s, p) <==> e in s && e.partition == p
  {
    if s != [] {
      OfPartitionMembers(s[1..], p, e);
      assert e in s <==> e == s[0] || e in s[1..];
    }
  }

  lemma {:induction false} WithValueMembers(s: seq<Event>, key: string, value: string, e: Event)
    ensures e in WithValue(s, key, value) <==> e in s && Field(e, key) == Some(value)
  {
    if s != [] {
      WithValueMembers(s[1..], key, value, e);
      assert e in s <==> e == s[0] || e in s[1..];
    }
  }

  /** The events of each partition are in order. */
  predicate PartitionsAscend(s: seq<Event>) {
    forall i, j :: 0 <= i < j < |s| && s[i].partition == s[j].partition ==> Before(s[i], s[j])
  }

  lemma SortedPartitionsAscend(s: seq<Event>)
    requires PartitionSorted(s)
    ensures PartitionsAscend(s)
  {
    forall i, j | 0 <= i < j < |s| && s[i].partition == s[j].partition ensures Before(s[i], s[j]) {
      LexIrreflexive(s[i].partition);
      assert Precedes(s[i], s[j]);
    }
  }

  lemma {:induction false} OfPartitionAscending(s: seq<Event>, p: string)
    requires PartitionsAscend(s)
    ensures Ascending(OfPartition(s, p))
  {
    if s != [] {
      OfPartitionAscending(s[1..], p);
      var t := OfPartition(s[1..], p);
      forall j | 0 <= j < |t| && s[0].partition == p ensures Before(s[0], t[j]) {
        OfPartitionMembers(s[1..], p, t[j]);
        var k :| 0 <= k < |s| - 1 && s[1..][k] == t[j];
        assert s[k + 1] == t[j];
      }
    }
  }

  /** The events with this value of the field, in order. */
  function Group(s: seq<Event>, key: string, value: string): seq<Event> {
    SortEvents(WithValue(s, key, value))
  }

  lemma GroupMembers(s: seq<Event>, key: string, value: string, e: Event)
    ensures e in Group(s, key, value) <==> e in s && Field(e, key) == Some(value)
  {
    WithValueMembers(s, key, value, e);
    assert e in multiset(Group(s, key, value)) <==> e in multiset(WithValue(s, key, value));
  }

  lemma {:induction false} WithValueDistinct(s: seq<Event>, key: string, value: string)
    requires DistinctIds(s)
    ensures DistinctIds(WithValue(s, key, value))
  {
    if s != [] {
      var t := WithValue(s[1..], key, value);
      WithValueDistinct(s[1..], key, value);
      forall j | 0 <= j < |t| ensures t[j].id != s[0].id {
        WithValueMembers(s[1..], key, value, t[j]);
        var k :| 0 <= k < |s| - 1 && s[1..][k] == t[j];
        assert s[k + 1] == t[j];
      }
    }
  }

  lemma GroupAscending(s: seq<Event>, key: string, value: string)
    requires DistinctIds(s)
    ensures Ascending(Group(s, key, value))
  {
    WithValueDistinct(s, key, value);
    SortAscending(WithValue(s, key, value));
  }

  function PartitionsOf(s: seq<Event>): set<string> { set e | e in s :: e.partition }

  function ValuesOf(s: seq<Event>, key: string): set<string> {
    set e | e in s && Field(e, key).Some? && Field(e, key).value != "" :: Field(e, key).value
  }

  ghost function TemporalLinks(gap: Option<int>, s: seq<Event>, partitions: set<string>): iset<EdgeMeta> {
    iset x | IsTemporalLink(gap, s, partitions, x)
  }

  ghost predicate IsTemporalLink(gap: Option<int>, s: seq<Event>, partitions: set<string>, x: EdgeMeta) {
    exists p :: p in partitions && x in ChainLinks(gap, OfPartition(s, p), TEMPORAL_NEXT)
  }

  ghost function EntityLinksFor(gap: Option<int>, s: seq<Event>, key: string, values: set<string>): iset<EdgeMeta> {
    iset x | IsEntityLinkFor(gap, s, key, values, x)
  }

  ghost predicate IsEntityLinkFor(gap: Option<int>, s: seq<Event>, key: string, values: set<string>, x: EdgeMeta) {
    exists v :: v in values && x in ChainLinks(gap, Group(s, key, v), RelationOf(key))
  }

  ghost function EntityLinks(gap: Option<int>, s: seq<Event>, keys: seq<string>): iset<EdgeMeta> {
    iset x | IsEntityLink(gap, s, keys, x)
  }

  ghost predicate IsEntityLink(gap: Option<int>, s: seq<Event>, keys: seq<string>, x: EdgeMeta) {
    exists k :: 0 <= k < |keys| && x in EntityLinksFor(gap, s, keys[k], ValuesOf(s, keys[k]))
  }

  predicate IsCandidate(s: seq<Event>, p: Event, child: Event) {
    p in s && Field(child, "parent_process_id").Some?
    && Field(p, "process_id") == Field(child, "parent_process_id") && p.time <= child.time
  }

  /** p is a latest event of the child's parent process that is not after the child. */
  ghost predicate IsParentOf(s: seq<Event>, p: Event, child: Event) {
    IsCandidate(s, p, child) && forall e :: IsCandidate(s, e, child) ==> !Before(p, e)
  }

  ghost function ParentLinks(gap: Option<int>, s: seq<Event>, children: seq<Event>): iset<EdgeMeta> {
    iset x | IsParentLink(gap, s, children, x)
  }

  ghost predicate IsParentLink(gap: Option<int>, s: seq<Event>, children: seq<Event>, x: EdgeMeta) {
    exists p, i :: 0 <= i < |children| && IsParentOf(s, p, children[i]) && Makes(gap, p, children[i], PARENT_PROCESS, x)
  }

  /** Everything the builder is to link. */
  ghost function Wanted(gap: Option<int>, s: seq<Event>, keys: seq<string>): iset<EdgeMeta> {
    TemporalLinks(gap, s, PartitionsOf(s)) + EntityLinks(gap, s, keys) + ParentLinks(gap, s, s)
  }

  // ---- Collecting them without repeats ----

  ghost predicate KeysDistinct(m: seq<EdgeMeta>) {
    forall i, j :: 0 <= i < j < |m| ==> KeyOf(m[i]) != KeyOf(m[j])
  }

  /** m grew to m' by wanted edges only, and has an edge with the key of every wanted one. */
  ghost predicate Grown(m: seq<EdgeMeta>, m': seq<EdgeMeta>, want: iset<EdgeMeta>) {
    && m <= m' && KeysDistinct(m')
    && (forall x :: x in m' ==> x in m || x in want)
    && (forall x :: x in want ==> KeyOf(x) in Keys(m'))
  }

  lemma GrownNothing(m: seq<EdgeMeta>)
    requires KeysDistinct(m)
    ensures Grown(m, m, iset{})
  {}

  lemma GrownTwice(a: seq<EdgeMeta>, b: seq<EdgeMeta>, c: seq<EdgeMeta>, x: iset<EdgeMeta>, y: iset<EdgeMeta>, z: iset<EdgeMeta>)
    requires Grown(a, b, x) && Grown(b, c, y) && z == x + y
    ensures Grown(a, c, z)
  {
    assert forall e :: e in b ==> e in c;
    assert Keys(b) <= Keys(c);
  }

  lemma AddedOne(m: seq<EdgeMeta>, x: EdgeMeta)
    requires KeysDistinct(m)
    ensures Grown(m, if KeyOf(x) in Keys(m) then m else m + [x], iset{x})
    ensures KeyOf(x) !in Keys(m) ==> Keys(m + [x]) == Keys(m) + {KeyOf(x)}
  {
    if KeyOf(x) !in Keys(m) {
      var m' := m + [x];
      assert x in m';
      forall k ensures k in Keys(m') <==> k in Keys(m) || k == KeyOf(x) {
        if k in Keys(m) { var y :| y in m && KeyOf(y) == k; assert y in m'; }
      }
      forall i, j | 0 <= i < j < |m'| ensures KeyOf(m'[i]) != KeyOf(m'[j]) {
        if j == |m| { assert m[i] in m; }
      }
    }
  }

  /** The growing list of edges and the keys in it. */
  class Collector {
    var seen: set<(int, int, string)>
    var meta: seq<EdgeMeta>

    constructor ()
      ensures Valid() && meta == []
    {
      seen, meta := {}, [];
    }

    ghost predicate Valid()
      reads this
    {
      KeysDistinct(meta) && seen == Keys(meta)
    }
  }

  class SecurityGraphBuilder {
    const entityKeys: seq<string>
    const maxGapMs: Option<int>

    constructor (entityKeys: seq<string>, maxGapMs: Option<int>)
      ensures this.entityKeys == entityKeys && this.maxGapMs == maxGapMs
    {
      this.entityKeys, this.maxGapMs := entityKeys, maxGapMs;
    }

    method AddEdge(into: Collector, a: Event, b: Event, relation: string)
      requires into.Valid()
      modifies into
      ensures into.Valid() && Grown(old(into.meta), into.meta, OneLink(maxGapMs, a, b, relation))
    {
      ghost var want := OneLink(maxGapMs, a, b, relation);
      GrownNothing(into.meta);
      if a.id == b.id {
        assert want == iset{};
        return;
      }
      if maxGapMs.Some? && Abs(b.time - a.time) > maxGapMs.value {
        assert want == iset{};
        return;
      }
      var x := MetaOf(a, b, relation);
      assert want == iset{x};
      AddedOne(into.meta, x);
      if KeyOf(x) in into.seen { return; }
      into.seen := into.seen + {KeyOf(x)};
      into.meta := into.meta + [x];
    }

    method AddChain(into: Collector, s: seq<Event>, relation: string)
      requires into.Valid()
      modifies into
      ensures into.Valid() && Grown(old(into.meta), into.meta, ChainLinks(maxGapMs, s, relation))
    {
      GrownNothing(into.meta);
      ghost var done: iset<EdgeMeta> := iset{};
      var i := 0;
      while i + 1 < |s|
        invariant 0 <= i && (i == 0 || i < |s|)
        invariant into.Valid() && Grown(old(into.meta), into.meta, done)
        invariant forall x :: x in done <==> exists j :: 0 <= j < i && Makes(maxGapMs, s[j], s[j + 1], relation, x)
      {
        ghost var before := into.meta;
        AddEdge(into, s[i], s[i + 1], relation);
        GrownTwice(old(into.meta), before, into.meta, done, OneLink(maxGapMs, s[i], s[i + 1], relation),
                   done + OneLink(maxGapMs, s[i], s[i + 1], relation));
        done := done + OneLink(maxGapMs, s[i], s[i + 1], relation);
        i := i + 1;
      }
      assert done == ChainLinks(maxGapMs, s, relation);
    }

    method AddTemporal(into: Collector, s: seq<Event>)
      requires into.Valid()
      modifies into
      ensures into.Valid() && Grown(old(into.meta), into.meta, TemporalLinks(maxGapMs, s, PartitionsOf(s)))
    {
      var todo := PartitionsOf(s);
      GrownNothing(into.meta);
      assert TemporalLinks(maxGapMs, s, {}) == iset{};
      while todo != {}
        invariant into.Valid() && todo <= PartitionsOf(s)
        invariant Grown(old(into.meta), into.meta, TemporalLinks(maxGapMs, s, PartitionsOf(s) - todo))
        decreases todo
      {
        var p := TakeAny(todo);
        ghost var before, done := into.meta, PartitionsOf(s) - todo;
        AddChain(into, OfPartition(s, p), TEMPORAL_NEXT);
        todo := todo - {p};
        assert PartitionsOf(s) - todo == done + {p};
        OnePartitionMore(maxGapMs, s, done, p);
        GrownTwice(old(into.meta), before, into.meta, TemporalLinks(maxGapMs, s, done),
                   ChainLinks(maxGapMs, OfPartition(s, p), TEMPORAL_NEXT), TemporalLinks(maxGapMs, s, done + {p}));
      }
      assert PartitionsOf(s) - todo == PartitionsOf(s);
    }

    method AddEntityFor(into: Collector, s: seq<Event>, key: string)
      requires into.Valid()
      modifies into
      ensures into.Valid() && Grown(old(into.meta), into.meta, EntityLinksFor(maxGapMs, s, key, ValuesOf(s, key)))
    {
      var todo := ValuesOf(s, key);
      GrownNothing(into.meta);
      assert EntityLinksFor(maxGapMs, s, key, {}) == iset{};
      while todo != {}
        invariant into.Valid() && todo <= ValuesOf(s, key)
        invariant Grown(old(into.meta), into.meta, EntityLinksFor(maxGapMs, s, key, ValuesOf(s, key) - todo))
        decreases todo
      {
        var v := TakeAny(todo);
        ghost var before, done := into.meta, ValuesOf(s, key) - todo;
        AddChain(into, Group(s, key, v), RelationOf(key));
        todo := todo - {v};
        assert ValuesOf(s, key) - todo == done + {v};
        OneValueMore(maxGapMs, s, key, done, v);
        GrownTwice(old(into.meta), before, into.meta, EntityLinksFor(maxGapMs, s, key, done),
                   ChainLinks(maxGapMs, Group(s, key, v), RelationOf(key)), EntityLinksFor(maxGapMs, s, key, done + {v}));
      }
      assert ValuesOf(s, key) - todo == ValuesOf(s, key);
    }

    method AddEntity(into: Collector, s: seq<Event>)
      requires into.Valid()
      modifies into
      ensures into.Valid() && Grown(old(into.meta), into.meta, EntityLinks(maxGapMs, s, entityKeys))
    {
      hide Grown, EntityLinks, EntityLinksFor, KeysDistinct, Keys, ValuesOf, RelationOf;
      GrownNothing(into.meta);
      NoKeys(maxGapMs, s, entityKeys);
      for k := 0 to |entityKeys|
        invariant into.Valid() && Grown(old(into.meta), into.meta, EntityLinks(maxGapMs, s, entityKeys[..k]))
      {
        ghost var before := into.meta;
        AddEntityFor(into, s, entityKeys[k]);
        OneKeyMore(maxGapMs, s, entityKeys, k);
        GrownTwice(old(into.meta), before, into.meta, EntityLinks(maxGapMs, s, entityKeys[..k]),
                   EntityLinksFor(maxGapMs, s, entityKeys[k], ValuesOf(s, entityKeys[k])), EntityLinks(maxGapMs, s, entityKeys[..k + 1]));
      }
    }

    method LatestCandidate(s: seq<Event>, child: Event) returns (parent: Option<Event>)
      ensures parent.Some? ==> IsParentOf(s, parent.value, child)
      ensures parent.None? ==> forall p :: !IsCandidate(s, p, child)
    {
      parent := None;
      for i := 0 to |s|
        invariant parent.Some? ==> IsCandidate(s, parent.value, child)
        invariant forall j :: 0 <= j < i && IsCandidate(s, s[j], child) ==> parent.Some? && !Before(parent.value, s[j])
      {
        if IsCandidate(s, s[i], child) && (parent.None? || Before(parent.value, s[i])) {
          parent := Some(s[i]);
        }
      }
    }

    method AddParents(into: Collector, s: seq<Event>)
      requires into.Valid()
      modifies into
      ensures into.Valid() && Grown(old(into.meta), into.meta, ParentLinks(maxGapMs, s, s))
    {
      hide Grown, ParentLinks, KeysDistinct, Keys;
      GrownNothing(into.meta);
      NoChildren(maxGapMs, s);
      for i := 0 to |s|
        invariant into.Valid() && Grown(old(into.meta), into.meta, ParentLinks(maxGapMs, s, s[..i]))
      {
        ghost var before := into.meta;
        AddParent(into, s, s[i]);
        OneChildMore(maxGapMs, s, i);
        GrownTwice(old(into.meta), before, into.meta, ParentLinks(maxGapMs, s, s[..i]),
                   ParentLinks(maxGapMs, s, [s[i]]), ParentLinks(maxGapMs, s, s[..i + 1]));
      }
    }

    /** Of several latest events with one id, any gives the same edge key. */
    method AddParent(into: Collector, s: seq<Event>, child: Event)
      requires into.Valid()
      modifies into
      ensures into.Valid() && Grown(old(into.meta), into.meta, ParentLinks(maxGapMs, s, [child]))
    {
      var parent := LatestCandidate(s, child);
      if parent.Some? {
        AddEdge(into, parent.value, child, PARENT_PROCESS);
        ParentKeysAgree(maxGapMs, s, parent.value, child, old(into.meta), into.meta);
      } else {
        GrownNothing(into.meta);
        assert ParentLinks(maxGapMs, s, [child]) == iset{};
      }
    }

    /** The wanted edges, each key once; the events come sorted by partition, time and id. */
    method Build(events: seq<Event>) returns (s: seq<Event>, meta: seq<EdgeMeta>, graph: TrendGraph.Graph)
      ensures s == SortByPartition(events)
      ensures Grown([], meta, Wanted(maxGapMs, s, entityKeys))
      ensures graph == NativeGraph(s, meta)
    {
      s := SortByPartition(events);
      var into := new Collector();
      GrownNothing(into.meta);
      AddTemporal(into, s);
      ghost var m1 := into.meta;
      AddEntity(into, s);
      ghost var m2 := into.meta;
      GrownTwice([], m1, m2, TemporalLinks(maxGapMs, s, PartitionsOf(s)), EntityLinks(maxGapMs, s, entityKeys),
                 TemporalLinks(maxGapMs, s, PartitionsOf(s)) + EntityLinks(maxGapMs, s, entityKeys));
      AddParents(into, s);
      meta := into.meta;
      GrownTwice([], m2, meta, TemporalLinks(maxGapMs, s, PartitionsOf(s)) + EntityLinks(maxGapMs, s, entityKeys),
                 ParentLinks(maxGapMs, s, s), Wanted(maxGapMs, s, entityKeys));
      graph := NativeGraph(s, meta);
    }
  }

  function NativeGraph(s: seq<Event>, meta: seq<EdgeMeta>): TrendGraph.Graph {
    TrendGraph.Graph(
      seq(|s|, i requires 0 <= i < |s| => TrendGraph.Vertex(s[i].id, s[i].eventType, s[i].time)),
      seq(|meta|, i requires 0 <= i < |meta| =>
        TrendGraph.Edge(meta[i].src, meta[i].dst, meta[i].windowStart, meta[i].windowEnd)))
  }

  // ---- Steps of the loops ----

  lemma OnePartitionMore(gap: Option<int>, s: seq<Event>, done: set<string>, p: string)
    ensures TemporalLinks(gap, s, done + {p}) == TemporalLinks(gap, s, done) + ChainLinks(gap, OfPartition(s, p), TEMPORAL_NEXT)
  {
    hide ChainLinks, OfPartition;
  }

  lemma OneValueMore(gap: Option<int>, s: seq<Event>, key: string, done: set<string>, v: string)
    ensures EntityLinksFor(gap, s, key, done + {v}) ==
      EntityLinksFor(gap, s, key, done) + ChainLinks(gap, Group(s, key, v), RelationOf(key))
  {
    hide ChainLinks, Group, RelationOf;
  }

  lemma NoKeys(gap: Option<int>, s: seq<Event>, keys: seq<string>)
    ensures EntityLinks(gap, s, keys[..0]) == iset{} && keys[..|keys|] == keys
  {}

  lemma OneKeyMore(gap: Option<int>, s: seq<Event>, keys: seq<string>, n: nat)
    requires n < |keys|
    ensures EntityLinks(gap, s, keys[..n + 1]) == EntityLinks(gap, s, keys[..n]) + EntityLinksFor(gap, s, keys[n], ValuesOf(s, keys[n]))
  {
    hide EntityLinksFor, ValuesOf;
    var a, b := keys[..n], keys[..n + 1];
    assert b[n] == keys[n] && forall i :: 0 <= i < n ==> a[i] == b[i];
    forall x ensures x in EntityLinks(gap, s, b) <==>
      x in EntityLinks(gap, s, a) || x in EntityLinksFor(gap, s, keys[n], ValuesOf(s, keys[n]))
    {
      if x in EntityLinks(gap, s, a) {
        var k :| 0 <= k < |a| && x in EntityLinksFor(gap, s, a[k], ValuesOf(s, a[k]));
        assert x in EntityLinksFor(gap, s, b[k], ValuesOf(s, b[k]));
      }
      if x in EntityLinksFor(gap, s, keys[n], ValuesOf(s, keys[n])) {
        assert x in EntityLinksFor(gap, s, b[n], ValuesOf(s, b[n]));
      }
      if x in EntityLinks(gap, s, b) {
        var k :| 0 <= k < |b| && x in EntityLinksFor(gap, s, b[k], ValuesOf(s, b[k]));
        if k < n { assert x in EntityLinksFor(gap, s, a[k], ValuesOf(s, a[k])); }
      }
    }
  }

  lemma NoChildren(gap: Option<int>, s: seq<Event>)
    ensures ParentLinks(gap, s, s[..0]) == iset{} && s[..|s|] == s
  {}

  lemma OneChildMore(gap: Option<int>, s: seq<Event>, n: nat)
    requires n < |s|
    ensures ParentLinks(gap, s, s[..n + 1]) == ParentLinks(gap, s, s[..n]) + ParentLinks(gap, s, [s[n]])
  {
    hide IsParentOf, Makes;
    var a, b, c := s[..n], s[..n + 1], [s[n]];
    assert b[n] == c[0] && forall i :: 0 <= i < n ==> a[i] == b[i];
    forall x ensures x in ParentLinks(gap, s, b) <==> x in ParentLinks(gap, s, a) || x in ParentLinks(gap, s, c) {
      if x in ParentLinks(gap, s, a) {
        var p, i :| 0 <= i < |a| && IsParentOf(s, p, a[i]) && Makes(gap, p, a[i], PARENT_PROCESS, x);
        assert IsParentOf(s, p, b[i]) && Makes(gap, p, b[i], PARENT_PROCESS, x);
      }
      if x in ParentLinks(gap, s, c) {
        var p, i :| 0 <= i < |c| && IsParentOf(s, p, c[i]) && Makes(gap, p, c[i], PARENT_PROCESS, x);
        assert IsParentOf(s, p, b[n]) && Makes(gap, p, b[n], PARENT_PROCESS, x);
      }
      if x in ParentLinks(gap, s, b) {
        var p, i :| 0 <= i < |b| && IsParentOf(s, p, b[i]) && Makes(gap, p, b[i], PARENT_PROCESS, x);
        if i < n { assert IsParentOf(s, p, a[i]) && Makes(gap, p, a[i], PARENT_PROCESS, x); }
        else { assert IsParentOf(s, p, c[0]) && Makes(gap, p, c[0], PARENT_PROCESS, x); }
      }
    }
  }

  lemma ParentKeysAgree(gap: Option<int>, s: seq<Event>, p: Event, child: Event, m: seq<EdgeMeta>, m': seq<EdgeMeta>)
    requires IsParentOf(s, p, child) && Grown(m, m', OneLink(gap, p, child, PARENT_PROCESS))
    ensures Grown(m, m', ParentLinks(gap, s, [child]))
  {
    assert [child][0] == child;
    forall x | x in ParentLinks(gap, s, [child]) ensures KeyOf(x) in Keys(m') {
      var p', i :| 0 <= i < |[child]| && IsParentOf(s, p', [child][i]) && Makes(gap, p', [child][i], PARENT_PROCESS, x);
      assert p'.time == p.time && p'.id == p.id;
      assert Makes(gap, p, child, PARENT_PROCESS, MetaOf(p, child, PARENT_PROCESS));
      assert KeyOf(MetaOf(p, child, PARENT_PROCESS)) in Keys(m');
    }
  }

  // ---- With distinct ids the edges are exactly the wanted ones ----

  /** x joins two events of the list that are within the gap, from the earlier to the later. */
  ghost predicate Joins(gap: Option<int>, s: seq<Event>, x: EdgeMeta) {
    exists a, b :: a in s && b in s && Makes(gap, a, b, x.relation, x)
  }

  lemma ChainJoins(gap: Option<int>, c: seq<Event>, relation: string, s: seq<Event>, x: EdgeMeta)
    requires x in ChainLinks(gap, c, relation) && forall e :: e in c ==> e in s
    ensures Joins(gap, s, x)
  {
    var i :| 0 <= i < |c| - 1 && Makes(gap, c[i], c[i + 1], relation, x);
    assert c[i] in c && c[i + 1] in c;
  }

  lemma WantedJoins(gap: Option<int>, s: seq<Event>, keys: seq<string>, x: EdgeMeta)
    requires x in Wanted(gap, s, keys)
    ensures Joins(gap, s, x)
  {
    hide ChainLinks, OfPartition, Group, RelationOf, Field, ValuesOf;
    if x in TemporalLinks(gap, s, PartitionsOf(s)) {
      var p :| p in PartitionsOf(s) && x in ChainLinks(gap, OfPartition(s, p), TEMPORAL_NEXT);
      forall e | e in OfPartition(s, p) ensures e in s { OfPartitionMembers(s, p, e); }
      ChainJoins(gap, OfPartition(s, p), TEMPORAL_NEXT, s, x);
    } else if x in EntityLinks(gap, s, keys) {
      var k :| 0 <= k < |keys| && x in EntityLinksFor(gap, s, keys[k], ValuesOf(s, keys[k]));
      var v :| v in ValuesOf(s, keys[k]) && x in ChainLinks(gap, Group(s, keys[k], v), RelationOf(keys[k]));
      forall e | e in Group(s, keys[k], v) ensures e in s { GroupMembers(s, keys[k], v, e); }
      ChainJoins(gap, Group(s, keys[k], v), RelationOf(keys[k]), s, x);
    } else {
      assert x in ParentLinks(gap, s, s);
      var p, i :| 0 <= i < |s| && IsParentOf(s, p, s[i]) && Makes(gap, p, s[i], PARENT_PROCESS, x);
      assert p in s && s[i] in s;
    }
  }

  lemma DistinctMember(s: seq<Event>, a: Event, b: Event)
    requires DistinctIds(s) && a in s && b in s
    ensures a.id == b.id ==> a == b
  {
    var i :| 0 <= i < |s| && s[i] == a;
    var j :| 0 <= j < |s| && s[j] == b;
  }

  /** With distinct ids, an edge is built exactly when it is wanted. */
  lemma BuiltExactly(gap: Option<int>, s: seq<Event>, keys: seq<string>, meta: seq<EdgeMeta>, x: EdgeMeta)
    requires DistinctIds(s) && Grown([], meta, Wanted(gap, s, keys))
    ensures x in meta <==> x in Wanted(gap, s, keys)
  {
    hide Wanted;
    if x in Wanted(gap, s, keys) {
      assert KeyOf(x) in Keys(meta);
      var y :| y in meta && KeyOf(y) == KeyOf(x);
      WantedJoins(gap, s, keys, x);
      WantedJoins(gap, s, keys, y);
      var a, b :| a in s && b in s && Makes(gap, a, b, x.relation, x);
      var c, d :| c in s && d in s && Makes(gap, c, d, y.relation, y);
      if a.id == c.id {
        DistinctMember(s, a, c);
        DistinctMember(s, b, d);
      } else {
        DistinctMember(s, a, d);
        DistinctMember(s, b, c);
      }
    }
  }
}
