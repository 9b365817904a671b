/** What one change to the events can do to the active trends.  Insertions add matches and can forbid
    others, removals take matches away and can free others; and what an unfollowed change leaves behind. */
module StandingChanges {
  import opened Events
  import opened Links
  import opened Matcher
  import opened Text
  import opened StandingQueries
  import opened Trends
  import opened StandingGraph
  import opened StandingWorld
  import opened StandingConvergence

  /** No enabled query has an absence clause. */
  ghost predicate Plain(queries: seq<QuerySpec>) {
    forall k :: 0 <= k < |queries| && queries[k].enabled ==> queries[k].absence == []
  }

  // ---- One event more or less ----

  function Others(s: seq<Event>, i: int): (r: seq<Event>)
    ensures |r| <= |s|
  {
    if s == [] then [] else (if s[0].id == i then [] else [s[0]]) + Others(s[1..], i)
  }

  lemma {:induction false} OthersMembers(s: seq<Event>, i: int, e: Event)
    ensures e in Others(s, i) <==> e in s && e.id != i
  {
    if s != [] {
      OthersMembers(s[1..], i, e);
      assert e in s <==> e == s[0] || e in s[1..];
    }
  }

  lemma {:induction false} OthersAscending(s: seq<Event>, i: int)
    requires Ascending(s)
    ensures Ascending(Others(s, i))
  {
    if s != [] {
      OthersAscending(s[1..], i);
      var t := Others(s[1..], i);
      forall j | 0 <= j < |t| ensures Before(s[0], t[j]) { OthersMembers(s[1..], i, t[j]); }
    }
  }

  /** The partition of b is that of a without event i. */
  ghost predicate Without(a: map<int, Event>, b: map<int, Event>, p: string, i: int) {
    && PartitionIds(b, p) == PartitionIds(a, p) - {i}
    && forall j :: j in PartitionIds(b, p) ==> b[j] == a[j]
  }

  lemma WithoutIsOthers(a: map<int, Event>, b: map<int, Event>, p: string, i: int)
    requires Filed(a) && Filed(b) && Without(a, b, p, i)
    ensures PartitionEvents(b, p) == Others(PartitionEvents(a, p), i)
  {
    var s := Others(PartitionEvents(a, p), i);
    OthersAscending(PartitionEvents(a, p), i);
    forall e ensures e in s <==> e.id in PartitionIds(b, p) && b[e.id] == e {
      OthersMembers(PartitionEvents(a, p), i, e);
    }
    ListOfUnique(PartitionIds(b, p), b, s);
  }

  /** The path avoids event i and is a match but for an absence clause that only i offends. */
  ghost predicate FreedWithout(q: QuerySpec, s: seq<Event>, i: int, path: seq<Event>) {
    && ValidMatch(q.steps, q.withinMs, s, path) && i !in Ids(path)
    && (forall k :: 0 <= k < |q.relations| ==> RelationHolds(q.relations[k], path))
    && !AbsenceHolds(q.absence, path, s) && AbsenceHolds(q.absence, path, Others(s, i))
  }

  lemma PathAvoids(s: seq<Event>, i: int, path: seq<Event>)
    ensures Within(path, Others(s, i)) <==> Within(path, s) && i !in Ids(path)
  {
    forall k | 0 <= k < |path| ensures path[k] in Others(s, i) <==> path[k] in s && path[k].id != i { OthersMembers(s, i, path[k]); }
    assert forall k :: 0 <= k < |path| ==> Ids(path)[k] == path[k].id;
    if Within(path, s) && i !in Ids(path) {
      forall k | 0 <= k < |path| ensures path[k] in Others(s, i) { assert Ids(path)[k] in Ids(path); }
    }
  }

  lemma AbsenceShrinks(absence: seq<AbsenceSpec>, path: seq<Event>, s: seq<Event>, i: int)
    requires AbsenceHolds(absence, path, s)
    ensures AbsenceHolds(absence, path, Others(s, i))
  {
    var t := Others(s, i);
    if path != [] {
      forall j, k | 0 <= j < |t| && 0 <= k < |absence| ensures !Forbids(absence[k], path, t[j]) {
        OthersMembers(s, i, t[j]);
        var m :| 0 <= m < |s| && s[m] == t[j];
      }
    }
  }

  /** Without event i a path is a match exactly when it avoids i and was one, or was forbidden by i alone. */
  lemma MatchWithout(q: QuerySpec, s: seq<Event>, i: int, path: seq<Event>)
    ensures IsMatch(q, Others(s, i), path) <==> i !in Ids(path) && (IsMatch(q, s, path) || FreedWithout(q, s, i, path))
  {
    hide AbsenceHolds, Splits, RelationHolds, Ascending, DistinctIds;
    PathAvoids(s, i, path);
    if AbsenceHolds(q.absence, path, s) { AbsenceShrinks(q.absence, path, s, i); }
  }

  lemma PlainNeverFrees(q: QuerySpec, s: seq<Event>, i: int, path: seq<Event>)
    requires q.absence == []
    ensures !FreedWithout(q, s, i, path)
  {}

  ghost predicate FreedBy(q: QuerySpec, s: seq<Event>, p: string, i: int, id: string, path: seq<Event>) {
    q.enabled && FreedWithout(q, s, i, path) && id == Fingerprint(q.queryId, q.version, p, Ids(path))
  }

  /** Event i alone forbids an enabled query the path, whose trend would have this id. */
  ghost predicate Freed(queries: seq<QuerySpec>, s: seq<Event>, p: string, i: int, id: string, path: seq<Event>) {
    exists k :: 0 <= k < |queries| && FreedBy(queries[k], s, p, i, id, path)
  }

  lemma DetectedWithout(queries: seq<QuerySpec>, s: seq<Event>, p: string, i: int, id: string, path: seq<Event>)
    ensures Detected(queries, Others(s, i), p, id, path) <==>
      i !in Ids(path) && (Detected(queries, s, p, id, path) || Freed(queries, s, p, i, id, path))
  {
    forall k | 0 <= k < |queries|
      ensures DetectedBy(queries[k], Others(s, i), p, id, path) <==>
        i !in Ids(path) && (DetectedBy(queries[k], s, p, id, path) || FreedBy(queries[k], s, p, i, id, path))
    {
      MatchWithout(queries[k], s, i, path);
    }
    if Detected(queries, Others(s, i), p, id, path) {
      var k :| 0 <= k < |queries| && DetectedBy(queries[k], Others(s, i), p, id, path);
    }
  }

  lemma PlainFreesNone(queries: seq<QuerySpec>, s: seq<Event>, p: string, i: int, id: string, path: seq<Event>)
    requires Plain(queries)
    ensures !Freed(queries, s, p, i, id, path)
  {
    forall k | 0 <= k < |queries| && queries[k].enabled ensures !FreedWithout(queries[k], s, i, path) {
      PlainNeverFrees(queries[k], s, i, path);
    }
  }

  lemma WindowShrinks(s: seq<Event>, i: int, cap: nat)
    requires Window(s, cap) == s
    ensures Window(Others(s, i), cap) == Others(s, i)
  {}

  /** Without the event the matcher enumerates no more than with it. */
  lemma {:induction false} RecFewer(steps: seq<PatternStep>, within: int, k: nat, rest: seq<Event>, path: seq<Event>, i: int)
    ensures |Rec(steps, within, k, Others(rest, i), path)| <= |Rec(steps, within, k, rest, path)|
    decreases |steps| - k, |rest|, 2
  {
    if k < |steps| {
      if steps[k].minRepeats == 0 { RecFewer(steps, within, k + 1, rest, path, i); }
      ConsumeFewer(steps, within, k, 0, rest, path, i);
    }
  }

  lemma {:induction false} ConsumeFewer(steps: seq<PatternStep>, within: int, k: nat, reps: nat, rest: seq<Event>, path: seq<Event>, i: int)
    requires k < |steps|
    ensures |Consume(steps, within, k, reps, Others(rest, i), path)| <= |Consume(steps, within, k, reps, rest, path)|
    decreases |steps| - k, |rest|, 1
  {
    if reps >= steps[k].minRepeats { RecFewer(steps, within, k + 1, rest, path, i); }
    PickFewer(steps, within, k, reps, rest, path, i);
  }

  lemma {:induction false} PickFewer(steps: seq<PatternStep>, within: int, k: nat, reps: nat, rest: seq<Event>, path: seq<Event>, i: int)
    requires k < |steps|
    ensures |Pick(steps, within, k, reps, Others(rest, i), path)| <= |Pick(steps, within, k, reps, rest, path)|
    decreases |steps| - k, |rest|, 0
  {
    if rest != [] {
      var tail := Others(rest[1..], i);
      PickFewer(steps, within, k, reps, rest[1..], path, i);
      if rest[0].id == i {
        assert Others(rest, i) == tail;
      } else {
        assert Others(rest, i) == [rest[0]] + tail && Others(rest, i)[1..] == tail;
        ConsumeFewer(steps, within, k, reps + 1, rest[1..], path + [rest[0]], i);
      }
    }
  }

  /** So if the caps leave room for a partition's events they do without one of them. */
  lemma RoomShrinks(queries: seq<QuerySpec>, opts: Options, a: map<int, Event>, b: map<int, Event>, p: string, i: int)
    requires Filed(a) && Filed(b) && Without(a, b, p, i) && Room(queries, opts, a, p)
    ensures Room(queries, opts, b, p)
  {
    hide Rec, Without, Others, Ascending, Candidates;
    var s, t := PartitionEvents(a, p), PartitionEvents(b, p);
    WithoutIsOthers(a, b, p, i);
    WindowShrinks(s, i, opts.maxWindowEvents);
    forall k | 0 <= k < |queries| && queries[k].enabled ensures Uncapped(queries[k], t, opts.maxMatches) {
      var q := queries[k];
      CandidatesEnough(q, s, []);
      CandidatesEnough(q, t, []);
      RecFewer(q.steps, q.withinMs, 0, s, [], i);
    }
  }

  /** The trend id of some match that runs through event i. */
  ghost predicate Through(queries: seq<QuerySpec>, s: seq<Event>, p: string, i: int, id: string) {
    exists path :: Detected(queries, s, p, id, path) && i in Ids(path)
  }

  /** The trend id of no match, but of paths that only event i keeps from being one. */
  ghost predicate Forbidden(queries: seq<QuerySpec>, s: seq<Event>, p: string, i: int, id: string) {
    (forall path :: !Detected(queries, s, p, id, path)) && exists path :: Freed(queries, s, p, i, id, path)
  }

  /** Taking one event out of a partition takes away exactly the trends through it and brings exactly
      those it alone forbade. */
  lemma ShrinkIds(queries: seq<QuerySpec>, opts: Options, a: map<int, Event>, b: map<int, Event>, p: string, i: int, id: string)
    requires Filed(a) && Filed(b) && Without(a, b, p, i) && Room(queries, opts, a, p)
    ensures var s := PartitionEvents(a, p);
      && (id in TrendIds(queries, opts, a, p) && id !in TrendIds(queries, opts, b, p) <==> Through(queries, s, p, i, id))
      && (id in TrendIds(queries, opts, b, p) && id !in TrendIds(queries, opts, a, p) <==> Forbidden(queries, s, p, i, id))
  {
    hide TrendIds, Detected, Without, Freed, Uncapped, PartitionEvents, Room, Others, Rec;
    var s := PartitionEvents(a, p);
    WithoutIsOthers(a, b, p, i);
    RoomShrinks(queries, opts, a, b, p, i);
    IdsDetected(queries, opts, a, p, id);
    IdsDetected(queries, opts, b, p, id);
    forall path ensures Detected(queries, Others(s, i), p, id, path) <==>
      i !in Ids(path) && (Detected(queries, s, p, id, path) || Freed(queries, s, p, i, id, path))
    {
      DetectedWithout(queries, s, p, i, id, path);
    }
    forall x, y | Detected(queries, s, p, id, x) && (Detected(queries, s, p, id, y) || Freed(queries, s, p, i, id, y)) ensures Ids(x) == Ids(y) {
      OnePathPerId(queries, s, p, i, id, x, y);
    }
    forall path | Freed(queries, s, p, i, id, path) ensures i !in Ids(path) { FreedAvoids(queries, s, p, i, id, path); }
  }

  lemma OnePathPerId(queries: seq<QuerySpec>, s: seq<Event>, p: string, i: int, id: string, x: seq<Event>, y: seq<Event>)
    requires Detected(queries, s, p, id, x) && (Detected(queries, s, p, id, y) || Freed(queries, s, p, i, id, y))
    ensures Ids(x) == Ids(y)
  {
    hide FreedWithout, IsMatch, Fingerprint;
    var j :| 0 <= j < |queries| && DetectedBy(queries[j], s, p, id, x);
    var k: nat;
    if Detected(queries, s, p, id, y) {
      k :| k < |queries| && DetectedBy(queries[k], s, p, id, y);
    } else {
      k :| k < |queries| && FreedBy(queries[k], s, p, i, id, y);
    }
    SameIdSamePath(queries[j].queryId, queries[j].version, p, Ids(x), queries[k].queryId, queries[k].version, p, Ids(y));
  }

  /** A trend through the event is one whose recorded path holds it. */
  lemma ThroughPath(queries: seq<QuerySpec>, opts: Options, events: map<int, Event>, p: string, i: int, t: TrendEvent)
    requires Filed(events) && Room(queries, opts, events, p) && Signed(t) && t.trendId in TrendIds(queries, opts, events, p)
    ensures Through(queries, PartitionEvents(events, p), p, i, t.trendId) <==> i in t.path
  {
    hide Signed, TrendIds, Detected, Room;
    var s := PartitionEvents(events, p);
    IdsDetected(queries, opts, events, p, t.trendId);
    var x :| Detected(queries, s, p, t.trendId, x);
    forall path | Detected(queries, s, p, t.trendId, path) ensures t.path == Ids(path) { PathOfId(queries, s, p, t, path); }
  }

  lemma FreedAvoids(queries: seq<QuerySpec>, s: seq<Event>, p: string, i: int, id: string, path: seq<Event>)
    requires Freed(queries, s, p, i, id, path)
    ensures i !in Ids(path)
  {}

  lemma FreshIsWithout(events: map<int, Event>, e: Event, p: string)
    requires e.id !in events && e.partition == p
    ensures Without(events[e.id := e], events, p, e.id)
  {}

  lemma RemovedIsWithout(events: map<int, Event>, id: int, p: string)
    ensures Without(events, events - {id}, p, id)
  {}

  lemma ActiveSigned(queries: seq<QuerySpec>, active: map<string, TrendEvent>, id: string)
    requires Consistent(queries, active) && id in active
    ensures active[id].trendId == id && Signed(active[id])
  {}

  /** A fresh event brings exactly the trends through it, and cancels exactly those it forbids. */
  lemma InsertExactly(queries: seq<QuerySpec>, opts: Options, w: World, e: Event)
    requires Tidy(w) && Consistent(queries, w.active)
    requires e.id !in w.events && Exact(queries, opts, w, e.partition)
    requires Room(queries, opts, w.events[e.id := e], e.partition)
    ensures var p, s := e.partition, PartitionEvents(w.events[e.id := e], e.partition);
      && (forall id :: id in Positives(queries, opts, w, Process(e)) <==> Through(queries, s, p, e.id, id))
      && (opts.emitCancellations ==> forall id :: id in Cancels(queries, opts, w, Process(e)) <==> Forbidden(queries, s, p, e.id, id))
    ensures var active := Apply(queries, opts, w, Process(e)).active;
      forall id :: id in Positives(queries, opts, w, Process(e)) ==> id in active && e.id in active[id].path
  {
    assert Filed(w.events);
    var p, after := e.partition, w.events[e.id := e];
    var current := CurrentAfter(queries, opts, w, Process(e), p);
    FreshIsWithout(w.events, e, p);
    StepTidy(queries, opts, w, Process(e));
    SawPartition(queries, opts, w, Process(e), p);
    CurrentSigned(queries, opts, PartitionEvents(after, p), p, w.revision + 1);
    forall id ensures
      && (id in current && id !in ActiveIn(w.active, p) <==> Through(queries, PartitionEvents(after, p), p, e.id, id))
      && (id in ActiveIn(w.active, p) && id !in current <==> Forbidden(queries, PartitionEvents(after, p), p, e.id, id))
    {
      ShrinkIds(queries, opts, after, w.events, p, e.id, id);
    }
    forall id | id in current && id !in ActiveIn(w.active, p) ensures e.id in current[id].path {
      ActiveSigned(queries, current, id);
      ThroughPath(queries, opts, after, p, e.id, current[id]);
    }
  }

  /** So without absence clauses it never cancels a trend. */
  lemma InsertOnlyAdds(queries: seq<QuerySpec>, opts: Options, w: World, e: Event)
    requires Tidy(w) && Consistent(queries, w.active) && Plain(queries)
    requires e.id !in w.events && Exact(queries, opts, w, e.partition)
    requires Room(queries, opts, w.events[e.id := e], e.partition)
    ensures Cancels(queries, opts, w, Process(e)) == {}
  {
    hide Positives, Freed, Plain, Apply;
    InsertExactly(queries, opts, w, e);
    var s := PartitionEvents(w.events[e.id := e], e.partition);
    forall id ensures id !in Cancels(queries, opts, w, Process(e)) {
      forall path ensures !Freed(queries, s, e.partition, e.id, id, path) { PlainFreesNone(queries, s, e.partition, e.id, id, path); }
    }
  }

  /** Removing an event cancels exactly the active trends through it, and yields exactly those that it
      alone forbade. */
  lemma RemoveExactly(queries: seq<QuerySpec>, opts: Options, w: World, i: int)
    requires Tidy(w) && Consistent(queries, w.active)
    requires i in w.events && w.events[i].partition != "" && Exact(queries, opts, w, w.events[i].partition)
    requires Room(queries, opts, w.events, w.events[i].partition)
    ensures var p, s := w.events[i].partition, PartitionEvents(w.events, w.events[i].partition);
      && (forall id :: id in Positives(queries, opts, w, Remove(i)) <==> Forbidden(queries, s, p, i, id))
      && (opts.emitCancellations ==> forall id :: id in Cancels(queries, opts, w, Remove(i)) <==> Through(queries, s, p, i, id))
    ensures opts.emitCancellations ==> forall id :: id in Cancels(queries, opts, w, Remove(i)) <==>
      id in ActiveIn(w.active, w.events[i].partition) && i in w.active[id].path
  {
    assert Filed(w.events);
    var p, after := w.events[i].partition, w.events - {i};
    var s := PartitionEvents(w.events, p);
    var current := CurrentAfter(queries, opts, w, Remove(i), p);
    RemovedIsWithout(w.events, i, p);
    StepTidy(queries, opts, w, Remove(i));
    SawPartition(queries, opts, w, Remove(i), p);
    forall id ensures
      && (id in current && id !in ActiveIn(w.active, p) <==> Forbidden(queries, s, p, i, id))
      && (id in ActiveIn(w.active, p) && id !in current <==> Through(queries, s, p, i, id))
    {
      ShrinkIds(queries, opts, w.events, after, p, i, id);
    }
    forall id | id in ActiveIn(w.active, p) ensures Through(queries, s, p, i, id) <==> i in w.active[id].path {
      ActiveSigned(queries, w.active, id);
      ThroughPath(queries, opts, w.events, p, i, w.active[id]);
    }
  }

  /** So without absence clauses it never yields a trend. */
  lemma RemoveOnlyCancels(queries: seq<QuerySpec>, opts: Options, w: World, i: int)
    requires Tidy(w) && Consistent(queries, w.active) && Plain(queries)
    requires i in w.events && w.events[i].partition != "" && Exact(queries, opts, w, w.events[i].partition)
    requires Room(queries, opts, w.events, w.events[i].partition)
    ensures Positives(queries, opts, w, Remove(i)) == {}
  {
    hide Cancels, Freed, Plain;
    RemoveExactly(queries, opts, w, i);
    var p := w.events[i].partition;
    var s := PartitionEvents(w.events, p);
    forall id ensures id !in Positives(queries, opts, w, Remove(i)) {
      forall path ensures !Freed(queries, s, p, i, id, path) { PlainFreesNone(queries, s, p, i, id, path); }
    }
  }

  // ---- Over whole runs ----

  /** Every operation brings a fresh event, and no cap is reached. */
  ghost predicate Growing(queries: seq<QuerySpec>, opts: Options, w: World, ops: seq<Op>)
    requires Filed(w.events)
    decreases |ops|
  {
    ops == [] ||
    (&& ops[0].Process? && ops[0].e.id !in w.events && ops[0].e.partition != ""
     && Room(queries, opts, w.events[ops[0].e.id := ops[0].e], ops[0].e.partition)
     && Growing(queries, opts, Apply(queries, opts, w, ops[0]), ops[1..]))
  }

  /** Every operation removes an event, and no cap was reached. */
  ghost predicate Waning(queries: seq<QuerySpec>, opts: Options, w: World, ops: seq<Op>)
    requires Filed(w.events)
    decreases |ops|
  {
    ops == [] ||
    (&& ops[0].Remove? && ops[0].id in w.events && Room(queries, opts, w.events, w.events[ops[0].id].partition)
     && Waning(queries, opts, Apply(queries, opts, w, ops[0]), ops[1..]))
  }

  /** From any settled state, the empty one for instance, a growing run never cancels a trend. */
  lemma {:induction false} GrowingNeverCancels(queries: seq<QuerySpec>, opts: Options, w: World, ops: seq<Op>, id: string)
    requires Settled(queries, opts, w) && Plain(queries) && Growing(queries, opts, w, ops)
    ensures CancelMatch !in History(queries, opts, w, ops, id)
    decreases |ops|
  {
    hide Apply, Positives, Cancels, Plain, Consistent, Room;
    if ops != [] {
      assert Exact(queries, opts, w, ops[0].e.partition);
      InsertOnlyAdds(queries, opts, w, ops[0].e);
      CalmStep(queries, opts, w, ops[0]);
      GrowingNeverCancels(queries, opts, Apply(queries, opts, w, ops[0]), ops[1..], id);
    }
  }

  /** And a waning run never yields one. */
  lemma {:induction false} WaningNeverAdds(queries: seq<QuerySpec>, opts: Options, w: World, ops: seq<Op>, id: string)
    requires Settled(queries, opts, w) && Plain(queries) && Waning(queries, opts, w, ops)
    ensures PositiveMatch !in History(queries, opts, w, ops, id)
    decreases |ops|
  {
    hide Apply, Positives, Cancels, Plain, Consistent, Room;
    if ops != [] {
      assert Exact(queries, opts, w, w.events[ops[0].id].partition);
      RemoveOnlyCancels(queries, opts, w, ops[0].id);
      CalmStep(queries, opts, w, ops[0]);
      WaningNeverAdds(queries, opts, Apply(queries, opts, w, ops[0]), ops[1..], id);
    }
  }

  // ---- Changes that are not followed up ----

  /** The operation takes event i out of partition p without reevaluating p: the event moved
      elsewhere, or was removed while its partition key was empty. */
  predicate Abandons(w: World, op: Op, p: string, i: int) {
    && i in w.events && w.events[i].partition == p
    && match op
       case Process(e) => e.id == i && e.partition != p
       case Remove(id) => id == i && p == ""
  }

  /** The abandoned partition stays right exactly when none of its active trends runs through the
      event that left it, and that event alone forbade no path but those of active trends. */
  lemma AbandonedExactly(queries: seq<QuerySpec>, opts: Options, w: World, op: Op, p: string, i: int)
    requires Filed(w.events) && Consistent(queries, w.active) && StepTakesNone(queries, opts, w, op)
    requires Abandons(w, op, p, i) && Exact(queries, opts, w, p) && Room(queries, opts, w.events, p)
    ensures Filed(Apply(queries, opts, w, op).events)
    ensures Exact(queries, opts, Apply(queries, opts, w, op), p) <==>
      && (forall id :: id in ActiveIn(w.active, p) ==> i !in w.active[id].path)
      && (forall id, path :: Freed(queries, PartitionEvents(w.events, p), p, i, id, path) ==> id in ActiveIn(w.active, p))
  {
    hide Signed, Room, TrendIds, CurrentFor, Without, Consistent, Freed, Detected, StepTakesNone;
    var after := EventsAfter(w, op);
    var s := PartitionEvents(w.events, p);
    AbandonedIsWithout(w, op, p, i);
    StepExact(queries, opts, w, op, p);
    var active := ActiveIn(w.active, p);
    forall id ensures
      && (id in active && id !in TrendIds(queries, opts, after, p) <==> Through(queries, s, p, i, id))
      && (id in TrendIds(queries, opts, after, p) && id !in active <==> Forbidden(queries, s, p, i, id))
      && (id in active <==> exists path :: Detected(queries, s, p, id, path))
    {
      ShrinkIds(queries, opts, w.events, after, p, i, id);
      IdsDetected(queries, opts, w.events, p, id);
    }
    forall id | id in active ensures Through(queries, s, p, i, id) <==> i in w.active[id].path {
      ActiveSigned(queries, w.active, id);
      ThroughPath(queries, opts, w.events, p, i, w.active[id]);
    }
  }

  lemma AbandonedIsWithout(w: World, op: Op, p: string, i: int)
    requires Filed(w.events) && Abandons(w, op, p, i)
    ensures Filed(EventsAfter(w, op)) && Without(w.events, EventsAfter(w, op), p, i) && Touched(w, op) != Some(p)
  {}
}
