/** Where the standing runtime ends up: on calm runs every partition's active trends are those of the
    matches over its current events. */
module StandingConvergence {
  import opened Events
  import opened Links
  import opened Matcher
  import opened Text
  import opened StandingQueries
  import opened Trends
  import opened StandingGraph
  import opened StandingWorld
  import D = Derivations

  /** The trend ids a partition should have: those of the validated matches over its events. */
  ghost function TrendIds(queries: seq<QuerySpec>, opts: Options, events: map<int, Event>, p: string): set<string>
    requires Filed(events)
  {
    CurrentFor(queries, opts, PartitionEvents(events, p), p, 0).Keys
  }

  lemma IdsIgnoreRevision(queries: seq<QuerySpec>, opts: Options, events: seq<Event>, p: string, revision: nat)
    ensures CurrentFor(queries, opts, events, p, revision).Keys == CurrentFor(queries, opts, events, p, 0).Keys
  {
    var s := Window(events, opts.maxWindowEvents);
    forall id ensures id in CurrentFor(queries, opts, events, p, revision) <==> id in CurrentFor(queries, opts, events, p, 0) {
      CurrentExact(queries, p, s, opts.maxMatches, revision, id);
      CurrentExact(queries, p, s, opts.maxMatches, 0, id);
      if t: TrendEvent :| t.trendId == id && IsTrend(queries, p, s, opts.maxMatches, revision, t) {
        RevisionShift(queries, p, s, opts.maxMatches, revision, 0, t);
      }
      if t: TrendEvent :| t.trendId == id && IsTrend(queries, p, s, opts.maxMatches, 0, t) {
        RevisionShift(queries, p, s, opts.maxMatches, 0, revision, t);
      }
    }
  }

  lemma RevisionShift(queries: seq<QuerySpec>, p: string, s: seq<Event>, max: nat, a: nat, b: nat, t: TrendEvent)
    requires IsTrend(queries, p, s, max, a, t)
    ensures IsTrend(queries, p, s, max, b, t.(revision := b))
  {
    var k :| 0 <= k < |queries| && queries[k].enabled && t in QueryTrends(queries[k], p, s, max, a);
    var q := queries[k];
    ValidatedMembers(q, p, Candidates(q, s), MatchedPaths(q, s, max), a, t);
    var path :| path in MatchedPaths(q, s, max) && ValidPath(q, path, Candidates(q, s)) && t == TrendOf(q, p, path, a);
    assert t.(revision := b) == TrendOf(q, p, path, b);
    ValidatedMembers(q, p, Candidates(q, s), MatchedPaths(q, s, max), b, t.(revision := b));
  }

  /** Neither cap is reached on the partition. */
  ghost predicate Room(queries: seq<QuerySpec>, opts: Options, events: map<int, Event>, p: string)
    requires Filed(events)
  {
    var s := PartitionEvents(events, p);
    && Window(s, opts.maxWindowEvents) == s
    && forall k :: 0 <= k < |queries| && queries[k].enabled ==> Uncapped(queries[k], s, opts.maxMatches)
  }

  ghost predicate DetectedBy(q: QuerySpec, events: seq<Event>, p: string, id: string, path: seq<Event>) {
    q.enabled && IsMatch(q, events, path) && id == Fingerprint(q.queryId, q.version, p, Ids(path))
  }

  /** The path is a match of an enabled query, and id is its trend id. */
  ghost predicate Detected(queries: seq<QuerySpec>, events: seq<Event>, p: string, id: string, path: seq<Event>) {
    exists k :: 0 <= k < |queries| && DetectedBy(queries[k], events, p, id, path)
  }

  /** Whatever the queries are called, a trend's id determines its path. */
  lemma PathOfId(queries: seq<QuerySpec>, events: seq<Event>, p: string, t: TrendEvent, path: seq<Event>)
    requires Signed(t) && Detected(queries, events, p, t.trendId, path)
    ensures t.path == Ids(path)
  {
    var k :| 0 <= k < |queries| && DetectedBy(queries[k], events, p, t.trendId, path);
    var q := queries[k];
    SameIdSamePath(t.queryId, t.queryVersion, t.partition, t.path, q.queryId, q.version, p, Ids(path));
  }

  /** The ids on a list of events are those of matches over it; of all of them when the matcher is not
      cut short. */
  lemma IdsOnList(queries: seq<QuerySpec>, p: string, s: seq<Event>, max: nat, revision: nat, id: string)
    requires Ascending(s)
    ensures id in Current(queries, p, s, max, revision) ==> exists path :: Detected(queries, s, p, id, path)
    ensures (forall k :: 0 <= k < |queries| && queries[k].enabled ==> Uncapped(queries[k], s, max)) ==>
      (id in Current(queries, p, s, max, revision) <==> exists path :: Detected(queries, s, p, id, path))
  {
    hide QueryTrends, IsMatch, Fingerprint, Current, Uncapped;
    CurrentExact(queries, p, s, max, revision, id);
    if t: TrendEvent :| t.trendId == id && IsTrend(queries, p, s, max, revision, t) {
      var k :| 0 <= k < |queries| && queries[k].enabled && t in QueryTrends(queries[k], p, s, max, revision);
      TrendsAreMatches(queries[k], p, s, max, revision, t);
      var path :| IsMatch(queries[k], s, path) && t == TrendOf(queries[k], p, path, revision);
      assert DetectedBy(queries[k], s, p, id, path);
      assert Detected(queries, s, p, id, path);
    }
    if path :| Detected(queries, s, p, id, path) {
      var k :| 0 <= k < |queries| && DetectedBy(queries[k], s, p, id, path);
      var t := TrendOf(queries[k], p, path, revision);
      TrendsAreMatches(queries[k], p, s, max, revision, t);
      if Uncapped(queries[k], s, max) { assert IsTrend(queries, p, s, max, revision, t); }
    }
  }

  /** The ids a partition should have are those of the matches over its events; of all of them when
      neither cap is reached. */
  lemma IdsDetected(queries: seq<QuerySpec>, opts: Options, events: map<int, Event>, p: string, id: string)
    requires Filed(events)
    ensures id in TrendIds(queries, opts, events, p) ==>
      exists path :: Detected(queries, Window(PartitionEvents(events, p), opts.maxWindowEvents), p, id, path)
    ensures Room(queries, opts, events, p) ==>
      (id in TrendIds(queries, opts, events, p) <==> exists path :: Detected(queries, PartitionEvents(events, p), p, id, path))
  {
    hide Detected, Current, Uncapped, Window;
    WindowAscends(PartitionEvents(events, p), opts.maxWindowEvents);
    IdsOnList(queries, p, Window(PartitionEvents(events, p), opts.maxWindowEvents), opts.maxMatches, 0, id);
  }

  /** The path is a valid one that one of the query's first max derivations over s spells. */
  ghost predicate KeptMatch(q: QuerySpec, s: seq<Event>, max: nat, path: seq<Event>) {
    && ValidPath(q, path, s)
    && exists ds, i :: D.FirstOnes(q.steps, q.withinMs, s, max, ds) && 0 <= i < |ds| && path == D.Picks(s, D.Flat(ds[i]))
  }

  ghost predicate ReportedBy(q: QuerySpec, s: seq<Event>, p: string, max: nat, id: string, path: seq<Event>) {
    q.enabled && KeptMatch(q, s, max, path) && id == Fingerprint(q.queryId, q.version, p, Ids(path))
  }

  /** id is the trend id of a match that some enabled query keeps. */
  ghost predicate Reported(queries: seq<QuerySpec>, s: seq<Event>, p: string, max: nat, id: string) {
    exists k, path :: 0 <= k < |queries| && ReportedBy(queries[k], s, p, max, id, path)
  }

  lemma KeptIsMatched(q: QuerySpec, s: seq<Event>, max: nat, path: seq<Event>)
    requires Ascending(s)
    ensures path in MatchedPaths(q, s, max) && ValidPath(q, path, Candidates(q, s)) <==> KeptMatch(q, s, max, path)
  {
    hide ValidPath, D.FirstOnes, Rec, Candidates, D.Picks;
    CandidatesEnough(q, s, path);
    var ds := D.CapKeepsFirst(q.steps, q.withinMs, s, max);
    forall es, i | D.FirstOnes(q.steps, q.withinMs, s, max, es) && 0 <= i < |es| && path == D.Picks(s, D.Flat(es[i]))
      ensures path in MatchedPaths(q, s, max)
    {
      D.FirstUnique(q.steps, q.withinMs, s, max, ds, es);
      assert MatchedPaths(q, s, max)[i] == path;
    }
  }

  /** Whether or not a cap is reached, the ids on a list of events are those reported. */
  lemma IdsReported(queries: seq<QuerySpec>, p: string, s: seq<Event>, max: nat, revision: nat, id: string)
    requires Ascending(s)
    ensures id in Current(queries, p, s, max, revision) <==> Reported(queries, s, p, max, id)
  {
    hide QueryTrends, KeptMatch, Current, MatchedPaths, Candidates, ValidPath, Fingerprint;
    CurrentExact(queries, p, s, max, revision, id);
    if t: TrendEvent :| t.trendId == id && IsTrend(queries, p, s, max, revision, t) {
      var k :| 0 <= k < |queries| && queries[k].enabled && t in QueryTrends(queries[k], p, s, max, revision);
      var path := TrendKept(queries[k], p, s, max, revision, t);
      assert ReportedBy(queries[k], s, p, max, id, path);
    }
    if k, path :| 0 <= k < |queries| && ReportedBy(queries[k], s, p, max, id, path) {
      var t := TrendOf(queries[k], p, path, revision);
      KeptTrend(queries[k], p, s, max, revision, path);
      assert IsTrend(queries, p, s, max, revision, t);
    }
  }

  lemma TrendKept(q: QuerySpec, p: string, s: seq<Event>, max: nat, revision: nat, t: TrendEvent) returns (path: seq<Event>)
    requires Ascending(s) && t in QueryTrends(q, p, s, max, revision)
    ensures KeptMatch(q, s, max, path) && t == TrendOf(q, p, path, revision)
  {
    hide KeptMatch, MatchedPaths, Candidates, ValidPath;
    ValidatedMembers(q, p, Candidates(q, s), MatchedPaths(q, s, max), revision, t);
    path :| path in MatchedPaths(q, s, max) && ValidPath(q, path, Candidates(q, s)) && t == TrendOf(q, p, path, revision);
    KeptIsMatched(q, s, max, path);
  }

  lemma KeptTrend(q: QuerySpec, p: string, s: seq<Event>, max: nat, revision: nat, path: seq<Event>)
    requires Ascending(s) && KeptMatch(q, s, max, path)
    ensures TrendOf(q, p, path, revision) in QueryTrends(q, p, s, max, revision)
  {
    hide KeptMatch, MatchedPaths, Candidates, ValidPath;
    KeptIsMatched(q, s, max, path);
    ValidatedMembers(q, p, Candidates(q, s), MatchedPaths(q, s, max), revision, TrendOf(q, p, path, revision));
  }

  /** The ids are those reported on the events in kept. */
  ghost predicate IdsAmong(queries: seq<QuerySpec>, max: nat, kept: seq<Event>, p: string, ids: set<string>) {
    forall id :: id in ids <==> Reported(queries, kept, p, max, id)
  }

  lemma AllOnList(queries: seq<QuerySpec>, p: string, s: seq<Event>, max: nat, revision: nat)
    requires Ascending(s)
    ensures IdsAmong(queries, max, s, p, Current(queries, p, s, max, revision).Keys)
  {
    hide Current, Reported, Ascending;
    forall id ensures id in Current(queries, p, s, max, revision) <==> Reported(queries, s, p, max, id) {
      IdsReported(queries, p, s, max, revision, id);
    }
  }

  /** What a reevaluation looks at: the latest events of the partition, as many as the window holds. */
  lemma LatestSeen(queries: seq<QuerySpec>, opts: Options, w: World, op: Op, p: string) returns (kept: seq<Event>)
    requires Filed(w.events)
    ensures Filed(EventsAfter(w, op))
    ensures IsLatest(Listed(EventsAfter(w, op), IndexAfter(w, op), p), opts.maxWindowEvents, kept)
    ensures Tidy(Apply(queries, opts, w, op)) ==>
      Listed(EventsAfter(w, op), IndexAfter(w, op), p) == PartitionEvents(EventsAfter(w, op), p)
    ensures IdsAmong(queries, opts.maxMatches, kept, p, CurrentAfter(queries, opts, w, op, p).Keys)
  {
    hide Current, IdsAmong, Window, IsLatest, Tidy, Apply, EventsAfter, IndexAfter, Members;
    StaysInFiles(w, op);
    if Tidy(Apply(queries, opts, w, op)) { TidyLists(queries, opts, w, op, p); }
    var s := Listed(EventsAfter(w, op), IndexAfter(w, op), p);
    kept := Window(s, opts.maxWindowEvents);
    WindowLatest(s, opts.maxWindowEvents);
    WindowAscends(s, opts.maxWindowEvents);
    AllOnList(queries, p, kept, opts.maxMatches, w.revision + 1);
  }

  lemma TidyLists(queries: seq<QuerySpec>, opts: Options, w: World, op: Op, p: string)
    requires Filed(w.events) && Tidy(Apply(queries, opts, w, op))
    ensures Filed(EventsAfter(w, op)) && Listed(EventsAfter(w, op), IndexAfter(w, op), p) == PartitionEvents(EventsAfter(w, op), p)
  {
    hide CurrentFor, Replaced, Indexed, Clean;
    CleanMembers(EventsAfter(w, op), IndexAfter(w, op), p);
  }

  lemma StaysInFiles(w: World, op: Op)
    requires Filed(w.events)
    ensures Filed(EventsAfter(w, op))
  {}

  /** So an exact partition's active ids, at any state of a calm run for instance, are those of the
      first valid matches among its latest events. */
  lemma ExactMeans(queries: seq<QuerySpec>, opts: Options, w: World, p: string) returns (kept: seq<Event>)
    requires Filed(w.events) && Exact(queries, opts, w, p)
    ensures IsLatest(PartitionEvents(w.events, p), opts.maxWindowEvents, kept)
    ensures IdsAmong(queries, opts.maxMatches, kept, p, ActiveIn(w.active, p))
  {
    hide Current, IdsAmong, Window, IsLatest;
    var s := PartitionEvents(w.events, p);
    kept := Window(s, opts.maxWindowEvents);
    WindowLatest(s, opts.maxWindowEvents);
    WindowAscends(s, opts.maxWindowEvents);
    AllOnList(queries, p, kept, opts.maxMatches, 0);
  }

  ghost predicate Exact(queries: seq<QuerySpec>, opts: Options, w: World, p: string)
    requires Filed(w.events)
  {
    ActiveIn(w.active, p) == TrendIds(queries, opts, w.events, p)
  }

  /** Only a removal from the empty partition key makes the index untidy. */
  lemma StepTidy(queries: seq<QuerySpec>, opts: Options, w: World, op: Op)
    requires Tidy(w)
    ensures Filed(EventsAfter(w, op)) && Indexed(EventsAfter(w, op), IndexAfter(w, op))
    ensures Tidy(Apply(queries, opts, w, op)) <==> !(op.Remove? && op.id in w.events && w.events[op.id].partition == "")
  {
    hide CurrentFor, Replaced, Indexed, Clean;
    match op {
      case Process(e) => UpsertFiles(w.events, w.byPartition, e);
      case Remove(id) => RemoveUnfiles(w.events, w.byPartition, id);
    }
  }

  /** After a tidy step a reevaluation has seen exactly the partition's events. */
  lemma SawPartition(queries: seq<QuerySpec>, opts: Options, w: World, op: Op, p: string)
    requires Filed(w.events) && Tidy(Apply(queries, opts, w, op))
    ensures Filed(EventsAfter(w, op))
    ensures CurrentAfter(queries, opts, w, op, p) == CurrentFor(queries, opts, PartitionEvents(EventsAfter(w, op), p), p, w.revision + 1)
    ensures CurrentAfter(queries, opts, w, op, p).Keys == TrendIds(queries, opts, EventsAfter(w, op), p)
  {
    hide CurrentFor, Replaced, Indexed, Clean;
    CleanMembers(EventsAfter(w, op), IndexAfter(w, op), p);
    IdsIgnoreRevision(queries, opts, PartitionEvents(EventsAfter(w, op), p), p, w.revision + 1);
  }

  /** A tidy operation makes its partition exact; and it leaves the trends of the other partitions as
      they were if it takes over none of their ids. */
  lemma StepExact(queries: seq<QuerySpec>, opts: Options, w: World, op: Op, p: string)
    requires Filed(w.events)
    ensures var w' := Apply(queries, opts, w, op);
      && Filed(w'.events)
      && (Touched(w, op) == Some(p) && Tidy(w') ==> Exact(queries, opts, w', p))
      && (Touched(w, op) != Some(p) && StepTakesNone(queries, opts, w, op) ==> ActiveIn(w'.active, p) == ActiveIn(w.active, p))
  {
    hide CurrentFor, Replaced, ActiveIn, Indexed, Clean, TakesNone;
    var q := Touched(w, op);
    if q.Some? {
      CurrentSigned(queries, opts, Listed(EventsAfter(w, op), IndexAfter(w, op), q.value), q.value, w.revision + 1);
      ReplacedExact(w.active, q.value, CurrentAfter(queries, opts, w, op, q.value));
      if Tidy(Apply(queries, opts, w, op)) { SawPartition(queries, opts, w, op, q.value); }
    }
  }

  /** An operation that leaves the events of a partition alone leaves the ids it should have alone. */
  lemma OthersUntouched(queries: seq<QuerySpec>, opts: Options, w: World, op: Op, p: string)
    requires Filed(w.events) && op.Process? ==> op.e.partition != p
    requires Filed(w.events) && PartitionIds(EventsAfter(w, op), p) == PartitionIds(w.events, p)
    ensures Filed(EventsAfter(w, op)) && TrendIds(queries, opts, EventsAfter(w, op), p) == TrendIds(queries, opts, w.events, p)
  {
    hide Current;
    var events := EventsAfter(w, op);
    forall i | i in PartitionIds(events, p) ensures events[i] == w.events[i] {}
    SamePartitionEvents(w.events, events, p);
  }

  lemma SamePartitionEvents(a: map<int, Event>, b: map<int, Event>, p: string)
    requires Filed(a) && Filed(b) && PartitionIds(a, p) == PartitionIds(b, p)
    requires forall i :: i in PartitionIds(a, p) ==> a[i] == b[i]
    ensures PartitionEvents(a, p) == PartitionEvents(b, p)
  {
    ListOfUnique(PartitionIds(b, p), b, PartitionEvents(a, p));
  }

  /** No event changes partition, and no partition key is empty. */
  predicate Calm(w: World, op: Op) {
    op.Process? ==> op.e.partition != "" && (op.e.id in w.events ==> w.events[op.e.id].partition == op.e.partition)
  }

  ghost predicate CalmRun(queries: seq<QuerySpec>, opts: Options, w: World, ops: seq<Op>)
    requires Filed(w.events)
    decreases |ops|
  {
    ops == [] || (Calm(w, ops[0]) && CalmRun(queries, opts, Apply(queries, opts, w, ops[0]), ops[1..]))
  }

  ghost predicate Settled(queries: seq<QuerySpec>, opts: Options, w: World) {
    && Tidy(w) && Consistent(queries, w.active)
    && (forall i :: i in w.events ==> w.events[i].partition != "")
    && forall p :: Exact(queries, opts, w, p)
  }

  /** A trend that should be active in a partition has a non-empty path of that partition's events. */
  lemma TrendPath(queries: seq<QuerySpec>, opts: Options, events: map<int, Event>, p: string, id: string)
    returns (k: nat, ids: seq<int>)
    requires Filed(events) && id in TrendIds(queries, opts, events, p)
    ensures k < |queries| && id == Fingerprint(queries[k].queryId, queries[k].version, p, ids)
    ensures ids != [] && ids[0] in events && events[ids[0]].partition == p
  {
    IdsDetected(queries, opts, events, p, id);
    var s := PartitionEvents(events, p);
    WindowAscends(s, opts.maxWindowEvents);
    var seen := Window(s, opts.maxWindowEvents);
    var path :| Detected(queries, seen, p, id, path);
    k :| k < |queries| && DetectedBy(queries[k], seen, p, id, path);
    ids := Ids(path);
    assert path[0] in seen && path[0] in s;
  }

  /** On calm steps no id is taken over, whatever the queries are called: trends with one id have one
      path, and its events are in one partition. */
  lemma CalmTakesNone(queries: seq<QuerySpec>, opts: Options, w: World, op: Op)
    requires Settled(queries, opts, w) && Calm(w, op) && Tidy(Apply(queries, opts, w, op))
    ensures StepTakesNone(queries, opts, w, op)
  {
    hide CurrentFor, Replaced, TrendIds, Indexed, Clean, Upserting, Removing, Consistent;
    var q := Touched(w, op);
    if q.Some? {
      var p := q.value;
      var current := CurrentAfter(queries, opts, w, op, p);
      SawPartition(queries, opts, w, op, p);
      forall id | id in current && id in w.active ensures w.active[id].partition == p {
        var p' := w.active[id].partition;
        assert Exact(queries, opts, w, p') && id in ActiveIn(w.active, p');
        var j, a := TrendPath(queries, opts, w.events, p', id);
        var k, b := TrendPath(queries, opts, EventsAfter(w, op), p, id);
        SameIdSamePath(queries[j].queryId, queries[j].version, p', a, queries[k].queryId, queries[k].version, p, b);
        CalmKeepsPartition(w, op, a[0]);
      }
    }
  }

  lemma CalmKeepsPartition(w: World, op: Op, i: int)
    requires Calm(w, op) && i in w.events && i in EventsAfter(w, op)
    ensures EventsAfter(w, op)[i].partition == w.events[i].partition
  {}

  lemma CalmPartition(queries: seq<QuerySpec>, opts: Options, w: World, op: Op, p: string)
    requires Settled(queries, opts, w) && Calm(w, op) && Tidy(Apply(queries, opts, w, op))
    ensures Exact(queries, opts, Apply(queries, opts, w, op), p)
  {
    hide CurrentFor, Consistent, Replaced, ActiveIn, TrendIds, Indexed, Clean, Upserting, Removing, StepTakesNone;
    CalmTakesNone(queries, opts, w, op);
    StepExact(queries, opts, w, op, p);
    if Touched(w, op) != Some(p) {
      assert Exact(queries, opts, w, p);
      CalmElsewhere(w, op, p);
      OthersUntouched(queries, opts, w, op, p);
    }
  }

  lemma CalmElsewhere(w: World, op: Op, p: string)
    requires Filed(w.events) && Calm(w, op) && Touched(w, op) != Some(p)
    requires forall i :: i in w.events ==> w.events[i].partition != ""
    ensures PartitionIds(EventsAfter(w, op), p) == PartitionIds(w.events, p)
  {}

  lemma CalmStep(queries: seq<QuerySpec>, opts: Options, w: World, op: Op)
    requires Settled(queries, opts, w) && Calm(w, op)
    ensures Settled(queries, opts, Apply(queries, opts, w, op)) && StepTakesNone(queries, opts, w, op)
  {
    hide CurrentFor, Consistent, Replaced, ActiveIn, TrendIds, Indexed, Clean, Upserting, Removing, StepTakesNone;
    StepTidy(queries, opts, w, op);
    StepConsistent(queries, opts, w, op);
    CalmTakesNone(queries, opts, w, op);
    forall p ensures Exact(queries, opts, Apply(queries, opts, w, op), p) {
      CalmPartition(queries, opts, w, op, p);
    }
  }

  lemma NothingAtFirst(queries: seq<QuerySpec>, opts: Options)
    ensures Settled(queries, opts, Empty)
  {
    forall p ensures Exact(queries, opts, Empty, p) {
      assert PartitionIds(map[], p) == {};
      var s := Window(PartitionEvents(map[], p), opts.maxWindowEvents);
      assert s == [];
      forall id ensures id !in TrendIds(queries, opts, map[], p) {
        CurrentExact(queries, p, s, opts.maxMatches, 0, id);
        forall t: TrendEvent ensures !IsTrend(queries, p, [], opts.maxMatches, 0, t) {
          NoEventsNoTrend(queries, p, opts.maxMatches, t);
        }
      }
    }
  }

  lemma NoEventsNoTrend(queries: seq<QuerySpec>, p: string, max: nat, t: TrendEvent)
    ensures !IsTrend(queries, p, [], max, 0, t)
  {
    forall k | 0 <= k < |queries| ensures t !in QueryTrends(queries[k], p, [], max, 0) {
      TrendsAreMatches(queries[k], p, [], max, 0, t);
    }
  }

  /** At every state of a calm run, each partition's active ids are those of the validated matches
      over its current events; and no id was taken over on the way. */
  lemma {:induction false} RunsConverge(queries: seq<QuerySpec>, opts: Options, w: World, ops: seq<Op>)
    requires Settled(queries, opts, w) && CalmRun(queries, opts, w, ops)
    ensures Settled(queries, opts, Run(queries, opts, w, ops)) && RunTakesNone(queries, opts, w, ops)
    decreases |ops|
  {
    if ops != [] {
      CalmStep(queries, opts, w, ops[0]);
      RunsConverge(queries, opts, Apply(queries, opts, w, ops[0]), ops[1..]);
    }
  }

  /** Any two calm runs that end with the same events have the same active ids, whatever came when. */
  lemma HistoryIndependent(queries: seq<QuerySpec>, opts: Options, ops: seq<Op>, ops': seq<Op>)
    requires CalmRun(queries, opts, Empty, ops) && CalmRun(queries, opts, Empty, ops')
    requires Run(queries, opts, Empty, ops).events == Run(queries, opts, Empty, ops').events
    ensures Run(queries, opts, Empty, ops).active.Keys == Run(queries, opts, Empty, ops').active.Keys
  {
    NothingAtFirst(queries, opts);
    RunsConverge(queries, opts, Empty, ops);
    RunsConverge(queries, opts, Empty, ops');
    SettledSame(queries, opts, Run(queries, opts, Empty, ops), Run(queries, opts, Empty, ops'));
  }

  lemma SettledSame(queries: seq<QuerySpec>, opts: Options, a: World, b: World)
    requires Settled(queries, opts, a) && Settled(queries, opts, b) && a.events == b.events
    ensures a.active.Keys == b.active.Keys
  {
    forall id | id in a.active ensures id in b.active {
      assert Exact(queries, opts, a, a.active[id].partition) && Exact(queries, opts, b, a.active[id].partition);
      assert id in ActiveIn(a.active, a.active[id].partition);
    }
    forall id | id in b.active ensures id in a.active {
      assert Exact(queries, opts, a, b.active[id].partition) && Exact(queries, opts, b, b.active[id].partition);
      assert id in ActiveIn(b.active, b.active[id].partition);
    }
  }
}
