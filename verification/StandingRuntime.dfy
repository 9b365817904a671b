/** StandingTrendRuntime: the graph, the active trends, and the events sent to the sinks. */
module StandingRuntime {
  import opened Events
  import opened Links
  import opened Matcher
  import opened StandingQueries
  import opened Trends
  import opened StandingGraph
  import opened StandingWorld
  import opened StandingConvergence

  function CancelOf(t: TrendEvent, revision: nat): TrendEvent {
    t.(kind := CancelMatch, revision := revision)
  }

  /** Each of the ids' events appears once, as m has it. */
  ghost predicate Lists(s: seq<TrendEvent>, ids: set<string>, m: map<string, TrendEvent>) {
    && (forall i, j :: 0 <= i < j < |s| ==> s[i].trendId != s[j].trendId)
    && (forall t :: t in s ==> t.trendId in ids && t.trendId in m && t == m[t.trendId])
    && (forall id :: id in ids ==> id in m && m[id] in s)
  }

  function CancelsOf(active: map<string, TrendEvent>, revision: nat): map<string, TrendEvent> {
    map id | id in active :: CancelOf(active[id], revision)
  }

  /** First the positive events, as the new state has them, then the cancellations of old ones. */
  ghost predicate Emission(s: seq<TrendEvent>, pos: set<string>, neg: set<string>, w: World, w': World) {
    exists n :: 0 <= n <= |s| && Lists(s[..n], pos, w'.active) && Lists(s[n..], neg, CancelsOf(w.active, w'.revision))
  }

  /** The ids a listener holds who takes up those announced and drops those cancelled. */
  function Heard(s: seq<TrendEvent>): set<string> {
    if s == [] then {}
    else
      var ids, t := Heard(s[..|s| - 1]), s[|s| - 1];
      if t.kind == PositiveMatch then ids + {t.trendId} else ids - {t.trendId}
  }

  function NamesOf(s: seq<TrendEvent>): set<string> { set t | t in s :: t.trendId }

  lemma NamesSnoc(s: seq<TrendEvent>, t: TrendEvent)
    ensures NamesOf(s + [t]) == NamesOf(s) + {t.trendId}
  {
    assert forall x :: x in s + [t] <==> x in s || x == t;
  }

  lemma {:induction false} HeardMore(s: seq<TrendEvent>, out: seq<TrendEvent>, kind: Kind)
    requires forall t :: t in out ==> t.kind == kind
    ensures Heard(s + out) == if kind == PositiveMatch then Heard(s) + NamesOf(out) else Heard(s) - NamesOf(out)
  {
    hide NamesOf, Heard;
    if out == [] {
      assert s + out == s;
      NoNames();
    } else {
      var n := |out| - 1;
      assert out == out[..n] + [out[n]] && s + out == s + out[..n] + [out[n]];
      HeardMore(s, out[..n], kind);
      HeardSnoc(s + out[..n], out[n]);
      NamesSnoc(out[..n], out[n]);
    }
  }

  lemma NoNames()
    ensures NamesOf([]) == {}
  {}

  lemma HeardSnoc(s: seq<TrendEvent>, t: TrendEvent)
    ensures Heard(s + [t]) == if t.kind == PositiveMatch then Heard(s) + {t.trendId} else Heard(s) - {t.trendId}
  {
    assert (s + [t])[..|s|] == s;
  }

  lemma ListedNames(s: seq<TrendEvent>, ids: set<string>, m: map<string, TrendEvent>, kind: Kind)
    requires Lists(s, ids, m) && forall id :: id in m ==> m[id].trendId == id && m[id].kind == kind
    ensures NamesOf(s) == ids && forall t :: t in s ==> t.kind == kind
  {
    forall id | id in ids ensures id in NamesOf(s) { assert m[id] in s; }
  }

  /** Hearing one emission turns the old active ids into the new ones. */
  lemma StillHeard(queries: seq<QuerySpec>, opts: Options, w: World, op: Op, sent: seq<TrendEvent>, out: seq<TrendEvent>)
    requires Filed(w.events) && Keyed(w.active) && opts.emitCancellations && Heard(sent) == w.active.Keys
    requires Emission(out, Positives(queries, opts, w, op), Cancels(queries, opts, w, op), w, Apply(queries, opts, w, op))
    ensures Heard(sent + out) == Apply(queries, opts, w, op).active.Keys
  {
    hide Apply, Positives, Cancels, Heard, Lists, NamesOf;
    ApplyKeyed(queries, opts, w, op);
    LedgerStep(queries, opts, w, op);
    var w', pos, neg := Apply(queries, opts, w, op), Positives(queries, opts, w, op), Cancels(queries, opts, w, op);
    var n :| 0 <= n <= |out| && Lists(out[..n], pos, w'.active) && Lists(out[n..], neg, CancelsOf(w.active, w'.revision));
    ListedNames(out[..n], pos, w'.active, PositiveMatch);
    HeardMore(sent, out[..n], PositiveMatch);
    ListedNames(out[n..], neg, CancelsOf(w.active, w'.revision), CancelMatch);
    HeardMore(sent + out[..n], out[n..], CancelMatch);
    assert sent + out == sent + out[..n] + out[n..];
  }

  /** t says of the trend `was` that it holds no longer. */
  predicate Withdraws(t: TrendEvent, was: TrendEvent) {
    && t.kind == CancelMatch && t.trendId == was.trendId && t.queryId == was.queryId && t.queryVersion == was.queryVersion
    && t.partition == was.partition && t.path == was.path
  }

  lemma InEmission(out: seq<TrendEvent>, pos: set<string>, neg: set<string>, w: World, w': World, t: TrendEvent)
    requires Emission(out, pos, neg, w, w') && t in out
    ensures (t.trendId in pos && t.trendId in w'.active && t == w'.active[t.trendId])
      || (t.trendId in neg && t.trendId in w.active && Withdraws(t, w.active[t.trendId]) && t.revision == w'.revision)
  {
    hide Lists;
    var n :| 0 <= n <= |out| && Lists(out[..n], pos, w'.active) && Lists(out[n..], neg, CancelsOf(w.active, w'.revision));
    assert out == out[..n] + out[n..];
    if t in out[..n] { InLists(out[..n], pos, w'.active, t); } else { InLists(out[n..], neg, CancelsOf(w.active, w'.revision), t); }
  }

  lemma InLists(s: seq<TrendEvent>, ids: set<string>, m: map<string, TrendEvent>, t: TrendEvent)
    requires Lists(s, ids, m) && t in s
    ensures t.trendId in ids && t.trendId in m && t == m[t.trendId]
  {}

  /** What an operation sends out: the new trends as they stand now, and the old ones withdrawn; all
      with the revision the operation made. */
  lemma EmittedMeans(queries: seq<QuerySpec>, opts: Options, w: World, op: Op, out: seq<TrendEvent>, t: TrendEvent)
    requires Filed(w.events) && Keyed(w.active) && t in out
    requires Emission(out, Positives(queries, opts, w, op), Cancels(queries, opts, w, op), w, Apply(queries, opts, w, op))
    ensures t.revision == w.revision + 1
    ensures var w', id := Apply(queries, opts, w, op), t.trendId;
      if t.kind == PositiveMatch then id in Positives(queries, opts, w, op) && id in w'.active && t == w'.active[id]
      else id in Cancels(queries, opts, w, op) && id in w.active && Withdraws(t, w.active[id])
  {
    hide Apply, Positives, Cancels, Emission, CancelOf;
    var w', id := Apply(queries, opts, w, op), t.trendId;
    ApplyKeyed(queries, opts, w, op);
    RevisionGrows(queries, opts, w, op);
    InEmission(out, Positives(queries, opts, w, op), Cancels(queries, opts, w, op), w, w', t);
    if id in Positives(queries, opts, w, op) { NewRevision(queries, opts, w, op, id); }
  }

  lemma RevisionGrows(queries: seq<QuerySpec>, opts: Options, w: World, op: Op)
    requires Filed(w.events)
    ensures Apply(queries, opts, w, op).revision == w.revision + 1
  {}

  lemma NewRevision(queries: seq<QuerySpec>, opts: Options, w: World, op: Op, id: string)
    requires Filed(w.events) && id in Positives(queries, opts, w, op)
    ensures var w' := Apply(queries, opts, w, op); id in w'.active && w'.active[id].revision == w.revision + 1 == w'.revision
  {
    hide CurrentFor;
    var p := Touched(w, op).value;
    var s := Listed(EventsAfter(w, op), IndexAfter(w, op), p);
    CurrentRevision(queries, opts, s, p, w.revision + 1, id);
  }

  lemma CurrentRevision(queries: seq<QuerySpec>, opts: Options, s: seq<Event>, p: string, revision: nat, id: string)
    requires id in CurrentFor(queries, opts, s, p, revision)
    ensures CurrentFor(queries, opts, s, p, revision)[id].revision == revision
  {
    hide IsTrend, Current;
    var seen := Window(s, opts.maxWindowEvents);
    CurrentExact(queries, p, seen, opts.maxMatches, revision, id);
    TrendSigned(queries, p, seen, opts.maxMatches, revision, CurrentFor(queries, opts, s, p, revision)[id]);
  }

  function Arrivals(s: seq<Event>): seq<Op> {
    seq(|s|, i requires 0 <= i < |s| => Process(s[i]))
  }

  class StandingTrendRuntime {
    const queries: seq<QuerySpec>
    const opts: Options
    const state: TemporalGraph
    var active: map<string, TrendEvent>
    var sent: seq<TrendEvent>

    constructor (queries: seq<QuerySpec>, opts: Options, entityKeys: seq<string>, maxGapMs: Option<int>)
      ensures this.queries == queries && this.opts == opts && fresh(state) && sent == []
      ensures Good() && Now() == Empty
    {
      this.queries, this.opts := queries, opts;
      state := new TemporalGraph(entityKeys, maxGapMs);
      active, sent := map[], [];
    }

    ghost function Now(): World
      reads this, state
    {
      World(state.events, state.byPartition, active, state.revision)
    }

    /** The graph is in order, and with cancellations on, who heard all that was sent knows which trends
        are active. */
    ghost predicate Good()
      reads this, state
    {
      && state.Valid() && Filed(state.events) && Keyed(active)
      && (opts.emitCancellations ==> Heard(sent) == active.Keys)
    }

    method ProcessEvent(e: Event) returns (out: seq<TrendEvent>)
      requires Good()
      modifies this, state
      ensures Good() && Filed(old(state.events)) && Filed(state.events)
      ensures Now() == Apply(queries, opts, old(Now()), Process(e))
      ensures Emission(out, Positives(queries, opts, old(Now()), Process(e)), Cancels(queries, opts, old(Now()), Process(e)), old(Now()), Now())
      ensures sent == old(sent) + out
    {
      hide Keyed, Positives, Cancels, CurrentFor, Emission, Upserting, Heard;
      ghost var w := Now();
      ApplyKeyed(queries, opts, w, Process(e));
      var m := state.UpsertEvent(e);
      out := ReevaluatePartition(e.partition, w, Process(e));
      if opts.emitCancellations { StillHeard(queries, opts, w, Process(e), old(sent), out); }
    }

    /** An event that was not there, or was filed under the empty key, is not followed up. */
    method RemoveEvent(id: int) returns (out: seq<TrendEvent>)
      requires Good()
      modifies this, state
      ensures Good() && Filed(old(state.events)) && Now() == Apply(queries, opts, old(Now()), Remove(id))
      ensures Emission(out, Positives(queries, opts, old(Now()), Remove(id)), Cancels(queries, opts, old(Now()), Remove(id)), old(Now()), Now())
      ensures sent == old(sent) + out
    {
      hide Keyed, CurrentFor, Emission, Removing, Heard;
      ghost var w := Now();
      ApplyKeyed(queries, opts, w, Remove(id));
      var m := state.RemoveEvent(id);
      if m.was.None? || m.was.value == "" {
        out := [];
        NothingSent(w, Now());
      } else {
        out := ReevaluatePartition(m.was.value, w, Remove(id));
      }
      if opts.emitCancellations { StillHeard(queries, opts, w, Remove(id), old(sent), out); }
    }

    /** The ids of the partition's active trends are replaced by the current ones, and the difference
        is sent out. */
    method ReevaluatePartition(p: string, ghost w: World, ghost op: Op) returns (out: seq<TrendEvent>)
      requires Filed(w.events) && Keyed(w.active) && Touched(w, op) == Some(p) && active == w.active
      requires state.events == EventsAfter(w, op) && state.byPartition == IndexAfter(w, op) && state.revision == w.revision + 1
      modifies this
      ensures Now() == Apply(queries, opts, w, op)
      ensures Emission(out, Positives(queries, opts, w, op), Cancels(queries, opts, w, op), w, Now())
      ensures sent == old(sent) + out
    {
      hide Keyed, CurrentFor, Emission, Replaced, ActiveIn, Filed, Listed, Apply, Positives, Cancels, EventsAfter, IndexAfter;
      Applied(queries, opts, w, op, p);
      CurrentKeyed(queries, opts, Listed(state.events, state.byPartition, p), p, w.revision + 1);
      var current := CurrentTrends(p);
      out := SendDifference(p, current, w);
    }

    method SendDifference(p: string, current: map<string, TrendEvent>, ghost w: World) returns (out: seq<TrendEvent>)
      requires Keyed(active) && Keyed(current) && active == w.active
      modifies this
      ensures active == Replaced(w.active, p, current) && sent == old(sent) + out
      ensures Emission(out, current.Keys - ActiveIn(w.active, p),
                       if opts.emitCancellations then ActiveIn(w.active, p) - current.Keys else {}, w, Now())
    {
      hide Emission, Lists, CancelsOf, Replaced, ActiveIn;
      var previous := ActiveIn(active, p);
      ghost var gone := if opts.emitCancellations then previous - current.Keys else {};
      ReplacedByPrevious(active, p, previous, current);
      CancelIds(active, state.revision, previous);
      var positives := Emit(current.Keys - previous, current);
      var cancels := Emit(if opts.emitCancellations then previous - current.Keys else {}, CancelsOf(active, state.revision));
      DifferenceSent(w, state.events, state.byPartition, state.revision, p, current, positives, cancels, gone);
      active := (map t | t in active && t !in previous :: active[t]) + current;
      out := positives + cancels;
      sent := sent + out;
    }

    /** The trends of the partition's latest events. */
    method CurrentTrends(p: string) returns (m: map<string, TrendEvent>)
      requires Filed(state.events)
      ensures m == CurrentFor(queries, opts, Listed(state.events, state.byPartition, p), p, state.revision)
    {
      hide Ascending, Current;
      var events := state.EventsForPartition(p);
      WindowAscends(events, opts.maxWindowEvents);
      if |events| > opts.maxWindowEvents && opts.maxWindowEvents > 0 {
        events := events[|events| - opts.maxWindowEvents..];
      }
      m := TrendsOfQueries(p, events, state.revision);
    }

    method TrendsOfQueries(p: string, events: seq<Event>, revision: nat) returns (m: map<string, TrendEvent>)
      requires Ascending(events)
      ensures m == Current(queries, p, events, opts.maxMatches, revision)
    {
      m := map[];
      for i := 0 to |queries|
        invariant m == Current(queries[..i], p, events, opts.maxMatches, revision)
      {
        hide AddTrends, QueryTrends;
        CurrentSnoc(queries[..i], queries[i], p, events, opts.maxMatches, revision);
        assert queries[..i + 1] == queries[..i] + [queries[i]];
        if queries[i].enabled {
          var trends := EvaluateQueryPartition(queries[i], p, events, opts.maxMatches, revision);
          m := Collect(m, trends);
        }
      }
      assert queries[..|queries|] == queries;
    }

    /** Each event of a replay is processed in (time, id) order. */
    method Replay(events: seq<Event>) returns (out: seq<TrendEvent>)
      requires Good() && Filed(state.events)
      modifies this, state
      ensures Good() && Filed(old(state.events)) && Now() == Run(queries, opts, old(Now()), Arrivals(SortEvents(events)))
      ensures sent == old(sent) + out
    {
      hide Good, Run, Arrivals, SortEvents, Filed;
      var s := SortEvents(events);
      out := [];
      ghost var end := Run(queries, opts, Now(), Arrivals(s));
      ghost var sent0 := sent;
      assert s[0..] == s && sent0 + [] == sent;
      for i := 0 to |s|
        invariant Good() && Filed(state.events)
        invariant sent == sent0 + out
        invariant Run(queries, opts, Now(), Arrivals(s[i..])) == end
      {
        var emitted := ReplayNext(s, i);
        Appended(sent0, out, emitted);
        out := out + emitted;
      }
      NoneLeft(queries, opts, Now(), s);
    }

    method ReplayNext(s: seq<Event>, i: nat) returns (out: seq<TrendEvent>)
      requires Good() && Filed(state.events) && i < |s|
      modifies this, state
      ensures Good() && Filed(state.events) && sent == old(sent) + out && Filed(old(Now()).events)
      ensures Run(queries, opts, Now(), Arrivals(s[i + 1..])) == Run(queries, opts, old(Now()), Arrivals(s[i..]))
    {
      hide Good, Apply, Emission, Positives, Cancels, Run, Arrivals;
      ghost var before := Now();
      ArrivalsHead(s, i);
      out := ProcessEvent(s[i]);
      RunsOn(queries, opts, before, Arrivals(s[i..]), Now());
    }
  }

  lemma Appended<T>(a: seq<T>, b: seq<T>, c: seq<T>)
    ensures a + b + c == a + (b + c)
  {}

  lemma NoneLeft(queries: seq<QuerySpec>, opts: Options, w: World, s: seq<Event>)
    requires Filed(w.events)
    ensures Run(queries, opts, w, Arrivals(s[|s|..])) == w
  {
    assert Arrivals(s[|s|..]) == [];
  }

  lemma Applied(queries: seq<QuerySpec>, opts: Options, w: World, op: Op, p: string)
    requires Filed(w.events) && Touched(w, op) == Some(p)
    ensures Filed(EventsAfter(w, op))
    ensures var current := CurrentFor(queries, opts, Listed(EventsAfter(w, op), IndexAfter(w, op), p), p, w.revision + 1);
      && Apply(queries, opts, w, op) == World(EventsAfter(w, op), IndexAfter(w, op), Replaced(w.active, p, current), w.revision + 1)
      && Positives(queries, opts, w, op) == current.Keys - ActiveIn(w.active, p)
      && Cancels(queries, opts, w, op) == if opts.emitCancellations then ActiveIn(w.active, p) - current.Keys else {}
  {
    hide CurrentFor, Replaced, ActiveIn, Listed, EventsAfter, IndexAfter, Touched;
    StaysFiled(w, op);
  }

  lemma StaysFiled(w: World, op: Op)
    requires Filed(w.events)
    ensures Filed(EventsAfter(w, op))
  {}

  lemma RunsOn(queries: seq<QuerySpec>, opts: Options, w: World, ops: seq<Op>, w': World)
    requires Filed(w.events) && Filed(w'.events) && ops != [] && w' == Apply(queries, opts, w, ops[0])
    ensures Run(queries, opts, w, ops) == Run(queries, opts, w', ops[1..])
  {}

  lemma ReplacedByPrevious(active: map<string, TrendEvent>, p: string, previous: set<string>, current: map<string, TrendEvent>)
    requires previous == ActiveIn(active, p)
    ensures previous <= active.Keys
    ensures Replaced(active, p, current) == (map t | t in active && t !in previous :: active[t]) + current
  {}

  lemma DifferenceSent(w: World, events: map<int, Event>, byPartition: map<string, set<int>>, revision: nat, p: string, current: map<string, TrendEvent>,
                                          pos: seq<TrendEvent>, neg: seq<TrendEvent>, gone: set<string>)
    requires Lists(pos, current.Keys - ActiveIn(w.active, p), current) && Lists(neg, gone, CancelsOf(w.active, revision))
    ensures Emission(pos + neg, current.Keys - ActiveIn(w.active, p), gone, w, World(events, byPartition, Replaced(w.active, p, current), revision))
  {
    ListsLarger(pos, current.Keys - ActiveIn(w.active, p), current, Replaced(w.active, p, current));
    Emits(pos, neg, current.Keys - ActiveIn(w.active, p), gone, w, World(events, byPartition, Replaced(w.active, p, current), revision));
  }

  lemma CancelIds(active: map<string, TrendEvent>, revision: nat, ids: set<string>)
    requires Keyed(active) && ids <= active.Keys
    ensures var m := CancelsOf(active, revision);
      forall id :: id in ids ==> id in m && m[id].trendId == id
  {}

  method Emit(ids: set<string>, m: map<string, TrendEvent>) returns (s: seq<TrendEvent>)
    requires forall id :: id in ids ==> id in m && m[id].trendId == id
    ensures Lists(s, ids, m)
  {
    s := [];
    var todo := ids;
    while todo != {}
      invariant todo <= ids && Lists(s, ids - todo, m)
      decreases todo
    {
      var id := TakeAny(todo);
      forall i | 0 <= i < |s| ensures s[i].trendId != id { assert s[i] in s; }
      s := s + [m[id]];
      todo := todo - {id};
    }
    assert ids - todo == ids;
  }

  method Collect(m: map<string, TrendEvent>, ts: seq<TrendEvent>) returns (r: map<string, TrendEvent>)
    ensures r == AddTrends(m, ts)
  {
    r := m;
    for i := 0 to |ts|
      invariant AddTrends(r, ts[i..]) == AddTrends(m, ts)
    {
      assert ts[i..][1..] == ts[i + 1..];
      r := r[ts[i].trendId := ts[i]];
    }
  }

  lemma CurrentSnoc(qs: seq<QuerySpec>, q: QuerySpec, p: string, events: seq<Event>, max: nat, revision: nat)
    ensures Current(qs + [q], p, events, max, revision) ==
      if q.enabled then AddTrends(Current(qs, p, events, max, revision), QueryTrends(q, p, events, max, revision))
      else Current(qs, p, events, max, revision)
  {
    assert (qs + [q])[..|qs|] == qs;
  }

  lemma ArrivalsHead(s: seq<Event>, i: nat)
    requires i < |s|
    ensures Arrivals(s[i..]) != [] && Arrivals(s[i..])[0] == Process(s[i]) && Arrivals(s[i..])[1..] == Arrivals(s[i + 1..])
  {}

  lemma NothingSent(w: World, w': World)
    ensures Emission([], {}, {}, w, w')
  {
    assert Lists([][..0], {}, w'.active) && Lists([][0..], {}, CancelsOf(w.active, w'.revision));
  }

  lemma ListsLarger(s: seq<TrendEvent>, ids: set<string>, m: map<string, TrendEvent>, larger: map<string, TrendEvent>)
    requires Lists(s, ids, m) && forall id :: id in m ==> id in larger && larger[id] == m[id]
    ensures Lists(s, ids, larger)
  {}

  lemma Emits(a: seq<TrendEvent>, b: seq<TrendEvent>, pos: set<string>, neg: set<string>, w: World, w': World)
    requires Lists(a, pos, w'.active) && Lists(b, neg, CancelsOf(w.active, w'.revision))
    ensures Emission(a + b, pos, neg, w, w')
  {
    assert (a + b)[..|a|] == a && (a + b)[|a|..] == b;
  }

  // ---- Arrival order ----

  function AddAll(m: map<int, Event>, s: seq<Event>): map<int, Event>
    decreases |s|
  {
    if s == [] then m else AddAll(m[s[0].id := s[0]], s[1..])
  }

  lemma {:induction false} AddAllIs(m: map<int, Event>, s: seq<Event>, i: int)
    requires DistinctIds(s) && forall k :: 0 <= k < |s| ==> s[k].id !in m
    ensures var r := AddAll(m, s);
      i in r <==> i in m || exists e :: e in s && e.id == i
    ensures var r := AddAll(m, s);
      (i in m ==> r[i] == m[i]) && forall e :: e in s && e.id == i ==> i in r && r[i] == e
    decreases |s|
  {
    if s != [] {
      forall k | 0 <= k < |s[1..]| ensures s[1..][k].id !in m[s[0].id := s[0]] {}
      AddAllIs(m[s[0].id := s[0]], s[1..], i);
      assert forall e :: e in s <==> e == s[0] || e in s[1..];
    }
  }

  /** Fresh events in non-empty partitions make a calm run that files them all. */
  lemma {:induction false} ArrivalsCalm(queries: seq<QuerySpec>, opts: Options, w: World, s: seq<Event>)
    requires Filed(w.events) && DistinctIds(s)
    requires forall k :: 0 <= k < |s| ==> s[k].id !in w.events && s[k].partition != ""
    ensures CalmRun(queries, opts, w, Arrivals(s))
    ensures Run(queries, opts, w, Arrivals(s)).events == AddAll(w.events, s)
    decreases |s|
  {
    hide Apply, Arrivals;
    if s == [] {
      NoArrivals();
    } else {
      ArrivalsHead(s, 0);
      assert s[0..] == s;
      Arrives(queries, opts, w, s[0]);
      ArrivalsCalm(queries, opts, Apply(queries, opts, w, Process(s[0])), s[1..]);
    }
  }

  lemma NoArrivals()
    ensures Arrivals([]) == []
  {}

  lemma Arrives(queries: seq<QuerySpec>, opts: Options, w: World, e: Event)
    requires Filed(w.events)
    ensures Filed(w.events[e.id := e]) && Apply(queries, opts, w, Process(e)).events == w.events[e.id := e]
  {}

  /** Whatever order distinct events arrive in, sorted as in a replay or not, the same trends end up active. */
  lemma ArrivalOrderIrrelevant(queries: seq<QuerySpec>, opts: Options, a: seq<Event>, b: seq<Event>)
    requires DistinctIds(a) && DistinctIds(b) && Within(a, b) && Within(b, a)
    requires forall k :: 0 <= k < |a| ==> a[k].partition != ""
    ensures Run(queries, opts, Empty, Arrivals(a)).active.Keys == Run(queries, opts, Empty, Arrivals(b)).active.Keys
  {
    hide Run, Arrivals, AddAll, CalmRun;
    forall k | 0 <= k < |b| ensures b[k].partition != "" { assert b[k] in a; }
    ArrivalsCalm(queries, opts, Empty, a);
    ArrivalsCalm(queries, opts, Empty, b);
    var ma, mb := AddAll(map[], a), AddAll(map[], b);
    assert forall e :: e in a <==> e in b;
    forall i ensures i in ma <==> i in mb {
      AddAllIs(map[], a, i);
      AddAllIs(map[], b, i);
    }
    forall i | i in ma ensures ma[i] == mb[i] {
      AddAllIs(map[], a, i);
      AddAllIs(map[], b, i);
    }
    assert ma == mb;
    HistoryIndependent(queries, opts, Arrivals(a), Arrivals(b));
  }
}
