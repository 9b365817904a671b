/** The standing runtime as a state machine on values: live events and active trends. */
module StandingWorld {
  import opened Events
  import opened Links
  import opened Matcher
  import opened Text
  import opened StandingQueries
  import opened Trends
  import opened StandingGraph

  datatype World = World(events: map<int, Event>, byPartition: map<string, set<int>>, active: map<string, TrendEvent>, revision: nat)

  datatype Op = Process(e: Event) | Remove(id: int)

  const Empty := World(map[], map[], map[], 0)

  /** Every live event is filed under its partition key, and nothing else is filed. */
  ghost predicate Tidy(w: World) {
    Filed(w.events) && Indexed(w.events, w.byPartition) && Clean(w.events, w.byPartition)
  }

  /** The trends of the latest events of a partition's list. */
  ghost function CurrentFor(queries: seq<QuerySpec>, opts: Options, s: seq<Event>, p: string, revision: nat): map<string, TrendEvent> {
    Current(queries, p, Window(s, opts.maxWindowEvents), opts.maxMatches, revision)
  }

  /** The live events filed under the key, in order. */
  ghost function Listed(events: map<int, Event>, byPartition: map<string, set<int>>, p: string): seq<Event>
    requires Filed(events)
  {
    ListOf(Members(events, byPartition, p), events)
  }

  lemma WindowAscends(s: seq<Event>, cap: nat)
    requires Ascending(s)
    ensures Ascending(Window(s, cap)) && Within(Window(s, cap), s)
  {
    SuffixAscends(s, |s| - |Window(s, cap)|);
    assert s[0..] == s;
  }

  lemma SuffixAscends(s: seq<Event>, n: nat)
    requires Ascending(s) && n <= |s|
    ensures Ascending(s[n..]) && Within(s[n..], s)
  {
    assert forall i :: 0 <= i < |s[n..]| ==> s[n..][i] == s[i + n];
  }

  function ActiveIn(active: map<string, TrendEvent>, p: string): set<string> {
    set t | t in active && active[t].partition == p
  }

  /** The partition's active trends are replaced by the current ones. */
  function Replaced(active: map<string, TrendEvent>, p: string, current: map<string, TrendEvent>): map<string, TrendEvent> {
    (map t | t in active && active[t].partition != p :: active[t]) + current
  }

  /** The partition an operation reevaluates; removals from the empty key are not followed up. */
  function Touched(w: World, op: Op): Option<string> {
    match op
    case Process(e) => Some(e.partition)
    case Remove(id) => if id in w.events && w.events[id].partition != "" then Some(w.events[id].partition) else None
  }

  function EventsAfter(w: World, op: Op): map<int, Event> {
    match op
    case Process(e) => w.events[e.id := e]
    case Remove(id) => w.events - {id}
  }

  function IndexAfter(w: World, op: Op): map<string, set<int>> {
    match op
    case Process(e) => Upserting(w.events, w.byPartition, e)
    case Remove(id) => Removing(w.events, w.byPartition, id)
  }

  /** The partition's trends once the operation has changed the graph. */
  ghost function CurrentAfter(queries: seq<QuerySpec>, opts: Options, w: World, op: Op, p: string): map<string, TrendEvent>
    requires Filed(w.events)
  {
    CurrentFor(queries, opts, Listed(EventsAfter(w, op), IndexAfter(w, op), p), p, w.revision + 1)
  }

  ghost function Apply(queries: seq<QuerySpec>, opts: Options, w: World, op: Op): World
    requires Filed(w.events)
  {
    var p := Touched(w, op);
    World(EventsAfter(w, op), IndexAfter(w, op),
          if p.None? then w.active else Replaced(w.active, p.value, CurrentAfter(queries, opts, w, op, p.value)),
          w.revision + 1)
  }

  ghost function Positives(queries: seq<QuerySpec>, opts: Options, w: World, op: Op): set<string>
    requires Filed(w.events)
  {
    var p := Touched(w, op);
    if p.None? then {}
    else CurrentAfter(queries, opts, w, op, p.value).Keys - ActiveIn(w.active, p.value)
  }

  ghost function Cancels(queries: seq<QuerySpec>, opts: Options, w: World, op: Op): set<string>
    requires Filed(w.events)
  {
    var p := Touched(w, op);
    if p.None? || !opts.emitCancellations then {}
    else ActiveIn(w.active, p.value) - CurrentAfter(queries, opts, w, op, p.value).Keys
  }

  // ---- What the active trends are filed under ----

  /** The trend's id is made from its query, partition and path. */
  predicate Signed(t: TrendEvent) {
    t.trendId == Fingerprint(t.queryId, t.queryVersion, t.partition, t.path)
  }

  /** Some enabled query has the trend's name and version. */
  ghost predicate Registered(queries: seq<QuerySpec>, t: TrendEvent) {
    exists k :: 0 <= k < |queries| && queries[k].enabled && queries[k].queryId == t.queryId && queries[k].version == t.queryVersion
  }

  ghost predicate Consistent(queries: seq<QuerySpec>, active: map<string, TrendEvent>) {
    forall id :: id in active ==> active[id].trendId == id && Signed(active[id]) && Registered(queries, active[id])
  }

  /** Trends are filed under their own ids, as they were announced. */
  predicate Keyed(active: map<string, TrendEvent>) {
    forall id :: id in active ==> active[id].trendId == id && active[id].kind == PositiveMatch
  }

  lemma CurrentKeyed(queries: seq<QuerySpec>, opts: Options, s: seq<Event>, p: string, revision: nat)
    ensures Keyed(CurrentFor(queries, opts, s, p, revision))
  {
    hide IsTrend, Current;
    var m := CurrentFor(queries, opts, s, p, revision);
    var seen := Window(s, opts.maxWindowEvents);
    forall id | id in m ensures m[id].trendId == id && m[id].kind == PositiveMatch {
      CurrentExact(queries, p, seen, opts.maxMatches, revision, id);
      TrendSigned(queries, p, seen, opts.maxMatches, revision, m[id]);
    }
  }

  lemma ApplyKeyed(queries: seq<QuerySpec>, opts: Options, w: World, op: Op)
    requires Filed(w.events) && Keyed(w.active)
    ensures Filed(Apply(queries, opts, w, op).events) && Keyed(Apply(queries, opts, w, op).active)
  {
    hide CurrentFor, Listed, Upserting, Removing;
    var p := Touched(w, op);
    if p.Some? {
      CurrentKeyed(queries, opts, Listed(EventsAfter(w, op), IndexAfter(w, op), p.value), p.value, w.revision + 1);
    }
  }

  lemma TrendSigned(queries: seq<QuerySpec>, p: string, events: seq<Event>, max: nat, revision: nat, t: TrendEvent)
    requires IsTrend(queries, p, events, max, revision, t)
    ensures Signed(t) && Registered(queries, t) && t.partition == p && t.kind == PositiveMatch && t.revision == revision
  {
    var k :| 0 <= k < |queries| && queries[k].enabled && t in QueryTrends(queries[k], p, events, max, revision);
    ValidatedMembers(queries[k], p, Candidates(queries[k], events), MatchedPaths(queries[k], events, max), revision, t);
  }

  lemma CurrentSigned(queries: seq<QuerySpec>, opts: Options, s: seq<Event>, p: string, revision: nat)
    ensures var m := CurrentFor(queries, opts, s, p, revision);
      Consistent(queries, m) && forall id :: id in m ==> m[id].partition == p
  {
    var m, seen := CurrentFor(queries, opts, s, p, revision), Window(s, opts.maxWindowEvents);
    forall id | id in m ensures m[id].trendId == id && Signed(m[id]) && Registered(queries, m[id]) && m[id].partition == p {
      CurrentExact(queries, p, seen, opts.maxMatches, revision, id);
      TrendSigned(queries, p, seen, opts.maxMatches, revision, m[id]);
    }
  }

  /** No current trend of the partition has the id of an active trend of another one. */
  ghost predicate TakesNone(active: map<string, TrendEvent>, p: string, current: map<string, TrendEvent>) {
    forall id :: id in current && id in active ==> active[id].partition == p
  }

  lemma ReplacedConsistent(queries: seq<QuerySpec>, active: map<string, TrendEvent>, p: string, current: map<string, TrendEvent>)
    requires Consistent(queries, active) && Consistent(queries, current)
    ensures Consistent(queries, Replaced(active, p, current))
  {
    hide Registered, Signed;
  }

  /** Reevaluating a partition changes its active ids to the current ones.  Those of the others stay if
      no id is taken over. */
  lemma ReplacedExact(active: map<string, TrendEvent>, p: string, current: map<string, TrendEvent>)
    requires forall id :: id in current ==> current[id].partition == p
    ensures ActiveIn(Replaced(active, p, current), p) == current.Keys
    ensures TakesNone(active, p, current) ==> forall p' :: p' != p ==> ActiveIn(Replaced(active, p, current), p') == ActiveIn(active, p')
  {
    var r := Replaced(active, p, current);
    assert ActiveIn(r, p) == current.Keys;
    if TakesNone(active, p, current) {
      forall p' | p' != p ensures ActiveIn(r, p') == ActiveIn(active, p') {
        forall id ensures id in ActiveIn(r, p') <==> id in ActiveIn(active, p') {}
      }
    }
  }

  // ---- The ledger ----

  lemma ReplacedKeys(active: map<string, TrendEvent>, p: string, current: map<string, TrendEvent>)
    ensures var pos, neg := current.Keys - ActiveIn(active, p), ActiveIn(active, p) - current.Keys;
      && neg <= active.Keys && Replaced(active, p, current).Keys == active.Keys + pos - neg
      && (pos !! active.Keys <==> TakesNone(active, p, current))
  {
    var r := Replaced(active, p, current);
    forall id ensures id in r <==> id in active.Keys + (current.Keys - ActiveIn(active, p)) - (ActiveIn(active, p) - current.Keys) {}
  }

  /** The operation's reevaluation takes over no id of another partition. */
  ghost predicate StepTakesNone(queries: seq<QuerySpec>, opts: Options, w: World, op: Op)
    requires Filed(w.events)
  {
    var p := Touched(w, op);
    p.Some? ==> TakesNone(w.active, p.value, CurrentAfter(queries, opts, w, op, p.value))
  }

  /** One operation: cancels were active, the active ids are what the emitted events make of them, and
      positives were inactive exactly when no id was taken over. */
  lemma LedgerStep(queries: seq<QuerySpec>, opts: Options, w: World, op: Op)
    requires Filed(w.events) && opts.emitCancellations
    ensures var w', pos, neg := Apply(queries, opts, w, op), Positives(queries, opts, w, op), Cancels(queries, opts, w, op);
      && Filed(w'.events)
      && neg <= w.active.Keys && w'.active.Keys == w.active.Keys + pos - neg
      && (pos !! w.active.Keys <==> StepTakesNone(queries, opts, w, op))
  {
    hide CurrentFor, Replaced, ActiveIn, TakesNone;
    var p := Touched(w, op);
    if p.Some? { ReplacedKeys(w.active, p.value, CurrentAfter(queries, opts, w, op, p.value)); }
  }

  ghost function Run(queries: seq<QuerySpec>, opts: Options, w: World, ops: seq<Op>): World
    requires Filed(w.events)
    decreases |ops|
  {
    if ops == [] then w else Run(queries, opts, Apply(queries, opts, w, ops[0]), ops[1..])
  }

  /** The kinds of the events emitted for one trend id over a run. */
  ghost function History(queries: seq<QuerySpec>, opts: Options, w: World, ops: seq<Op>, id: string): seq<Kind>
    requires Filed(w.events)
    decreases |ops|
  {
    if ops == [] then []
    else
      (if id in Positives(queries, opts, w, ops[0]) then [PositiveMatch] else [])
      + (if id in Cancels(queries, opts, w, ops[0]) then [CancelMatch] else [])
      + History(queries, opts, Apply(queries, opts, w, ops[0]), ops[1..], id)
  }

  /** Adding on a positive and dropping on a cancel. */
  ghost function Folded(queries: seq<QuerySpec>, opts: Options, w: World, ops: seq<Op>, ids: set<string>): set<string>
    requires Filed(w.events)
    decreases |ops|
  {
    if ops == [] then ids
    else Folded(queries, opts, Apply(queries, opts, w, ops[0]), ops[1..],
                ids + Positives(queries, opts, w, ops[0]) - Cancels(queries, opts, w, ops[0]))
  }

  /** Folding the emitted stream always gives the active ids, whatever the queries are called and even
      when events move between partitions. */
  lemma {:induction false} FoldGivesActive(queries: seq<QuerySpec>, opts: Options, w: World, ops: seq<Op>)
    requires Filed(w.events) && opts.emitCancellations
    ensures Folded(queries, opts, w, ops, w.active.Keys) == Run(queries, opts, w, ops).active.Keys
    decreases |ops|
  {
    if ops != [] {
      LedgerStep(queries, opts, w, ops[0]);
      FoldGivesActive(queries, opts, Apply(queries, opts, w, ops[0]), ops[1..]);
    }
  }

  predicate Alternating(h: seq<Kind>, first: Kind) {
    forall i :: 0 <= i < |h| ==> (h[i] == first <==> i % 2 == 0)
  }

  function Opposite(k: Kind): Kind { if k == PositiveMatch then CancelMatch else PositiveMatch }

  lemma AlternatingCons(k: Kind, h: seq<Kind>)
    requires Alternating(h, Opposite(k))
    ensures Alternating([k] + h, k)
  {
    var s := [k] + h;
    forall i | 0 <= i < |s| ensures s[i] == k <==> i % 2 == 0 {
      if i > 0 { assert s[i] == h[i - 1]; }
    }
  }

  lemma AlternatingStep(pos: bool, neg: bool, was: bool, is_: bool, rest: seq<Kind>)
    requires (pos ==> !was) && (neg ==> was) && is_ == ((was || pos) && !neg)
    requires Alternating(rest, Next(is_))
    ensures var h := (if pos then [PositiveMatch] else []) + (if neg then [CancelMatch] else []) + rest;
      && Alternating(h, Next(was))
      && |h| % 2 == if was == is_ then |rest| % 2 else (|rest| + 1) % 2
  {
    if pos {
      AlternatingCons(PositiveMatch, rest);
      assert [PositiveMatch] + [] + rest == [PositiveMatch] + rest;
    } else if neg {
      AlternatingCons(CancelMatch, rest);
      assert [] + [CancelMatch] + rest == [CancelMatch] + rest;
    } else {
      assert [] + [] + rest == rest;
    }
  }

  /** No reevaluation of the run takes over an id of another partition. */
  ghost predicate RunTakesNone(queries: seq<QuerySpec>, opts: Options, w: World, ops: seq<Op>)
    requires Filed(w.events)
    decreases |ops|
  {
    ops == [] || (StepTakesNone(queries, opts, w, ops[0]) && RunTakesNone(queries, opts, Apply(queries, opts, w, ops[0]), ops[1..]))
  }

  function Next(active: bool): Kind { if active then CancelMatch else PositiveMatch }

  /** From any state, a trend's events alternate, an inactive trend's starting with a positive and an
      active one's with a cancel; and how many there were tells whether it is active now. */
  lemma {:induction false} TrendsAlternate(queries: seq<QuerySpec>, opts: Options, w: World, ops: seq<Op>, id: string)
    requires Filed(w.events) && opts.emitCancellations && RunTakesNone(queries, opts, w, ops)
    ensures var h := History(queries, opts, w, ops, id);
      && Alternating(h, Next(id in w.active))
      && (id in Run(queries, opts, w, ops).active <==> (id in w.active <==> |h| % 2 == 0))
    decreases |ops|
  {
    hide Alternating, Apply, Positives, Cancels, StepTakesNone;
    if ops != [] {
      var w' := Apply(queries, opts, w, ops[0]);
      LedgerStep(queries, opts, w, ops[0]);
      TrendsAlternate(queries, opts, w', ops[1..], id);
      AlternatingStep(id in Positives(queries, opts, w, ops[0]), id in Cancels(queries, opts, w, ops[0]),
                      id in w.active, id in w'.active, History(queries, opts, w', ops[1..], id));
    } else {
      NothingAlternates(Next(id in w.active));
    }
  }

  /** Conversely, if every trend's events alternate then no id was taken over. */
  lemma {:induction false} AlternationNeeds(queries: seq<QuerySpec>, opts: Options, w: World, ops: seq<Op>)
    requires Filed(w.events) && opts.emitCancellations
    requires forall id :: Alternating(History(queries, opts, w, ops, id), Next(id in w.active))
    ensures RunTakesNone(queries, opts, w, ops)
    decreases |ops|
  {
    hide Apply, Positives, Cancels, StepTakesNone, Alternating;
    if ops != [] {
      var w' := Apply(queries, opts, w, ops[0]);
      var pos, neg := Positives(queries, opts, w, ops[0]), Cancels(queries, opts, w, ops[0]);
      LedgerStep(queries, opts, w, ops[0]);
      forall id ensures (id in pos ==> id !in w.active) && Alternating(History(queries, opts, w', ops[1..], id), Next(id in w'.active)) {
        assert Alternating(History(queries, opts, w, ops, id), Next(id in w.active));
        AlternatingRest(id in pos, id in neg, id in w.active, History(queries, opts, w', ops[1..], id));
      }
      AlternationNeeds(queries, opts, w', ops[1..]);
    }
  }

  lemma AlternatingRest(pos: bool, neg: bool, was: bool, rest: seq<Kind>)
    requires (neg ==> was) && !(pos && neg && !was)
    requires Alternating((if pos then [PositiveMatch] else []) + (if neg then [CancelMatch] else []) + rest, Next(was))
    ensures pos ==> !was
    ensures Alternating(rest, Next((was || pos) && !neg))
  {
    var h := (if pos then [PositiveMatch] else []) + (if neg then [CancelMatch] else []) + rest;
    if pos { assert h[0] == PositiveMatch; } else if neg { assert h[0] == CancelMatch; }
    var d := |h| - |rest|;
    forall i | 0 <= i < |rest| ensures rest[i] == Next((was || pos) && !neg) <==> i % 2 == 0 { assert h[i + d] == rest[i]; }
  }

  lemma NothingAlternates(k: Kind)
    ensures Alternating([], k)
  {}

  // ---- When no id can be taken over ----

  /** No enabled query's head is a proper prefix of another's: the exact condition for trends of
      different partitions never to share an id. */
  ghost predicate HeadsApart(queries: seq<QuerySpec>) {
    forall j, k :: 0 <= j < |queries| && 0 <= k < |queries| && queries[j].enabled && queries[k].enabled ==>
      !(Head(queries[j].queryId, queries[j].version) < Head(queries[k].queryId, queries[k].version))
  }

  lemma SameIdSamePartition(queries: seq<QuerySpec>, a: TrendEvent, b: TrendEvent)
    requires HeadsApart(queries) && Registered(queries, a) && Registered(queries, b)
    requires Signed(a) && Signed(b) && a.trendId == b.trendId
    ensures a.partition == b.partition && a.path == b.path
  {
    SameIdSamePath(a.queryId, a.queryVersion, a.partition, a.path, b.queryId, b.queryVersion, b.partition, b.path);
  }

  lemma ApartTakesNone(queries: seq<QuerySpec>, active: map<string, TrendEvent>, p: string, current: map<string, TrendEvent>)
    requires HeadsApart(queries) && Consistent(queries, active) && Consistent(queries, current)
    requires forall id :: id in current ==> current[id].partition == p
    ensures TakesNone(active, p, current)
  {
    hide HeadsApart, Registered, Signed;
    forall id | id in current && id in active ensures active[id].partition == p {
      SameIdSamePartition(queries, active[id], current[id]);
    }
  }

  lemma ApartStep(queries: seq<QuerySpec>, opts: Options, w: World, op: Op)
    requires Filed(w.events) && HeadsApart(queries) && Consistent(queries, w.active)
    ensures StepTakesNone(queries, opts, w, op)
  {
    hide CurrentFor, HeadsApart, Consistent, TakesNone;
    var p := Touched(w, op);
    if p.Some? {
      CurrentSigned(queries, opts, Listed(EventsAfter(w, op), IndexAfter(w, op), p.value), p.value, w.revision + 1);
      ApartTakesNone(queries, w.active, p.value, CurrentAfter(queries, opts, w, op, p.value));
    }
  }

  /** With such heads no run takes over an id, even when events move between partitions. */
  lemma {:induction false} ApartRun(queries: seq<QuerySpec>, opts: Options, w: World, ops: seq<Op>)
    requires Filed(w.events) && HeadsApart(queries) && Consistent(queries, w.active)
    ensures RunTakesNone(queries, opts, w, ops)
    decreases |ops|
  {
    if ops != [] {
      ApartStep(queries, opts, w, ops[0]);
      StepConsistent(queries, opts, w, ops[0]);
      ApartRun(queries, opts, Apply(queries, opts, w, ops[0]), ops[1..]);
    }
  }

  lemma StepConsistent(queries: seq<QuerySpec>, opts: Options, w: World, op: Op)
    requires Filed(w.events) && Consistent(queries, w.active)
    ensures Filed(Apply(queries, opts, w, op).events) && Consistent(queries, Apply(queries, opts, w, op).active)
  {
    hide CurrentFor, Consistent, Replaced;
    var p := Touched(w, op);
    if p.Some? {
      CurrentSigned(queries, opts, Listed(EventsAfter(w, op), IndexAfter(w, op), p.value), p.value, w.revision + 1);
      ReplacedConsistent(queries, w.active, p.value, CurrentAfter(queries, opts, w, op, p.value));
    }
  }
}
