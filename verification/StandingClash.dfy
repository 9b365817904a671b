/** Two short runs in which an event moves to another partition.  It leaves its old trend active; and
    if one query's head is a proper prefix of another's, it can make the runtime announce a trend that
    is active already. */
module StandingClash {
  import opened Events
  import opened Links
  import opened Matcher
  import opened Text
  import opened StandingQueries
  import opened Trends
  import opened StandingGraph
  import opened StandingWorld
  import opened StandingConvergence
  import opened StandingChanges

  /** Any single A event is a match. */
  function AnyA(queryId: string, version: string): QuerySpec {
    QuerySpec(queryId, version, [PatternStep(["A"], 1, Some(1))], 0, true, [], [])
  }

  function EventIn(partition: string): Event { Event(1, partition, "A", 0, map[]) }

  lemma OneMatch(q: string, v: string, partition: string)
    ensures IsMatch(AnyA(q, v), [EventIn(partition)], [EventIn(partition)])
  {
    var e, steps := EventIn(partition), AnyA(q, v).steps;
    var none: seq<Event> := [];
    assert Splits(steps, 1, none);
    assert [e][..1] == [e] && [e][1..] == none;
    assert Splits(steps, 0, [e]);
  }

  function Enough(q: string, v: string, partition: string): nat {
    |Rec(AnyA(q, v).steps, 0, 0, Candidates(AnyA(q, v), [EventIn(partition)]), [])|
  }

  lemma Found(queries: seq<QuerySpec>, k: nat, q: string, v: string, partition: string, max: nat, revision: nat)
    requires k < |queries| && queries[k] == AnyA(q, v) && max >= Enough(q, v, partition)
    ensures Fingerprint(q, v, partition, [1]) in Current(queries, partition, [EventIn(partition)], max, revision)
  {
    hide Rec, IsMatch, QueryTrends;
    var s, e := [EventIn(partition)], EventIn(partition);
    var t := TrendOf(AnyA(q, v), partition, s, revision);
    assert Ids(s) == [1];
    OneMatch(q, v, partition);
    TrendsAreMatches(AnyA(q, v), partition, s, max, revision, t);
    assert IsTrend(queries, partition, s, max, revision, t);
    CurrentExact(queries, partition, s, max, revision, t.trendId);
  }

  lemma Alone(partition: string)
    ensures PartitionEvents(map[1 := EventIn(partition)], partition) == [EventIn(partition)]
  {
    var e := EventIn(partition);
    ListOfUnique(PartitionIds(map[1 := e], partition), map[1 := e], [e]);
  }

  /** After the event has arrived in a partition of a tidy state without others, its trend is current there. */
  lemma Announced(queries: seq<QuerySpec>, k: nat, q: string, v: string, partition: string, opts: Options, w: World)
    requires k < |queries| && queries[k] == AnyA(q, v) && opts.maxMatches >= Enough(q, v, partition) && opts.maxWindowEvents == 0
    requires Tidy(w) && w.events.Keys <= {1}
    ensures Fingerprint(q, v, partition, [1]) in CurrentAfter(queries, opts, w, Process(EventIn(partition)), partition)
  {
    var e, op := EventIn(partition), Process(EventIn(partition));
    StepTidy(queries, opts, w, op);
    SawPartition(queries, opts, w, op, partition);
    OnlyOne(w.events, e);
    Alone(partition);
    Found(queries, k, q, v, partition, opts.maxMatches, w.revision + 1);
    CurrentOfAll(queries, opts, [e], partition, w.revision + 1);
  }

  lemma OnlyOne(events: map<int, Event>, e: Event)
    requires events.Keys <= {e.id}
    ensures events[e.id := e] == map[e.id := e]
  {
    assert forall i :: i in events ==> i in events.Keys;
  }

  lemma CurrentOfAll(queries: seq<QuerySpec>, opts: Options, s: seq<Event>, p: string, revision: nat)
    requires opts.maxWindowEvents == 0
    ensures CurrentFor(queries, opts, s, p, revision) == Current(queries, p, s, opts.maxMatches, revision)
  {}

  /** For every pair of names with such heads there are queries of these names and a run in which a
      trend is announced twice without being cancelled. */
  lemma LedgerBreaks(q: string, v: string, q': string, v': string)
    returns (queries: seq<QuerySpec>, opts: Options, ops: seq<Op>, id: string)
    requires Head(q, v) < Head(q', v')
    ensures |queries| == 2 && queries[0].queryId == q && queries[0].version == v && queries[1].queryId == q' && queries[1].version == v'
    ensures opts.emitCancellations && History(queries, opts, Empty, ops, id) == [PositiveMatch, PositiveMatch]
    ensures !RunTakesNone(queries, opts, Empty, ops)
  {
    var x := Head(q', v')[|Head(q, v)|..];
    var p, p' := x + "p", "p";
    assert |p| > |p'|;
    queries := [AnyA(q, v), AnyA(q', v')];
    opts := Options(0, Enough(q, v, p) + Enough(q', v', p'), true);
    ops := [Process(EventIn(p)), Process(EventIn(p'))];
    id := Fingerprint(q, v, p, [1]);
    SharedBelow(q, v, q', v', "p", [1]);
    TwoAnnouncements(queries, opts, p, p', q, v, q', v', id);
  }

  lemma TwoAnnouncements(queries: seq<QuerySpec>, opts: Options, p: string, p': string,
                                            q: string, v: string, q': string, v': string, id: string)
    requires queries == [AnyA(q, v), AnyA(q', v')] && p != p'
    requires opts == Options(0, Enough(q, v, p) + Enough(q', v', p'), true)
    requires id == Fingerprint(q, v, p, [1]) == Fingerprint(q', v', p', [1])
    ensures var ops := [Process(EventIn(p)), Process(EventIn(p'))];
      History(queries, opts, Empty, ops, id) == [PositiveMatch, PositiveMatch] && !RunTakesNone(queries, opts, Empty, ops)
  {
    hide Enough, Fingerprint, Apply, Positives, Cancels, StepTakesNone, History, RunTakesNone;
    var a, b := Process(EventIn(p)), Process(EventIn(p'));
    FirstAnnounced(queries, opts, p, q, v, id);
    SecondAnnounced(queries, opts, Apply(queries, opts, Empty, a), p, p', q', v', id);
    TwoSteps(queries, opts, a, b, id);
  }

  lemma FirstAnnounced(queries: seq<QuerySpec>, opts: Options, p: string, q: string, v: string, id: string)
    requires |queries| > 0 && queries[0] == AnyA(q, v)
    requires opts.maxWindowEvents == 0 && opts.maxMatches >= Enough(q, v, p) && id == Fingerprint(q, v, p, [1])
    ensures var w, a := Apply(queries, opts, Empty, Process(EventIn(p))), Process(EventIn(p));
      && id in Positives(queries, opts, Empty, a) && id !in Cancels(queries, opts, Empty, a)
      && Tidy(w) && w.events == map[1 := EventIn(p)] && id in w.active && w.active[id].partition == p
  {
    hide CurrentFor, Upserting, Fingerprint, Enough, Consistent, Tidy, Listed;
    var a := Process(EventIn(p));
    NothingAtFirst(queries, opts);
    Announced(queries, 0, q, v, p, opts, Empty);
    StepTidy(queries, opts, Empty, a);
    CurrentSigned(queries, opts, Listed(EventsAfter(Empty, a), IndexAfter(Empty, a), p), p, 1);
    assert EventsAfter(Empty, a) == map[1 := EventIn(p)];
  }

  lemma SecondAnnounced(queries: seq<QuerySpec>, opts: Options, w: World, p: string, p': string, q: string, v: string, id: string)
    requires |queries| > 1 && queries[1] == AnyA(q, v) && p != p'
    requires opts.maxWindowEvents == 0 && opts.maxMatches >= Enough(q, v, p') && id == Fingerprint(q, v, p', [1])
    requires Tidy(w) && w.events == map[1 := EventIn(p)] && id in w.active && w.active[id].partition == p
    ensures var b := Process(EventIn(p'));
      id in Positives(queries, opts, w, b) && id !in Cancels(queries, opts, w, b) && !StepTakesNone(queries, opts, w, b)
  {
    hide CurrentFor, Upserting, Fingerprint, Enough, Tidy, Listed;
    Announced(queries, 1, q, v, p', opts, w);
  }

  lemma HistoryCons(queries: seq<QuerySpec>, opts: Options, w: World, op: Op, rest: seq<Op>, id: string)
    requires Filed(w.events) && Filed(Apply(queries, opts, w, op).events)
    ensures History(queries, opts, w, [op] + rest, id) ==
      (if id in Positives(queries, opts, w, op) then [PositiveMatch] else [])
      + (if id in Cancels(queries, opts, w, op) then [CancelMatch] else [])
      + History(queries, opts, Apply(queries, opts, w, op), rest, id)
    ensures RunTakesNone(queries, opts, w, [op] + rest) <==>
      StepTakesNone(queries, opts, w, op) && RunTakesNone(queries, opts, Apply(queries, opts, w, op), rest)
  {
    hide Apply, Positives, Cancels, StepTakesNone;
    assert ([op] + rest)[1..] == rest;
  }

  lemma TwoSteps(queries: seq<QuerySpec>, opts: Options, a: Op, b: Op, id: string)
    requires Filed(Apply(queries, opts, Empty, a).events)
    ensures var w := Apply(queries, opts, Empty, a);
      && (id in Positives(queries, opts, Empty, a) && id !in Cancels(queries, opts, Empty, a)
          && id in Positives(queries, opts, w, b) && id !in Cancels(queries, opts, w, b) ==>
            History(queries, opts, Empty, [a, b], id) == [PositiveMatch, PositiveMatch])
      && (!StepTakesNone(queries, opts, w, b) ==> !RunTakesNone(queries, opts, Empty, [a, b]))
  {
    hide Apply, Positives, Cancels, StepTakesNone, History, RunTakesNone;
    var w := Apply(queries, opts, Empty, a);
    assert [a, b] == [a] + [b] && [b] == [b] + [];
    HistoryCons(queries, opts, Empty, a, [b], id);
    StaysFiled(queries, opts, w, b);
    HistoryCons(queries, opts, w, b, [], id);
    NoHistory(queries, opts, Apply(queries, opts, w, b), id);
  }

  lemma StaysFiled(queries: seq<QuerySpec>, opts: Options, w: World, op: Op)
    requires Filed(w.events)
    ensures Filed(Apply(queries, opts, w, op).events)
  {}

  lemma NoHistory(queries: seq<QuerySpec>, opts: Options, w: World, id: string)
    requires Filed(w.events)
    ensures History(queries, opts, w, [], id) == []
  {}

  // ---- One query ----

  /** A query alone takes over no id. */
  lemma AloneApart(q: string, v: string)
    ensures HeadsApart([AnyA(q, v)])
  {}

  lemma RoomForOne(q: string, v: string, p: string, opts: Options)
    requires opts.maxWindowEvents == 0 && opts.maxMatches >= Enough(q, v, p)
    ensures Filed(map[1 := EventIn(p)]) && Room([AnyA(q, v)], opts, map[1 := EventIn(p)], p)
  {
    hide Rec, Candidates;
    Alone(p);
  }

  /** An A event arrives in p and moves to p': its trend stays active in p, where no event is left.
      No cap is reached and no id taken over, as AbandonedExactly asks. */
  lemma MovingLeavesStale(q: string, v: string, p: string, p': string) returns (opts: Options, w: World, op: Op, id: string)
    requires p != p'
    ensures opts.emitCancellations && w == Apply([AnyA(q, v)], opts, Empty, Process(EventIn(p))) && op == Process(EventIn(p'))
    ensures Filed(w.events) && Consistent([AnyA(q, v)], w.active) && StepTakesNone([AnyA(q, v)], opts, w, op)
    ensures Abandons(w, op, p, 1) && Exact([AnyA(q, v)], opts, w, p) && Room([AnyA(q, v)], opts, w.events, p)
    ensures var w' := Apply([AnyA(q, v)], opts, w, op);
      && id in w'.active && w'.active[id].partition == p && PartitionIds(w'.events, p) == {}
      && Filed(w'.events) && !Exact([AnyA(q, v)], opts, w', p)
  {
    hide Enough, Rec, Fingerprint, CurrentFor, Consistent, Room, StepTakesNone, TrendIds, Freed, Signed, HeadsApart, Tidy;
    var queries := [AnyA(q, v)];
    var a := Process(EventIn(p));
    opts, op, id := Options(0, Enough(q, v, p), true), Process(EventIn(p')), Fingerprint(q, v, p, [1]);
    w := Apply(queries, opts, Empty, a);
    NothingAtFirst(queries, opts);
    FirstAnnounced(queries, opts, p, q, v, id);
    StepConsistent(queries, opts, Empty, a);
    StepExact(queries, opts, Empty, a, p);
    RoomForOne(q, v, p, opts);
    AloneApart(q, v);
    ApartStep(queries, opts, w, op);
    StepExact(queries, opts, w, op, p);
    AbandonedExactly(queries, opts, w, op, p, 1);
    OwnPath(queries, w.active, q, v, p, id);
    assert id in ActiveIn(w.active, p) && id in ActiveIn(Apply(queries, opts, w, op).active, p);
  }

  lemma OwnPath(queries: seq<QuerySpec>, active: map<string, TrendEvent>, q: string, v: string, p: string, id: string)
    requires Consistent(queries, active) && id in active && id == Fingerprint(q, v, p, [1])
    ensures active[id].path == [1]
  {
    var t := active[id];
    SameIdSamePath(t.queryId, t.queryVersion, t.partition, t.path, q, v, p, [1]);
  }
}
