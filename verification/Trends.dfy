/** The trends a registry yields on the events of one partition, as values. */
module Trends {
  import opened Events
  import opened Matcher
  import opened Text
  import opened StandingQueries

  datatype Options = Options(maxWindowEvents: nat, maxMatches: nat, emitCancellations: bool)

  datatype Kind = PositiveMatch | CancelMatch
  datatype TrendEvent = TrendEvent(
    kind: Kind, trendId: string, queryId: string, queryVersion: string, partition: string, path: seq<int>, revision: nat)

  /** The latest events of a partition; a capacity of 0 keeps all, as Python's s[-0:] does. */
  function Window(s: seq<Event>, cap: nat): seq<Event> {
    if |s| > cap && cap > 0 then s[|s| - cap..] else s
  }

  /** The cap binds unless it is 0. */
  lemma WindowCapped(s: seq<Event>, cap: nat)
    ensures |Window(s, cap)| <= cap <==> cap > 0 || s == []
  {}

  /** kept holds the last cap events of s: what is left out comes before what is kept.  A cap of 0
      leaves nothing out. */
  ghost predicate IsLatest(s: seq<Event>, cap: nat, kept: seq<Event>) {
    && |kept| == (if 0 < cap < |s| then cap else |s|)
    && Ascending(kept) && (forall x :: x in kept ==> x in s)
    && forall e, x :: e in s && e !in kept && x in kept ==> Before(e, x)
  }

  lemma WindowLatest(s: seq<Event>, cap: nat)
    requires Ascending(s)
    ensures IsLatest(s, cap, Window(s, cap))
  {
    hide Before;
    var kept, n := Window(s, cap), |s| - |Window(s, cap)|;
    assert forall i :: n <= i < |s| ==> kept[i - n] == s[i];
    forall e, x | e in s && e !in kept && x in kept ensures Before(e, x) {
      var i :| 0 <= i < |s| && s[i] == e;
      var j :| 0 <= j < |kept| && kept[j] == x;
      assert s[n + j] == x;
    }
  }

  /** The latest events are determined by that. */
  lemma LatestUnique(s: seq<Event>, cap: nat, kept: seq<Event>)
    requires Ascending(s) && IsLatest(s, cap, kept)
    ensures kept == Window(s, cap)
  {
    var w := Window(s, cap);
    WindowLatest(s, cap);
    hide Window, Before;
    SameLatest(s, cap, kept, w);
    SameLatest(s, cap, w, kept);
    AscendingUnique(kept, w);
  }

  lemma SameLatest(s: seq<Event>, cap: nat, a: seq<Event>, b: seq<Event>)
    requires IsLatest(s, cap, a) && IsLatest(s, cap, b)
    ensures forall x :: x in a ==> x in b
  {
    hide Ascending;
    forall x | x in a ensures x in b {
      if x !in b {
        forall y | y in b ensures y in a { OneOfBoth(s, cap, a, b, x, y); }
        SublistExact(b, a);
        SublistFull(b, a);
      }
    }
  }

  lemma OneOfBoth(s: seq<Event>, cap: nat, a: seq<Event>, b: seq<Event>, x: Event, y: Event)
    requires IsLatest(s, cap, a) && IsLatest(s, cap, b) && x in a && x !in b && y in b
    ensures y in a
  {
    assert Before(x, y);
  }

  function TrendOf(q: QuerySpec, partition: string, p: seq<Event>, revision: nat): TrendEvent {
    TrendEvent(PositiveMatch, Fingerprint(q.queryId, q.version, partition, Ids(p)), q.queryId, q.version, partition, Ids(p), revision)
  }

  function Candidates(q: QuerySpec, events: seq<Event>): seq<Event> {
    if ReferencedTypes(q) == {} then events else Relevant(ReferencedTypes(q), events)
  }

  /** The paths the matcher hands over for validation. */
  function MatchedPaths(q: QuerySpec, events: seq<Event>, maxMatches: nat): seq<seq<Event>> {
    Clip(Rec(q.steps, q.withinMs, 0, Candidates(q, events), []), maxMatches)
  }

  /** The trends of those paths that pass validation. */
  ghost function Validated(q: QuerySpec, partition: string, candidates: seq<Event>, paths: seq<seq<Event>>, revision: nat): seq<TrendEvent> {
    if paths == [] then []
    else
      var p := paths[|paths| - 1];
      Validated(q, partition, candidates, paths[..|paths| - 1], revision)
      + if ValidPath(q, p, candidates) then [TrendOf(q, partition, p, revision)] else []
  }

  lemma ValidatedSnoc(q: QuerySpec, partition: string, candidates: seq<Event>, paths: seq<seq<Event>>, p: seq<Event>, revision: nat)
    ensures Validated(q, partition, candidates, paths + [p], revision) ==
      Validated(q, partition, candidates, paths, revision) + if ValidPath(q, p, candidates) then [TrendOf(q, partition, p, revision)] else []
  {
    assert (paths + [p])[..|paths|] == paths;
  }

  ghost function QueryTrends(q: QuerySpec, partition: string, events: seq<Event>, maxMatches: nat, revision: nat): seq<TrendEvent> {
    Validated(q, partition, Candidates(q, events), MatchedPaths(q, events, maxMatches), revision)
  }

  method EvaluateQueryPartition(q: QuerySpec, partition: string, events: seq<Event>, maxMatches: nat, revision: nat)
    returns (out: seq<TrendEvent>)
    requires Ascending(events)
    ensures out == QueryTrends(q, partition, events, maxMatches, revision)
  {
    var candidates := if ReferencedTypes(q) == {} then events else Relevant(ReferencedTypes(q), events);
    RelevantAscending(ReferencedTypes(q), events);
    SortFixes(candidates);
    var paths := MatchQueryPaths(q.steps, q.withinMs, candidates, maxMatches);
    out := ValidateAll(q, partition, candidates, paths, revision);
  }

  method ValidateAll(q: QuerySpec, partition: string, candidates: seq<Event>, paths: seq<seq<Event>>, revision: nat)
    returns (out: seq<TrendEvent>)
    ensures out == Validated(q, partition, candidates, paths, revision)
  {
    out := [];
    for i := 0 to |paths|
      invariant out == Validated(q, partition, candidates, paths[..i], revision)
    {
      ValidatedSnoc(q, partition, candidates, paths[..i], paths[i], revision);
      assert paths[..i + 1] == paths[..i] + [paths[i]];
      var ok := ValidatePath(q, paths[i], candidates);
      if ok { out := out + [TrendOf(q, partition, paths[i], revision)]; }
    }
    assert paths[..|paths|] == paths;
  }

  lemma {:induction false} ValidatedMembers(q: QuerySpec, partition: string, candidates: seq<Event>, paths: seq<seq<Event>>, revision: nat, t: TrendEvent)
    ensures t in Validated(q, partition, candidates, paths, revision) <==>
      exists p :: p in paths && ValidPath(q, p, candidates) && t == TrendOf(q, partition, p, revision)
  {
    if paths != [] {
      ValidatedMembers(q, partition, candidates, paths[..|paths| - 1], revision, t);
      assert paths == paths[..|paths| - 1] + [paths[|paths| - 1]];
    }
  }

  // ---- The dictionary of current trends ----

  function AddTrends(m: map<string, TrendEvent>, ts: seq<TrendEvent>): map<string, TrendEvent>
    decreases |ts|
  {
    if ts == [] then m else AddTrends(m[ts[0].trendId := ts[0]], ts[1..])
  }

  /** Later trends replace earlier ones of the same id. */
  ghost function Current(queries: seq<QuerySpec>, partition: string, events: seq<Event>, maxMatches: nat, revision: nat): map<string, TrendEvent> {
    if queries == [] then map[]
    else
      var q := queries[|queries| - 1];
      var m := Current(queries[..|queries| - 1], partition, events, maxMatches, revision);
      if q.enabled then AddTrends(m, QueryTrends(q, partition, events, maxMatches, revision)) else m
  }

  /** A later trend replaces an earlier one of the same id. */
  lemma {:induction false} AddTrendsExact(m: map<string, TrendEvent>, ts: seq<TrendEvent>, id: string)
    ensures id in AddTrends(m, ts) <==> id in m || exists t :: t in ts && t.trendId == id
    ensures if exists t :: t in ts && t.trendId == id
      then AddTrends(m, ts)[id] in ts && AddTrends(m, ts)[id].trendId == id
      else id in m ==> AddTrends(m, ts)[id] == m[id]
    decreases |ts|
  {
    if ts != [] {
      AddTrendsExact(m[ts[0].trendId := ts[0]], ts[1..], id);
      assert forall t :: t in ts <==> t == ts[0] || t in ts[1..];
    }
  }

  /** t is a validated match of an enabled query. */
  ghost predicate IsTrend(queries: seq<QuerySpec>, partition: string, events: seq<Event>, maxMatches: nat, revision: nat, t: TrendEvent) {
    exists k :: 0 <= k < |queries| && queries[k].enabled && t in QueryTrends(queries[k], partition, events, maxMatches, revision)
  }

  /** The dictionary holds, under their ids, exactly the trends of the enabled queries. */
  lemma {:induction false} CurrentExact(queries: seq<QuerySpec>, partition: string, events: seq<Event>, maxMatches: nat, revision: nat, id: string)
    ensures var m := Current(queries, partition, events, maxMatches, revision);
      && (id in m <==> exists t: TrendEvent :: t.trendId == id && IsTrend(queries, partition, events, maxMatches, revision, t))
      && (id in m ==> m[id].trendId == id && IsTrend(queries, partition, events, maxMatches, revision, m[id]))
  {
    if queries != [] {
      var n := |queries| - 1;
      var q, qs := queries[n], queries[..n];
      CurrentExact(qs, partition, events, maxMatches, revision, id);
      AddTrendsExact(Current(qs, partition, events, maxMatches, revision), QueryTrends(q, partition, events, maxMatches, revision), id);
      var m := Current(queries, partition, events, maxMatches, revision);
      if id in m { IsTrendLast(queries, partition, events, maxMatches, revision, m[id]); }
      forall t: TrendEvent | t.trendId == id
        ensures IsTrend(queries, partition, events, maxMatches, revision, t) <==>
          IsTrend(qs, partition, events, maxMatches, revision, t)
          || (q.enabled && t in QueryTrends(q, partition, events, maxMatches, revision))
      {
        IsTrendLast(queries, partition, events, maxMatches, revision, t);
      }
    }
  }

  /** Where queries share an id, the trend kept is that of the last of them. */
  lemma {:induction false} LastQueryKept(queries: seq<QuerySpec>, partition: string, events: seq<Event>, maxMatches: nat, revision: nat, id: string)
    returns (k: nat)
    requires id in Current(queries, partition, events, maxMatches, revision)
    ensures k < |queries| && queries[k].enabled
    ensures Current(queries, partition, events, maxMatches, revision)[id] in QueryTrends(queries[k], partition, events, maxMatches, revision)
    ensures forall j, t: TrendEvent :: k < j < |queries| && queries[j].enabled && t in QueryTrends(queries[j], partition, events, maxMatches, revision) ==>
      t.trendId != id
  {
    hide QueryTrends, AddTrends;
    var n := |queries| - 1;
    var q, qs := queries[n], queries[..n];
    var trends := QueryTrends(q, partition, events, maxMatches, revision);
    AddTrendsExact(Current(qs, partition, events, maxMatches, revision), trends, id);
    if q.enabled && exists t: TrendEvent :: t in trends && t.trendId == id {
      k := n;
    } else {
      k := LastQueryKept(qs, partition, events, maxMatches, revision, id);
      assert queries[k] == qs[k];
      forall j, t: TrendEvent | k < j < |queries| && queries[j].enabled && t in QueryTrends(queries[j], partition, events, maxMatches, revision)
        ensures t.trendId != id
      {
        if j < n { assert queries[j] == qs[j]; }
      }
    }
  }

  lemma IsTrendLast(queries: seq<QuerySpec>, partition: string, events: seq<Event>, maxMatches: nat, revision: nat, t: TrendEvent)
    requires queries != []
    ensures var n := |queries| - 1;
      IsTrend(queries, partition, events, maxMatches, revision, t) <==>
        IsTrend(queries[..n], partition, events, maxMatches, revision, t)
        || (queries[n].enabled && t in QueryTrends(queries[n], partition, events, maxMatches, revision))
  {
    hide QueryTrends;
    var n := |queries| - 1;
    var qs := queries[..n];
    if IsTrend(qs, partition, events, maxMatches, revision, t) {
      var k :| 0 <= k < n && qs[k].enabled && t in QueryTrends(qs[k], partition, events, maxMatches, revision);
      assert queries[k] == qs[k];
    }
    if IsTrend(queries, partition, events, maxMatches, revision, t) {
      var k :| 0 <= k < |queries| && queries[k].enabled && t in QueryTrends(queries[k], partition, events, maxMatches, revision);
      if k < n { assert qs[k] == queries[k]; }
    }
  }

  // ---- The ids, declaratively ----

  /** p is a match of q that passes validation. */
  ghost predicate IsMatch(q: QuerySpec, events: seq<Event>, p: seq<Event>) {
    ValidMatch(q.steps, q.withinMs, events, p) && ValidPath(q, p, events)
  }

  /** The matcher is not cut short on these events. */
  predicate Uncapped(q: QuerySpec, events: seq<Event>, maxMatches: nat) {
    |Rec(q.steps, q.withinMs, 0, Candidates(q, events), [])| <= maxMatches
  }

  lemma CandidatesEnough(q: QuerySpec, events: seq<Event>, p: seq<Event>)
    requires Ascending(events)
    ensures Ascending(Candidates(q, events))
    ensures Rec(q.steps, q.withinMs, 0, Candidates(q, events), []) == Rec(q.steps, q.withinMs, 0, events, [])
    ensures ValidPath(q, p, Candidates(q, events)) <==> ValidPath(q, p, events)
  {
    RelevantEnough(q, events, p);
    RelevantAscending(ReferencedTypes(q), events);
  }

  /** Trends are matches; and when the matcher is not cut short, every match is a trend. */
  lemma TrendsAreMatches(q: QuerySpec, partition: string, events: seq<Event>, maxMatches: nat, revision: nat, t: TrendEvent)
    requires Ascending(events)
    ensures t in QueryTrends(q, partition, events, maxMatches, revision) ==>
      exists p :: IsMatch(q, events, p) && t == TrendOf(q, partition, p, revision)
    ensures Uncapped(q, events, maxMatches) ==>
      (t in QueryTrends(q, partition, events, maxMatches, revision) <==> exists p :: IsMatch(q, events, p) && t == TrendOf(q, partition, p, revision))
  {
    var all := Rec(q.steps, q.withinMs, 0, Candidates(q, events), []);
    var paths := MatchedPaths(q, events, maxMatches);
    ValidatedMembers(q, partition, Candidates(q, events), paths, revision, t);
    if t in QueryTrends(q, partition, events, maxMatches, revision) {
      var p :| p in paths && ValidPath(q, p, Candidates(q, events)) && t == TrendOf(q, partition, p, revision);
      assert p in all;
      CandidatesEnough(q, events, p);
      EnumerationExact(q.steps, q.withinMs, events, p);
    }
    if Uncapped(q, events, maxMatches) && exists p :: IsMatch(q, events, p) && t == TrendOf(q, partition, p, revision) {
      var p :| IsMatch(q, events, p) && t == TrendOf(q, partition, p, revision);
      CandidatesEnough(q, events, p);
      EnumerationExact(q.steps, q.withinMs, events, p);
    }
  }
}
