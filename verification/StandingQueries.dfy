/** Registered queries: which events they refer to, how a matched path is validated, and the trends
    a query yields on one partition. */
module StandingQueries {
  import opened Events
  import opened Matcher

  datatype AbsenceSpec = AbsenceSpec(eventType: string, withinMs: Option<int>, accepts: Event -> bool)
  datatype RelationOp = Same | Different
  datatype RelationConstraint = RelationConstraint(field: string, steps: seq<int>, op: RelationOp)
  datatype QuerySpec = QuerySpec(
    queryId: string, version: string, steps: seq<PatternStep>, withinMs: int, enabled: bool,
    absence: seq<AbsenceSpec>, relations: seq<RelationConstraint>)

  function AliasTypes(steps: seq<PatternStep>): set<string> {
    set k, a | 0 <= k < |steps| && a in steps[k].aliases :: a
  }

  function AbsenceTypes(absence: seq<AbsenceSpec>): set<string> {
    set k | 0 <= k < |absence| :: absence[k].eventType
  }

  function ReferencedTypes(q: QuerySpec): set<string> {
    AliasTypes(q.steps) + AbsenceTypes(q.absence)
  }

  // ---- Validation ----

  function EarliestTime(p: seq<Event>): (t: int)
    requires p != []
    ensures (exists i :: 0 <= i < |p| && p[i].time == t) && forall i :: 0 <= i < |p| ==> t <= p[i].time
  {
    if |p| == 1 then p[0].time
    else
      assert p[1..][|p| - 2] == p[|p| - 1];
      var r := EarliestTime(p[1..]);
      assert forall i :: 1 <= i < |p| ==> p[i] == p[1..][i - 1];
      if p[0].time <= r then p[0].time else r
  }

  function LatestTime(p: seq<Event>): (t: int)
    requires p != []
    ensures (exists i :: 0 <= i < |p| && p[i].time == t) && forall i :: 0 <= i < |p| ==> p[i].time <= t
  {
    if |p| == 1 then p[0].time
    else
      assert p[1..][|p| - 2] == p[|p| - 1];
      var r := LatestTime(p[1..]);
      assert forall i :: 1 <= i < |p| ==> p[i] == p[1..][i - 1];
      if p[0].time >= r then p[0].time else r
  }

  /** The event e makes absence clause a fail for the path. */
  predicate Forbids(a: AbsenceSpec, p: seq<Event>, e: Event)
    requires p != []
  {
    && e.id !in Ids(p) && e.partition == p[0].partition
    && EarliestTime(p) <= e.time <= LatestTime(p)
    && (a.withinMs.Some? ==> e.time - EarliestTime(p) <= a.withinMs.value)
    && e.eventType == a.eventType && a.accepts(e)
  }

  /** No event of the list is one that some absence clause forbids. */
  ghost predicate AbsenceHolds(absence: seq<AbsenceSpec>, p: seq<Event>, events: seq<Event>) {
    p != [] ==> forall i, k :: 0 <= i < |events| && 0 <= k < |absence| ==> !Forbids(absence[k], p, events[i])
  }

  method ValidateAbsence(absence: seq<AbsenceSpec>, p: seq<Event>, events: seq<Event>) returns (ok: bool)
    ensures ok == AbsenceHolds(absence, p, events)
  {
    if absence == [] || p == [] { return true; }
    var start, end := EarliestTime(p), LatestTime(p);
    for i := 0 to |events|
      invariant forall j, k :: 0 <= j < i && 0 <= k < |absence| ==> !Forbids(absence[k], p, events[j])
    {
      var e := events[i];
      if e.id in Ids(p) { continue; }
      if e.partition != p[0].partition { continue; }
      if e.time < start || e.time > end { continue; }
      for k := 0 to |absence|
        invariant forall m :: 0 <= m < k ==> !Forbids(absence[m], p, e)
      {
        var a := absence[k];
        if a.withinMs.Some? && e.time - start > a.withinMs.value { continue; }
        if e.eventType == a.eventType && a.accepts(e) {
          assert Forbids(absence[k], p, events[i]);
          return false;
        }
      }
    }
    return true;
  }

  function Selected(r: RelationConstraint, p: seq<Event>): seq<Event> {
    if r.steps == [] then p else Picked(r.steps, p)
  }

  function Picked(steps: seq<int>, p: seq<Event>): seq<Event> {
    if steps == [] then []
    else (if 0 <= steps[0] < |p| then [p[steps[0]]] else []) + Picked(steps[1..], p)
  }

  /** The values of a field, events without it left out. */
  function Values(field: string, p: seq<Event>): seq<string> {
    if p == [] then []
    else (if Field(p[0], field).Some? then [Field(p[0], field).value] else []) + Values(field, p[1..])
  }

  function ToSet(s: seq<string>): set<string> { set x | x in s }

  predicate RelationHolds(r: RelationConstraint, p: seq<Event>) {
    if p == [] then true
    else
      var values := Values(r.field, Selected(r, p));
      if |values| <= 1 then true
      else if r.op == Same then |ToSet(values)| == 1
      else |ToSet(values)| == |values|
  }

  predicate AllEqual(v: seq<string>) { forall i, j :: 0 <= i < j < |v| ==> v[i] == v[j] }

  predicate AllDistinct(v: seq<string>) { forall i, j :: 0 <= i < j < |v| ==> v[i] != v[j] }

  lemma OneValue(s: seq<string>)
    requires s != []
    ensures |ToSet(s)| == 1 <==> AllEqual(s)
  {
    assert s[0] in ToSet(s);
    if AllEqual(s) {
      assert ToSet(s) == {s[0]};
    }
    if |ToSet(s)| == 1 {
      assert |ToSet(s) - {s[0]}| == 0;
      assert ToSet(s) == {s[0]};
      forall i | 0 <= i < |s| ensures s[i] == s[0] { assert s[i] in ToSet(s); }
    }
  }

  lemma DistinctSnoc(t: seq<string>, x: string)
    ensures AllDistinct(t + [x]) <==> AllDistinct(t) && x !in ToSet(t)
    ensures ToSet(t + [x]) == ToSet(t) + {x}
  {
    var s := t + [x];
    assert s[|t|] == x && forall i :: 0 <= i < |t| ==> s[i] == t[i] && t[i] in ToSet(t);
    if x in ToSet(t) {
      var i :| 0 <= i < |t| && t[i] == x;
      assert s[i] == s[|t|];
    }
  }

  lemma {:induction false} AllDifferent(s: seq<string>)
    ensures |ToSet(s)| <= |s|
    ensures |ToSet(s)| == |s| <==> AllDistinct(s)
  {
    if s != [] {
      var t, x := s[..|s| - 1], s[|s| - 1];
      assert s == t + [x];
      AllDifferent(t);
      DistinctSnoc(t, x);
    }
  }

  lemma HoldsOnValues(r: RelationConstraint, p: seq<Event>)
    ensures var v := Values(r.field, Selected(r, p));
      RelationHolds(r, p) <==> p == [] || if r.op == Same then AllEqual(v) else AllDistinct(v)
  {
    hide Values, Selected, ToSet;
    var v := Values(r.field, Selected(r, p));
    if v != [] { OneValue(v); }
    AllDifferent(v);
  }

  /** Place a of the constraint's list stands for the path's event i; without a list every event has
      its own place, and positions outside the path are passed over. */
  predicate PicksAt(r: RelationConstraint, p: seq<Event>, a: nat, i: int) {
    0 <= i < |p| && if r.steps == [] then a == i else a < |r.steps| && r.steps[a] == i
  }

  /** Of the picked events that carry the field, any two carry one value, or any two at different
      places carry different ones. */
  ghost predicate Related(r: RelationConstraint, p: seq<Event>) {
    forall a: nat, b: nat, i, j ::
      (&& PicksAt(r, p, a, i) && PicksAt(r, p, b, j) && a != b
       && Field(p[i], r.field).Some? && Field(p[j], r.field).Some?) ==>
        (Field(p[i], r.field) == Field(p[j], r.field) <==> r.op == Same)
  }

  /** A relation constraint holds on a path exactly when the events it picks are related. */
  lemma RelationMeans(r: RelationConstraint, p: seq<Event>)
    requires p != []
    ensures RelationHolds(r, p) <==> Related(r, p)
  {
    HoldsOnValues(r, p);
    var x := Looked(r, p);
    LookedValues(r, p);
    SomesApart(x);
    PlacesLooked(r, p);
    hide RelationHolds, Values, Selected, Somes, Looked;
    if Related(r, p) {
      forall a, b | 0 <= a < b < |x| && x[a].Some? && x[b].Some? ensures x[a] == x[b] <==> r.op == Same {
        assert PicksAt(r, p, a, At(r, a)) && PicksAt(r, p, b, At(r, b));
      }
    }
  }

  /** The position that place a stands for. */
  function At(r: RelationConstraint, a: nat): int
    requires r.steps == [] || a < |r.steps|
  {
    if r.steps == [] then a else r.steps[a]
  }

  lemma PlacesLooked(r: RelationConstraint, p: seq<Event>)
    ensures var x := Looked(r, p);
      && (forall a: nat, i :: PicksAt(r, p, a, i) ==> a < |x| && x[a] == Field(p[i], r.field))
      && forall a :: 0 <= a < |x| ==> (r.steps == [] || a < |r.steps|) && (x[a].Some? ==> PicksAt(r, p, a, At(r, a)))
  {}

  /** What each place of the list has in the field. */
  function Looked(r: RelationConstraint, p: seq<Event>): seq<Option<string>> {
    if r.steps == [] then Fields(r.field, p) else LookedAt(r.field, r.steps, p)
  }

  function Fields(field: string, p: seq<Event>): seq<Option<string>> {
    seq(|p|, i requires 0 <= i < |p| => Field(p[i], field))
  }

  function LookedAt(field: string, steps: seq<int>, p: seq<Event>): seq<Option<string>> {
    seq(|steps|, a requires 0 <= a < |steps| => if 0 <= steps[a] < |p| then Field(p[steps[a]], field) else None)
  }

  function Somes(x: seq<Option<string>>): seq<string> {
    if x == [] then [] else (if x[0].Some? then [x[0].value] else []) + Somes(x[1..])
  }

  lemma LookedValues(r: RelationConstraint, p: seq<Event>)
    ensures Values(r.field, Selected(r, p)) == Somes(Looked(r, p))
  {
    if r.steps == [] { FieldValues(r.field, p); } else { PickedValues(r.field, r.steps, p); }
  }

  lemma {:induction false} FieldValues(field: string, p: seq<Event>)
    ensures Values(field, p) == Somes(Fields(field, p))
  {
    if p != [] {
      FieldValues(field, p[1..]);
      assert Fields(field, p)[1..] == Fields(field, p[1..]);
    }
  }

  lemma {:induction false} PickedValues(field: string, steps: seq<int>, p: seq<Event>)
    ensures Values(field, Picked(steps, p)) == Somes(LookedAt(field, steps, p))
  {
    if steps != [] {
      var rest := Picked(steps[1..], p);
      PickedValues(field, steps[1..], p);
      assert LookedAt(field, steps, p)[1..] == LookedAt(field, steps[1..], p);
      if 0 <= steps[0] < |p| {
        assert ([p[steps[0]]] + rest)[1..] == rest;
      } else {
        assert [] + rest == rest && [] + Values(field, rest) == Values(field, rest);
      }
    }
  }

  lemma {:induction false} SomesMembers(x: seq<Option<string>>, v: string)
    ensures v in Somes(x) <==> exists a :: 0 <= a < |x| && x[a] == Some(v)
  {
    if x != [] {
      SomesMembers(x[1..], v);
      if a :| 0 <= a < |x| && x[a] == Some(v) && a > 0 { assert x[1..][a - 1] == Some(v); }
      if b :| 0 <= b < |x[1..]| && x[1..][b] == Some(v) { assert x[b + 1] == Some(v); }
    }
  }

  /** Any two values there are equal, or any two are not. */
  ghost predicate Pairwise(x: seq<Option<string>>, equal: bool) {
    forall a, b :: 0 <= a < b < |x| && x[a].Some? && x[b].Some? ==> (x[a] == x[b] <==> equal)
  }

  lemma PairwiseCons(x: seq<Option<string>>, equal: bool)
    requires x != []
    ensures Pairwise(x, equal) <==>
      Pairwise(x[1..], equal) && (x[0].Some? ==> forall b :: 0 <= b < |x[1..]| && x[1..][b].Some? ==> (x[1..][b] == x[0] <==> equal))
  {
    var t := x[1..];
    assert forall b :: 0 <= b < |t| ==> t[b] == x[b + 1];
    if Pairwise(t, equal) {
      forall a, b | 0 < a < b < |x| && x[a].Some? && x[b].Some? ensures x[a] == x[b] <==> equal { assert x[a] == t[a - 1] && x[b] == t[b - 1]; }
      forall b | 0 < b < |x| ensures x[b] == t[b - 1] {}
    }
  }

  lemma NonePairs()
    ensures AllEqual([]) && AllDistinct([]) && Pairwise([], true) && Pairwise([], false)
  {}

  lemma {:induction false} SomesApart(x: seq<Option<string>>)
    ensures AllEqual(Somes(x)) <==> Pairwise(x, true)
    ensures AllDistinct(Somes(x)) <==> Pairwise(x, false)
  {
    hide Pairwise, AllEqual, AllDistinct;
    if x == [] {
      NonePairs();
    } else {
      SomesApart(x[1..]);
      PairwiseCons(x, true);
      PairwiseCons(x, false);
      if x[0].Some? { ConsApart(x[0].value, x[1..]); } else { assert [] + Somes(x[1..]) == Somes(x[1..]); }
    }
  }

  lemma ConsApart(v: string, t: seq<Option<string>>)
    ensures AllEqual([v] + Somes(t)) <==> AllEqual(Somes(t)) && forall b :: 0 <= b < |t| && t[b].Some? ==> t[b] == Some(v)
    ensures AllDistinct([v] + Somes(t)) <==> AllDistinct(Somes(t)) && forall b :: 0 <= b < |t| && t[b].Some? ==> t[b] != Some(v)
  {
    var s, c := Somes(t), [v] + Somes(t);
    assert forall k :: 0 <= k < |s| ==> c[k + 1] == s[k];
    forall b | 0 <= b < |t| && t[b].Some? ensures t[b].value in s { SomesMembers(t, t[b].value); }
    forall k | 0 <= k < |s| ensures exists b :: 0 <= b < |t| && t[b] == Some(s[k]) { SomesMembers(t, s[k]); }
    hide Somes;
    ConsPairs(v, s);
    forall b | 0 <= b < |t| && t[b].Some? ensures exists k :: 0 <= k < |s| && s[k] == t[b].value {
      assert t[b].value in s;
    }
  }

  lemma ConsPairs(v: string, s: seq<string>)
    ensures AllEqual([v] + s) <==> AllEqual(s) && forall k :: 0 <= k < |s| ==> s[k] == v
    ensures AllDistinct([v] + s) <==> AllDistinct(s) && forall k :: 0 <= k < |s| ==> s[k] != v
  {
    hide AllEqual, AllDistinct;
    var c := [v] + s;
    assert c[1..] == s && c[0] == v;
    ConsEqual(c);
    ConsDistinct(c);
  }

  lemma ConsEqual(c: seq<string>)
    requires c != []
    ensures AllEqual(c) <==> AllEqual(c[1..]) && forall k :: 0 <= k < |c[1..]| ==> c[1..][k] == c[0]
  {
    forall k | 0 <= k < |c[1..]| ensures c[1..][k] == c[k + 1] {}
    if forall k :: 0 <= k < |c[1..]| ==> c[1..][k] == c[0] {
      forall i | 0 < i < |c| ensures c[i] == c[0] { assert c[i] == c[1..][i - 1]; }
    }
  }

  lemma ConsDistinct(c: seq<string>)
    requires c != []
    ensures AllDistinct(c) <==> AllDistinct(c[1..]) && forall k :: 0 <= k < |c[1..]| ==> c[1..][k] != c[0]
  {
    var t := c[1..];
    if AllDistinct(c) {
      forall i, j | 0 <= i < j < |t| ensures t[i] != t[j] { assert c[i + 1] != c[j + 1]; }
      forall k | 0 <= k < |t| ensures t[k] != c[0] { assert c[0] != c[k + 1]; }
    }
    if AllDistinct(t) && forall k :: 0 <= k < |t| ==> t[k] != c[0] {
      forall i, j | 0 <= i < j < |c| ensures c[i] != c[j] { assert c[j] == t[j - 1]; if i > 0 { assert c[i] == t[i - 1]; } }
    }
  }

  /** The event is in the path's partition and between its first and last times, but not on it, and
      meets an absence clause. */
  ghost predicate Intrudes(absence: seq<AbsenceSpec>, p: seq<Event>, e: Event)
    requires p != []
  {
    && (forall i :: 0 <= i < |p| ==> p[i].id != e.id) && e.partition == p[0].partition
    && (exists i :: 0 <= i < |p| && p[i].time <= e.time) && (exists i :: 0 <= i < |p| && e.time <= p[i].time)
    && exists k :: 0 <= k < |absence| && e.eventType == absence[k].eventType && absence[k].accepts(e)
         && (absence[k].withinMs.Some? ==> forall i :: 0 <= i < |p| ==> e.time - p[i].time <= absence[k].withinMs.value)
  }

  lemma IntruderForbidden(absence: seq<AbsenceSpec>, p: seq<Event>, e: Event)
    requires p != []
    ensures Intrudes(absence, p, e) <==> exists k :: 0 <= k < |absence| && Forbids(absence[k], p, e)
  {
    hide EarliestTime, LatestTime, Ids;
    NotOnPath(p, e);
    var lo, hi := TimesOf(p);
    forall k | 0 <= k < |absence| && absence[k].withinMs.Some?
      ensures (forall i :: 0 <= i < |p| ==> e.time - p[i].time <= absence[k].withinMs.value) <==> e.time - EarliestTime(p) <= absence[k].withinMs.value {}
  }

  lemma NotOnPath(p: seq<Event>, e: Event)
    ensures e.id !in Ids(p) <==> forall i :: 0 <= i < |p| ==> p[i].id != e.id
  {
    forall i | 0 <= i < |p| ensures p[i].id in Ids(p) { assert Ids(p)[i] == p[i].id; }
  }

  lemma TimesOf(p: seq<Event>) returns (lo: nat, hi: nat)
    requires p != []
    ensures lo < |p| && hi < |p| && p[lo].time == EarliestTime(p) && p[hi].time == LatestTime(p)
    ensures forall i :: 0 <= i < |p| ==> p[lo].time <= p[i].time <= p[hi].time
  {
    lo :| lo < |p| && p[lo].time == EarliestTime(p);
    hi :| hi < |p| && p[hi].time == LatestTime(p);
  }

  lemma AbsenceMeans(absence: seq<AbsenceSpec>, p: seq<Event>, events: seq<Event>)
    requires p != []
    ensures AbsenceHolds(absence, p, events) <==> forall e :: e in events ==> !Intrudes(absence, p, e)
  {
    hide Forbids, Intrudes;
    if AbsenceHolds(absence, p, events) {
      forall e | e in events ensures !Intrudes(absence, p, e) {
        IntruderForbidden(absence, p, e);
        var i :| 0 <= i < |events| && events[i] == e;
      }
    }
    if forall e :: e in events ==> !Intrudes(absence, p, e) {
      forall i | 0 <= i < |events| ensures !Intrudes(absence, p, events[i]) { IntruderForbidden(absence, p, events[i]); }
      forall i, k | 0 <= i < |events| && 0 <= k < |absence| ensures !Forbids(absence[k], p, events[i]) { IntruderForbidden(absence, p, events[i]); }
    }
  }

  ghost predicate ValidPath(q: QuerySpec, p: seq<Event>, events: seq<Event>) {
    && p != [] && AbsenceHolds(q.absence, p, events)
    && forall k :: 0 <= k < |q.relations| ==> RelationHolds(q.relations[k], p)
  }

  /** A path is valid when no event intrudes and every constraint's events are related. */
  lemma ValidPathMeans(q: QuerySpec, p: seq<Event>, events: seq<Event>)
    ensures ValidPath(q, p, events) <==>
      && p != [] && (forall e :: e in events ==> !Intrudes(q.absence, p, e))
      && forall k :: 0 <= k < |q.relations| ==> Related(q.relations[k], p)
  {
    hide AbsenceHolds, Intrudes, RelationHolds, Related;
    if p != [] {
      AbsenceMeans(q.absence, p, events);
      forall k | 0 <= k < |q.relations| ensures RelationHolds(q.relations[k], p) <==> Related(q.relations[k], p) { RelationMeans(q.relations[k], p); }
    }
  }

  method ValidatePath(q: QuerySpec, p: seq<Event>, events: seq<Event>) returns (ok: bool)
    ensures ok == ValidPath(q, p, events)
  {
    if p == [] { return false; }
    var absent := ValidateAbsence(q.absence, p, events);
    if !absent { return false; }
    return forall k :: 0 <= k < |q.relations| ==> RelationHolds(q.relations[k], p);
  }

  // ---- Restricting events to the referenced types ----

  function Relevant(refs: set<string>, s: seq<Event>): seq<Event> {
    if s == [] then [] else (if s[0].eventType in refs then [s[0]] else []) + Relevant(refs, s[1..])
  }

  lemma {:induction false} RelevantMembers(refs: set<string>, s: seq<Event>, e: Event)
    ensures e in Relevant(refs, s) <==> e in s && e.eventType in refs
  {
    if s != [] {
      RelevantMembers(refs, s[1..], e);
      assert s == [s[0]] + s[1..];
    }
  }

  lemma {:induction false} RelevantAscending(refs: set<string>, s: seq<Event>)
    requires Ascending(s)
    ensures Ascending(Relevant(refs, s))
  {
    if s != [] {
      RelevantAscending(refs, s[1..]);
      var t := Relevant(refs, s[1..]);
      forall j | 0 <= j < |t| ensures Before(s[0], t[j]) {
        RelevantMembers(refs, s[1..], t[j]);
      }
    }
  }

  /** Events no step can match change nothing in the enumeration. */
  lemma {:induction false} RelevantRec(steps: seq<PatternStep>, within: int, k: nat, rest: seq<Event>, path: seq<Event>, refs: set<string>)
    requires AliasTypes(steps) <= refs
    ensures Rec(steps, within, k, Relevant(refs, rest), path) == Rec(steps, within, k, rest, path)
    decreases |steps| - k, |rest|, 2
  {
    if k < |steps| {
      RelevantRec(steps, within, k + 1, rest, path, refs);
      RelevantConsume(steps, within, k, 0, rest, path, refs);
    }
  }

  lemma {:induction false} RelevantConsume(steps: seq<PatternStep>, within: int, k: nat, reps: nat, rest: seq<Event>, path: seq<Event>, refs: set<string>)
    requires AliasTypes(steps) <= refs && k < |steps|
    ensures Consume(steps, within, k, reps, Relevant(refs, rest), path) == Consume(steps, within, k, reps, rest, path)
    decreases |steps| - k, |rest|, 1
  {
    RelevantRec(steps, within, k + 1, rest, path, refs);
    RelevantPick(steps, within, k, reps, rest, path, refs);
  }

  lemma {:induction false} RelevantPick(steps: seq<PatternStep>, within: int, k: nat, reps: nat, rest: seq<Event>, path: seq<Event>, refs: set<string>)
    requires AliasTypes(steps) <= refs && k < |steps|
    ensures Pick(steps, within, k, reps, Relevant(refs, rest), path) == Pick(steps, within, k, reps, rest, path)
    decreases |steps| - k, |rest|, 0
  {
    if rest != [] {
      var e := rest[0];
      RelevantPick(steps, within, k, reps, rest[1..], path, refs);
      if e.eventType in refs {
        RelevantConsume(steps, within, k, reps + 1, rest[1..], path + [e], refs);
        assert Relevant(refs, rest)[1..] == Relevant(refs, rest[1..]);
      } else {
        assert !StepMatches(steps[k], e);
        assert Try(steps, within, k, reps, rest, path) == [];
        assert Relevant(refs, rest) == Relevant(refs, rest[1..]);
      }
    }
  }

  /** Restricting a partition to the referenced types changes neither the matches nor any verdict. */
  lemma RelevantEnough(q: QuerySpec, events: seq<Event>, p: seq<Event>)
    requires Ascending(events)
    ensures Rec(q.steps, q.withinMs, 0, Relevant(ReferencedTypes(q), events), []) == Rec(q.steps, q.withinMs, 0, events, [])
    ensures ValidPath(q, p, Relevant(ReferencedTypes(q), events)) <==> ValidPath(q, p, events)
  {
    var refs := ReferencedTypes(q);
    var cut := Relevant(refs, events);
    RelevantRec(q.steps, q.withinMs, 0, events, [], refs);
    if p != [] {
      forall e ensures e in cut <==> e in events && e.eventType in refs {
        RelevantMembers(refs, events, e);
      }
      if AbsenceHolds(q.absence, p, cut) {
        forall i, k | 0 <= i < |events| && 0 <= k < |q.absence| ensures !Forbids(q.absence[k], p, events[i]) {
          if events[i].eventType == q.absence[k].eventType {
            assert events[i] in cut;
            var j :| 0 <= j < |cut| && cut[j] == events[i];
            assert !Forbids(q.absence[k], p, cut[j]);
          }
        }
      }
      if AbsenceHolds(q.absence, p, events) {
        forall i, k | 0 <= i < |cut| && 0 <= k < |q.absence| ensures !Forbids(q.absence[k], p, cut[i]) {
          assert cut[i] in events;
          var j :| 0 <= j < |events| && events[j] == cut[i];
          assert !Forbids(q.absence[k], p, events[j]);
        }
      }
    }
  }
}
