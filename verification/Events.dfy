/** Security events, and the order every component sorts them in. */
module Events {
  datatype Option<+T> = None | Some(value: T)

  /** attrs holds the fields an event carries; an absent field and one holding None are the same. */
  datatype Event = Event(id: int, partition: string, eventType: string, time: int, attrs: map<string, string>)

  function Field(e: Event, key: string): Option<string> {
    if key in e.attrs then Some(e.attrs[key]) else None
  }

  predicate Before(a: Event, b: Event) {
    a.time < b.time || (a.time == b.time && a.id < b.id)
  }

  /** Strictly increasing in (time, id). */
  predicate Ascending(s: seq<Event>) {
    forall i, j :: 0 <= i < j < |s| ==> Before(s[i], s[j])
  }

  function Ids(s: seq<Event>): seq<int> {
    seq(|s|, i requires 0 <= i < |s| => s[i].id)
  }

  // ---- Sorting ----

  function Insert(e: Event, s: seq<Event>): (r: seq<Event>)
    ensures multiset(r) == multiset(s) + multiset{e}
  {
    if s == [] then [e]
    else if Before(s[0], e) then
      assert s == [s[0]] + s[1..];
      [s[0]] + Insert(e, s[1..])
    else [e] + s
  }

  /** Python's sorted(...) with key (time, id). */
  function SortEvents(s: seq<Event>): (r: seq<Event>)
    ensures multiset(r) == multiset(s)
  {
    if s == [] then []
    else
      assert s == [s[0]] + s[1..];
      Insert(s[0], SortEvents(s[1..]))
  }

  ghost predicate UniqueKeys(s: seq<Event>) {
    forall i, j :: 0 <= i < j < |s| ==> s[i].id != s[j].id || s[i].time != s[j].time
  }

  lemma {:induction false} InsertAscending(e: Event, s: seq<Event>)
    requires Ascending(s) && forall x :: x in s ==> x.id != e.id || x.time != e.time
    ensures Ascending(Insert(e, s))
  {
    if s != [] && Before(s[0], e) {
      assert forall x :: x in s[1..] ==> x in s;
      InsertAscending(e, s[1..]);
      var t := Insert(e, s[1..]);
      forall j | 0 <= j < |t| ensures Before(s[0], t[j]) {
        assert t[j] in multiset(s[1..]) + multiset{e};
      }
    }
  }

  lemma {:induction false} SortAscending(s: seq<Event>)
    requires UniqueKeys(s)
    ensures Ascending(SortEvents(s))
  {
    if s != [] {
      assert forall i, j :: 0 <= i < j < |s| - 1 ==> s[1..][i] == s[i + 1] && s[1..][j] == s[j + 1];
      SortAscending(s[1..]);
      forall x | x in SortEvents(s[1..]) ensures x.id != s[0].id || x.time != s[0].time {
        assert x in multiset(s[1..]);
        var i :| 0 <= i < |s| - 1 && s[1..][i] == x;
        assert s[i + 1] == x;
      }
      InsertAscending(s[0], SortEvents(s[1..]));
    }
  }

  ghost predicate Within(a: seq<Event>, b: seq<Event>) {
    forall i :: 0 <= i < |a| ==> a[i] in b
  }

  /** Two ascending lists of the same events are equal. */
  lemma {:induction false} AscendingUnique(a: seq<Event>, b: seq<Event>)
    requires Ascending(a) && Ascending(b) && Within(a, b) && Within(b, a)
    ensures a == b
  {
    if a != [] && b != [] {
      assert a[0] in b && b[0] in a;
      assert a[0] == b[0];
      forall i | 0 <= i < |a[1..]| ensures a[1..][i] in b[1..] { assert a[i + 1] in b && Before(a[0], a[i + 1]); }
      forall i | 0 <= i < |b[1..]| ensures b[1..][i] in a[1..] { assert b[i + 1] in a && Before(b[0], b[i + 1]); }
      AscendingUnique(a[1..], b[1..]);
    }
    HasHead(a);
    HasHead(b);
  }

  lemma HasHead(s: seq<Event>)
    ensures s == [] || s[0] in s
  {}

  lemma SortMembers(s: seq<Event>)
    ensures Within(SortEvents(s), s) && Within(s, SortEvents(s))
  {
    var t := SortEvents(s);
    forall i | 0 <= i < |t| ensures t[i] in s { assert t[i] in multiset(t); }
    forall i | 0 <= i < |s| ensures s[i] in t { assert s[i] in multiset(s); }
  }

  lemma SortFixes(s: seq<Event>)
    requires Ascending(s)
    ensures SortEvents(s) == s
  {
    SortAscending(s);
    SortMembers(s);
    AscendingUnique(SortEvents(s), s);
  }

  // ---- Sorting by partition first ----

  /** Python's order of strings, by code points. */
  predicate LexLess(a: string, b: string) {
    b != [] && (a == [] || a[0] < b[0] || (a[0] == b[0] && LexLess(a[1..], b[1..])))
  }

  lemma {:induction false} LexTotal(a: string, b: string)
    ensures a == b || LexLess(a, b) || LexLess(b, a)
  {
    if a != [] && b != [] && a[0] == b[0] {
      LexTotal(a[1..], b[1..]);
      assert a == [a[0]] + a[1..] && b == [b[0]] + b[1..];
    }
  }

  lemma {:induction false} LexTransitive(a: string, b: string, c: string)
    requires LexLess(a, b) && LexLess(b, c)
    ensures LexLess(a, c)
  {
    if a != [] && a[0] == b[0] == c[0] { LexTransitive(a[1..], b[1..], c[1..]); }
  }

  /** Earlier in the order of (partition, time, id). */
  predicate Precedes(a: Event, b: Event) {
    LexLess(a.partition, b.partition) || (a.partition == b.partition && Before(a, b))
  }

  function InsertInPartition(e: Event, s: seq<Event>): (r: seq<Event>)
    ensures multiset(r) == multiset(s) + multiset{e}
  {
    if s == [] then [e]
    else if Precedes(s[0], e) then
      assert s == [s[0]] + s[1..];
      [s[0]] + InsertInPartition(e, s[1..])
    else [e] + s
  }

  /** Python's sorted(...) with key (partition, time, id). */
  function SortByPartition(s: seq<Event>): (r: seq<Event>)
    ensures multiset(r) == multiset(s)
  {
    if s == [] then []
    else
      assert s == [s[0]] + s[1..];
      InsertInPartition(s[0], SortByPartition(s[1..]))
  }

  predicate PartitionSorted(s: seq<Event>) {
    forall i, j :: 0 <= i < j < |s| ==> Precedes(s[i], s[j])
  }

  lemma PrecedesChain(a: Event, b: Event, c: Event)
    requires Precedes(a, b) && Precedes(b, c)
    ensures Precedes(a, c)
  {
    if LexLess(a.partition, b.partition) && LexLess(b.partition, c.partition) {
      LexTransitive(a.partition, b.partition, c.partition);
    }
  }

  lemma {:induction false} InsertSorted(e: Event, s: seq<Event>)
    requires PartitionSorted(s) && forall x :: x in s ==> x.id != e.id || x.time != e.time
    ensures PartitionSorted(InsertInPartition(e, s))
  {
    if s != [] {
      assert s[0] in s;
      if Precedes(s[0], e) {
        assert forall x :: x in s[1..] ==> x in s;
        InsertSorted(e, s[1..]);
        var t := InsertInPartition(e, s[1..]);
        forall j | 0 <= j < |t| ensures Precedes(s[0], t[j]) {
          assert t[j] in multiset(s[1..]) + multiset{e};
        }
      } else {
        LexTotal(s[0].partition, e.partition);
        assert Precedes(e, s[0]);
        forall j | 1 <= j < |s| ensures Precedes(e, s[j]) { PrecedesChain(e, s[0], s[j]); }
      }
    }
  }

  lemma {:induction false} SortedByPartition(s: seq<Event>)
    requires UniqueKeys(s)
    ensures PartitionSorted(SortByPartition(s))
  {
    if s != [] {
      assert forall i, j :: 0 <= i < j < |s| - 1 ==> s[1..][i] == s[i + 1] && s[1..][j] == s[j + 1];
      SortedByPartition(s[1..]);
      forall x | x in SortByPartition(s[1..]) ensures x.id != s[0].id || x.time != s[0].time {
        assert x in multiset(s[1..]);
        var i :| 0 <= i < |s| - 1 && s[1..][i] == x;
        assert s[i + 1] == x;
      }
      InsertSorted(s[0], SortByPartition(s[1..]));
    }
  }

  lemma ByPartitionMembers(s: seq<Event>)
    ensures forall e :: e in SortByPartition(s) <==> e in s
  {
    forall e ensures e in SortByPartition(s) <==> e in s {
      assert e in multiset(SortByPartition(s)) <==> e in multiset(s);
    }
  }

  lemma {:induction false} LexIrreflexive(a: string)
    ensures !LexLess(a, a)
  {
    if a != [] { LexIrreflexive(a[1..]); }
  }

  /** Within one partition both orders are the same. */
  lemma OnePartitionSort(s: seq<Event>, p: string)
    requires UniqueKeys(s) && forall e :: e in s ==> e.partition == p
    ensures SortByPartition(s) == SortEvents(s)
  {
    var a, b := SortByPartition(s), SortEvents(s);
    SortedByPartition(s);
    SortAscending(s);
    SortMembers(s);
    ByPartitionMembers(s);
    LexIrreflexive(p);
    forall i, j | 0 <= i < j < |a| ensures Before(a[i], a[j]) { assert a[i] in s && a[j] in s && Precedes(a[i], a[j]); }
    forall i | 0 <= i < |a| ensures a[i] in b {
      assert a[i] in s;
      var k :| 0 <= k < |s| && s[k] == a[i];
    }
    forall i | 0 <= i < |b| ensures b[i] in a { assert b[i] in s; }
    AscendingUnique(a, b);
  }
}
