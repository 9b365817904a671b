/** The bounded cache of partial matches: the first keys touched stay, and their hits are counted. */
module PartialCache {
  datatype Key = Key(vertex: int, seqIdx: nat)
  datatype Entry = Entry(key: Key, hits: nat)

  // ---- What a run of touches should leave ----

  function Count(ks: seq<Key>, k: Key): nat {
    if ks == [] then 0 else Count(ks[..|ks| - 1], k) + if ks[|ks| - 1] == k then 1 else 0
  }

  /** The distinct keys in the order they were first touched. */
  function FirstTouched(ks: seq<Key>): seq<Key> {
    if ks == [] then []
    else
      var r, k := FirstTouched(ks[..|ks| - 1]), ks[|ks| - 1];
      if k in r then r else r + [k]
  }

  function Capped(s: seq<Key>, cap: nat): seq<Key> { if |s| <= cap then s else s[..cap] }

  ghost predicate Distinct(s: seq<Key>) {
    forall i, j :: 0 <= i < j < |s| ==> s[i] != s[j]
  }

  lemma {:induction false} FirstTouchedExact(ks: seq<Key>)
    ensures Distinct(FirstTouched(ks))
    ensures forall k :: k in FirstTouched(ks) <==> Count(ks, k) > 0
  {
    if ks != [] { FirstTouchedExact(ks[..|ks| - 1]); }
  }

  /** The entries are the first cap distinct keys with the number of times each was touched. */
  ghost predicate Tallies(entries: seq<Entry>, cap: nat, ks: seq<Key>) {
    var keys := Capped(FirstTouched(ks), cap);
    |entries| == |keys| && forall i :: 0 <= i < |entries| ==> entries[i] == Entry(keys[i], Count(ks, keys[i]))
  }

  // ---- One touch ----

  lemma TouchedKnown(entries: seq<Entry>, cap: nat, ks: seq<Key>, k: Key, i: nat)
    requires Tallies(entries, cap, ks) && i < |entries| && entries[i].key == k
    ensures Tallies(entries[i := Entry(k, entries[i].hits + 1)], cap, ks + [k])
  {
    FirstTouchedExact(ks);
    var f := FirstTouched(ks);
    assert (ks + [k])[..|ks|] == ks;
    assert f[i] == k;
    assert FirstTouched(ks + [k]) == f;
  }

  lemma TouchedNew(entries: seq<Entry>, cap: nat, ks: seq<Key>, k: Key)
    requires Tallies(entries, cap, ks) && forall i :: 0 <= i < |entries| ==> entries[i].key != k
    ensures Tallies(if |entries| < cap then entries + [Entry(k, 1)] else entries, cap, ks + [k])
  {
    FirstTouchedExact(ks);
    var f := FirstTouched(ks);
    var ks' := ks + [k];
    assert ks'[..|ks|] == ks;
    var f' := FirstTouched(ks');
    if |entries| < cap {
      assert Capped(f, cap) == f;
      forall i | 0 <= i < |f| ensures f[i] != k { assert entries[i].key == f[i]; }
      assert f' == f + [k] && Count(ks, k) == 0;
    } else {
      assert Capped(f', cap) == Capped(f, cap);
    }
  }

  class Cache {
    const cap: nat
    var entries: seq<Entry>
    ghost var touched: seq<Key>

    constructor (cap: nat)
      ensures this.cap == cap && Valid() && touched == []
    {
      this.cap := cap;
      entries, touched := [], [];
    }

    ghost predicate Valid()
      reads this
    {
      Tallies(entries, cap, touched)
    }

    method Touch(k: Key)
      requires Valid()
      modifies this
      ensures Valid() && touched == old(touched) + [k]
    {
      for i := 0 to |entries|
        invariant entries == old(entries) && touched == old(touched)
        invariant forall j :: 0 <= j < i ==> entries[j].key != k
      {
        if entries[i].key == k {
          TouchedKnown(entries, cap, touched, k, i);
          entries := entries[i := Entry(k, entries[i].hits + 1)];
          touched := touched + [k];
          return;
        }
      }
      TouchedNew(entries, cap, touched, k);
      if |entries| < cap {
        entries := entries + [Entry(k, 1)];
      }
      touched := touched + [k];
    }
  }

  ghost predicate Kept(entries: seq<Entry>, ks: seq<Key>, k: Key) {
    exists i :: 0 <= i < |entries| && entries[i] == Entry(k, Count(ks, k))
  }

  /** Every key's hits are known exactly when there were no more distinct keys than places. */
  lemma AllKeptExactly(entries: seq<Entry>, cap: nat, ks: seq<Key>)
    requires Tallies(entries, cap, ks)
    ensures (forall k :: Count(ks, k) > 0 ==> Kept(entries, ks, k)) <==> |FirstTouched(ks)| <= cap
  {
    FirstTouchedExact(ks);
    var f := FirstTouched(ks);
    if |f| > cap {
      assert f[cap] in f;
      forall i | 0 <= i < |entries| ensures entries[i].key != f[cap] { assert entries[i].key == f[i]; }
      assert !Kept(entries, ks, f[cap]);
    } else {
      forall k | Count(ks, k) > 0 ensures Kept(entries, ks, k) {
        assert k in f;
        var i :| 0 <= i < |f| && f[i] == k;
        assert entries[i] == Entry(k, Count(ks, k));
      }
    }
  }
}
