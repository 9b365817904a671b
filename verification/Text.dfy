/** Decimal numbers, comma-separated lists and the colon-separated text a trend id is hashed from. */
module Text {
  predicate IsDigit(c: char) { '0' <= c <= '9' }

  predicate AllDigits(s: string) {
    forall i :: 0 <= i < |s| ==> IsDigit(s[i])
  }

  function DigitChar(d: nat): (c: char)
    requires d < 10
    ensures IsDigit(c) && DigitValue(c) == d
  {
    "0123456789"[d]
  }

  function DigitValue(c: char): (d: nat)
    requires IsDigit(c)
    ensures d < 10
  {
    c as int - '0' as int
  }

  function PrintNat(n: nat): (s: string)
    ensures s != [] && AllDigits(s)
  {
    if n < 10 then [DigitChar(n)] else PrintNat(n / 10) + [DigitChar(n % 10)]
  }

  function ParseNat(s: string): nat
    requires AllDigits(s)
  {
    if s == [] then 0 else 10 * ParseNat(s[..|s| - 1]) + DigitValue(s[|s| - 1])
  }

  lemma {:induction false} PrintParse(n: nat)
    ensures ParseNat(PrintNat(n)) == n
  {
    if n < 10 {
      assert PrintNat(n)[..0] == [];
    } else {
      PrintParse(n / 10);
      assert PrintNat(n)[..|PrintNat(n)| - 1] == PrintNat(n / 10);
    }
  }

  /** Python's str of an int. */
  function PrintInt(i: int): (s: string)
    ensures s != []
  {
    if i < 0 then "-" + PrintNat(-i) else PrintNat(i)
  }

  lemma PrintIntInjective(i: int, j: int)
    requires PrintInt(i) == PrintInt(j)
    ensures i == j
  {
    PrintParse(if i < 0 then -i else i);
    PrintParse(if j < 0 then -j else j);
    assert i < 0 <==> PrintInt(i)[0] == '-';
    assert j < 0 <==> PrintInt(j)[0] == '-';
    if i < 0 && j < 0 {
      assert PrintInt(i)[1..] == PrintNat(-i) && PrintInt(j)[1..] == PrintNat(-j);
    }
  }

  function Csv(ids: seq<int>): string {
    if ids == [] then ""
    else if |ids| == 1 then PrintInt(ids[0])
    else PrintInt(ids[0]) + "," + Csv(ids[1..])
  }

  predicate ListChar(c: char) { c == ',' || c == '-' || IsDigit(c) }

  lemma NumbersOnly(i: int)
    ensures forall k :: 0 <= k < |PrintInt(i)| ==> PrintInt(i)[k] == '-' || IsDigit(PrintInt(i)[k])
  {}

  lemma {:induction false} CsvCharacters(ids: seq<int>)
    ensures forall k :: 0 <= k < |Csv(ids)| ==> ListChar(Csv(ids)[k])
  {
    if ids != [] { NumbersOnly(ids[0]); }
    if |ids| > 1 { CsvCharacters(ids[1..]); }
  }

  lemma CommaMeansMore(ids: seq<int>)
    ensures ',' in Csv(ids) <==> |ids| > 1
  {
    if |ids| > 1 {
      assert Csv(ids)[|PrintInt(ids[0])|] == ',';
    } else if |ids| == 1 {
      NumbersOnly(ids[0]);
    }
  }

  /** Position of the first c in s, or |s|. */
  function First(c: char, s: string): (n: nat)
    ensures n <= |s|
  {
    if s == [] || s[0] == c then 0 else 1 + First(c, s[1..])
  }

  lemma {:induction false} FirstIs(c: char, a: string, b: string)
    requires c !in a
    ensures First(c, a + [c] + b) == |a|
  {
    if a != [] {
      assert (a + [c] + b)[1..] == a[1..] + [c] + b;
      FirstIs(c, a[1..], b);
    }
  }

  /** Position of the last c in s, or -1. */
  function Last(c: char, s: string): int {
    if s == [] then -1 else if s[|s| - 1] == c then |s| - 1 else Last(c, s[..|s| - 1])
  }

  lemma {:induction false} LastIs(c: char, a: string, b: string)
    requires c !in b
    ensures Last(c, a + [c] + b) == |a|
  {
    if b == [] {
      assert a + [c] + b == a + [c];
    } else {
      var s := a + [c] + b;
      assert s[..|s| - 1] == a + [c] + b[..|b| - 1];
      LastIs(c, a, b[..|b| - 1]);
    }
  }

  lemma CutAt(c: char, a: string, b: string, x: string, y: string)
    requires a + [c] + b == x + [c] + y && |a| == |x|
    ensures a == x && b == y
  {
    var s := a + [c] + b;
    assert a == s[..|a|] && x == s[..|x|] && b == s[|a| + 1..] && y == s[|x| + 1..];
  }

  /** Two texts cut at their first c have the same parts. */
  lemma CutFirst(c: char, a: string, b: string, x: string, y: string)
    requires a + [c] + b == x + [c] + y && c !in a && c !in x
    ensures a == x && b == y
  {
    FirstIs(c, a, b);
    FirstIs(c, x, y);
    CutAt(c, a, b, x, y);
  }

  /** Two texts cut at their last c have the same parts. */
  lemma CutLast(c: char, a: string, b: string, x: string, y: string)
    requires a + [c] + b == x + [c] + y && c !in b && c !in y
    ensures a == x && b == y
  {
    LastIs(c, a, b);
    LastIs(c, x, y);
    CutAt(c, a, b, x, y);
  }

  /** A list of ids can be read back from its text. */
  lemma {:induction false} CsvInjective(a: seq<int>, b: seq<int>)
    requires Csv(a) == Csv(b)
    ensures a == b
  {
    hide PrintInt, First;
    CommaMeansMore(a);
    CommaMeansMore(b);
    if |a| == 1 && |b| == 1 {
      PrintIntInjective(a[0], b[0]);
    } else if |a| > 1 && |b| > 1 {
      NumbersOnly(a[0]);
      NumbersOnly(b[0]);
      CutFirst(',', PrintInt(a[0]), Csv(a[1..]), PrintInt(b[0]), Csv(b[1..]));
      PrintIntInjective(a[0], b[0]);
      CsvInjective(a[1..], b[1..]);
      assert a == [a[0]] + a[1..] && b == [b[0]] + b[1..];
    }
  }

  // ---- Trend ids ----

  /** The text hashed into a trend id. */
  function Fingerprint(queryId: string, version: string, partition: string, path: seq<int>): string {
    queryId + ":" + (version + ":" + (partition + ":" + Csv(path)))
  }

  /** What the text of every trend of a query starts with. */
  function Head(queryId: string, version: string): string {
    queryId + ":" + version + ":"
  }

  lemma Regroup(a: string, b: string, c: string)
    ensures a + (b + c) == a + b + c
  {}

  lemma HeadThenRest(q: string, v: string, p: string, path: seq<int>)
    ensures Fingerprint(q, v, p, path) == Head(q, v) + p + ":" + Csv(path)
    ensures Fingerprint(q, v, p, path) == Head(q, v) + (p + ":" + Csv(path))
  {
    hide Csv;
    Regroup(q + ":", v + ":", p + ":" + Csv(path));
    Regroup(q + ":", v, ":");
    Regroup(Head(q, v), p + ":", Csv(path));
    Regroup(Head(q, v), p, ":");
  }

  lemma NoColon(path: seq<int>)
    ensures ':' !in Csv(path)
  {
    CsvCharacters(path);
  }

  /** Whatever the names contain, the text determines the path, and the partition as far as the head does. */
  lemma SameIdSamePath(q: string, v: string, p: string, path: seq<int>, q': string, v': string, p': string, path': seq<int>)
    requires Fingerprint(q, v, p, path) == Fingerprint(q', v', p', path')
    ensures path == path' && Head(q, v) + p == Head(q', v') + p'
    ensures Head(q, v) <= Head(q', v') || Head(q', v') <= Head(q, v)
    ensures Head(q, v) == Head(q', v') <==> p == p'
  {
    HeadThenRest(q, v, p, path);
    HeadThenRest(q', v', p', path');
    NoColon(path);
    NoColon(path');
    CutLast(':', Head(q, v) + p, Csv(path), Head(q', v') + p', Csv(path'));
    CsvInjective(path, path');
    PrefixesOfOne(Head(q, v), p, Head(q', v'), p');
  }

  lemma PrefixesOfOne(a: string, x: string, b: string, y: string)
    requires a + x == b + y
    ensures (a <= b || b <= a) && (a == b <==> x == y)
  {
    var s := a + x;
    assert a == s[..|a|] && b == s[..|b|] && x == s[|a|..] && y == s[|b|..];
    if |a| <= |b| { assert a == b[..|a|]; } else { assert b == a[..|b|]; }
    if x == y { assert |a| == |b|; }
  }

  /** Trends of one query never share an id. */
  lemma OwnTrendsApart(q: string, v: string, p: string, path: seq<int>, p': string, path': seq<int>)
    requires Fingerprint(q, v, p, path) == Fingerprint(q, v, p', path')
    ensures p == p' && path == path'
  {
    SameIdSamePath(q, v, p, path, q, v, p', path');
  }

  ghost predicate ShareId(q: string, v: string, q': string, v': string, p: string, path: seq<int>, p': string, path': seq<int>) {
    Fingerprint(q, v, p, path) == Fingerprint(q', v', p', path')
  }

  /** Two queries have trends that share an id exactly when one's head is a prefix of the other's. */
  lemma SharedIdExactly(q: string, v: string, q': string, v': string)
    ensures (exists p, path, p', path' :: ShareId(q, v, q', v', p, path, p', path')) <==>
      Head(q, v) <= Head(q', v') || Head(q', v') <= Head(q, v)
  {
    if p, path, p', path' :| ShareId(q, v, q', v', p, path, p', path') {
      SameIdSamePath(q, v, p, path, q', v', p', path');
    }
    if Head(q, v) <= Head(q', v') {
      SharedBelow(q, v, q', v', "", [1]);
    } else if Head(q', v') <= Head(q, v) {
      SharedBelow(q', v', q, v, "", [1]);
      assert ShareId(q, v, q', v', "", [1], Head(q, v)[|Head(q', v')|..] + "", [1]);
    }
  }

  lemma SharedBelow(q: string, v: string, q': string, v': string, p: string, path: seq<int>)
    requires Head(q, v) <= Head(q', v')
    ensures ShareId(q, v, q', v', Head(q', v')[|Head(q, v)|..] + p, path, p, path)
  {
    hide Csv, Fingerprint, Head;
    var h, h' := Head(q, v), Head(q', v');
    var x := h'[|h|..];
    HeadThenRest(q, v, x + p, path);
    HeadThenRest(q', v', p, path);
    assert h' == h + x;
    Regroup(h, x, p);
  }

  /** They have trends of different partitions that share an id exactly when it is a proper prefix. */
  lemma SharedAcrossExactly(q: string, v: string, q': string, v': string)
    ensures (exists p, path, p', path' :: p != p' && ShareId(q, v, q', v', p, path, p', path')) <==>
      Head(q, v) < Head(q', v') || Head(q', v') < Head(q, v)
  {
    if p, path, p', path' :| p != p' && ShareId(q, v, q', v', p, path, p', path') {
      SameIdSamePath(q, v, p, path, q', v', p', path');
    }
    if Head(q, v) < Head(q', v') {
      SharedBelow(q, v, q', v', "", [1]);
    } else if Head(q', v') < Head(q, v) {
      SharedBelow(q', v', q, v, "", [1]);
      assert ShareId(q, v, q', v', "", [1], Head(q, v)[|Head(q', v')|..] + "", [1]);
    }
  }

  /** For colon-free query ids and versions the text determines the query, the partition (whatever
      it contains) and the path. */
  lemma FingerprintInjective(q: string, v: string, p: string, path: seq<int>, q': string, v': string, p': string, path': seq<int>)
    requires Fingerprint(q, v, p, path) == Fingerprint(q', v', p', path')
    requires ':' !in q && ':' !in v && ':' !in q' && ':' !in v'
    ensures q == q' && v == v' && p == p' && path == path'
  {
    CutFirst(':', q, v + ":" + (p + ":" + Csv(path)), q', v' + ":" + (p' + ":" + Csv(path')));
    CutFirst(':', v, p + ":" + Csv(path), v', p' + ":" + Csv(path'));
    OwnTrendsApart(q, v, p, path, p', path');
  }

  /** So colon-free names have unrelated heads. */
  lemma ColonFreeApart(q: string, v: string, q': string, v': string)
    requires ':' !in q && ':' !in v && ':' !in q' && ':' !in v'
    ensures Head(q, v) <= Head(q', v') || Head(q', v') <= Head(q, v) ==> q == q' && v == v'
  {
    SharedIdExactly(q, v, q', v');
    if p, path, p', path' :| ShareId(q, v, q', v', p, path, p', path') {
      FingerprintInjective(q, v, p, path, q', v', p', path');
    }
  }
}
