/** Sliding windows over a time span, and what is shared between two shifted sets of them. */
module Windows {
  datatype Window = Window(startMs: int, endMs: int)

  /** How many windows a span holds, at most cap of them.  A slide that does not advance fills the
      buffer with whatever fits first. */
  function WindowCount(start: int, end: int, within: int, slide: int, cap: nat): (n: nat)
    ensures n <= cap
  {
    if end - start < within then 0
    else if slide <= 0 then cap
    else
      var all := (end - start - within) / slide + 1;
      if all < cap then all else cap
  }

  function WindowAt(start: int, within: int, slide: int, k: int): Window {
    Window(start + k * slide, start + k * slide + within)
  }

  /** The k-th window fits the span exactly for k below the count. */
  lemma WindowFits(start: int, end: int, within: int, slide: int, k: nat)
    requires end - start >= within && slide > 0
    ensures start + k * slide + within <= end <==> k < (end - start - within) / slide + 1
  {
    var room := end - start - within;
    var n := room / slide;
    assert room == n * slide + room % slide;
    if k <= n {
      Multiples(k, n, slide);
    } else {
      Multiples(n + 1, k, slide);
    }
  }

  lemma Multiples(a: int, b: int, m: int)
    requires a <= b && m >= 0
    ensures a * m <= b * m
  {}

  method MaterializeWindows(start: int, end: int, within: int, slide: int, out: array<Window>) returns (n: nat)
    modifies out
    ensures n == WindowCount(start, end, within, slide, out.Length)
    ensures forall k :: 0 <= k < n ==> out[k] == WindowAt(start, within, slide, k)
    ensures forall k :: n <= k < out.Length ==> out[k] == old(out[k])
  {
    n := 0;
    var t := start;
    while t + within <= end && n < out.Length
      invariant n <= out.Length && t == start + n * slide
      invariant n > 0 ==> start + (n - 1) * slide + within <= end && start + within <= end
      invariant forall k :: 0 <= k < n ==> out[k] == WindowAt(start, within, slide, k)
      invariant forall k :: n <= k < out.Length ==> out[k] == old(out[k])
      decreases out.Length - n
    {
      out[n] := Window(t, t + within);
      t := t + slide;
      n := n + 1;
    }
    CountReached(start, end, within, slide, out.Length, n);
  }

  lemma CountReached(start: int, end: int, within: int, slide: int, cap: nat, n: nat)
    requires n <= cap && (n < cap ==> start + n * slide + within > end)
    requires n > 0 ==> start + (n - 1) * slide + within <= end && start + within <= end
    ensures n == WindowCount(start, end, within, slide, cap)
  {
    if end - start >= within {
      if slide > 0 {
        WindowFits(start, end, within, slide, n);
        if n > 0 { WindowFits(start, end, within, slide, n - 1); }
      } else {
        Multiples(0, n, -slide);
      }
    }
  }

  predicate Covers(w: Window, x: int, y: int) { w.startMs <= x && y <= w.endMs }

  /** Every interval of this length, from the start to the end of the last window, lies in one window. */
  ghost predicate AllCovered(start: int, within: int, slide: int, n: nat, length: int) {
    forall x: int :: start <= x && x + length <= WindowAt(start, within, slide, n - 1).endMs ==>
      SomeCovers(start, within, slide, n, x, length)
  }

  ghost predicate SomeCovers(start: int, within: int, slide: int, n: nat, x: int, length: int) {
    exists k :: 0 <= k < n && Covers(WindowAt(start, within, slide, k), x, x + length)
  }

  /** With two windows or more, every interval of a given length up to the end of the last window lies
      in one window exactly when it is at most within - slide + 1 long. */
  lemma CoverageExact(start: int, within: int, slide: int, n: nat, length: nat)
    requires n >= 2 && slide > 0 && start + length <= WindowAt(start, within, slide, n - 1).endMs
    ensures AllCovered(start, within, slide, n, length) <==> length <= within - slide + 1
  {
    if length <= within - slide + 1 {
      forall x: int | start <= x && x + length <= WindowAt(start, within, slide, n - 1).endMs
        ensures SomeCovers(start, within, slide, n, x, length)
      {
        LiesInOne(start, within, slide, n, x, length);
      }
    } else {
      var x := if length > within then start else start + slide - 1;
      Multiples(1, n - 1, slide);
      MissedByAll(start, within, slide, n, x, length);
    }
  }

  lemma LiesInOne(start: int, within: int, slide: int, n: nat, x: int, length: int)
    requires n >= 1 && slide > 0 && start <= x && length <= within - slide + 1
    requires x + length <= WindowAt(start, within, slide, n - 1).endMs
    ensures SomeCovers(start, within, slide, n, x, length)
  {
    var f := (x - start) / slide;
    assert x - start == f * slide + (x - start) % slide;
    var k := if f < n then f else n - 1;
    if f >= n { Multiples(n - 1, f, slide); }
    assert Covers(WindowAt(start, within, slide, k), x, x + length);
  }

  lemma MissedByAll(start: int, within: int, slide: int, n: nat, x: int, length: int)
    requires slide > 0 && (length > within || (x == start + slide - 1 && x + length > start + within))
    ensures !SomeCovers(start, within, slide, n, x, length)
  {
    forall k | 0 <= k < n ensures !Covers(WindowAt(start, within, slide, k), x, x + length) {
      if k > 0 { Multiples(1, k, slide); }
    }
  }

  // ---- What changed between two sets of windows ----

  predicate Occurs(w: Window, ws: seq<Window>) {
    exists j :: 0 <= j < |ws| && ws[j] == w
  }

  /** The positions of the windows that do, or do not, occur in the other set, in order. */
  function Positions(ws: seq<Window>, other: seq<Window>, occurring: bool): seq<nat> {
    if ws == [] then []
    else
      Positions(ws[..|ws| - 1], other, occurring)
      + if Occurs(ws[|ws| - 1], other) == occurring then [|ws| - 1] else []
  }

  datatype Delta = Delta(shared: seq<nat>, added: seq<nat>, expired: seq<nat>)

  method ClassifyDelta(prev: seq<Window>, curr: seq<Window>) returns (d: Delta)
    ensures d == Delta(Positions(curr, prev, true), Positions(curr, prev, false), Positions(prev, curr, false))
  {
    var shared: seq<nat>, added: seq<nat>, expired: seq<nat> := [], [], [];
    for i := 0 to |curr|
      invariant shared == Positions(curr[..i], prev, true) && added == Positions(curr[..i], prev, false)
    {
      var found := Search(curr[i], prev);
      assert curr[..i + 1][..i] == curr[..i];
      if found { shared := shared + [i]; } else { added := added + [i]; }
    }
    assert curr[..|curr|] == curr;
    for j := 0 to |prev|
      invariant expired == Positions(prev[..j], curr, false)
    {
      var found := Search(prev[j], curr);
      assert prev[..j + 1][..j] == prev[..j];
      if !found { expired := expired + [j]; }
    }
    assert prev[..|prev|] == prev;
    d := Delta(shared, added, expired);
  }

  method Search(w: Window, ws: seq<Window>) returns (found: bool)
    ensures found == Occurs(w, ws)
  {
    for j := 0 to |ws|
      invariant forall k :: 0 <= k < j ==> ws[k] != w
    {
      if w == ws[j] { return true; }
    }
    return false;
  }

  /** A position is listed exactly when its window does, or does not, occur; and once. */
  lemma {:induction false} PositionsExact(ws: seq<Window>, other: seq<Window>, occurring: bool, i: nat)
    ensures i in Positions(ws, other, occurring) <==>
      i < |ws| && ((exists j :: 0 <= j < |other| && other[j].startMs == ws[i].startMs && other[j].endMs == ws[i].endMs) <==> occurring)
    ensures forall a, b :: 0 <= a < b < |Positions(ws, other, occurring)| ==>
      Positions(ws, other, occurring)[a] < Positions(ws, other, occurring)[b] < |ws|
    ensures forall a :: 0 <= a < |Positions(ws, other, occurring)| ==> Positions(ws, other, occurring)[a] < |ws|
  {
    hide Occurs;
    if i < |ws| { OccursMeans(ws[i], other); }
    if ws != [] { PositionsExact(ws[..|ws| - 1], other, occurring, i); }
  }

  lemma OccursMeans(w: Window, ws: seq<Window>)
    ensures Occurs(w, ws) <==> exists j :: 0 <= j < |ws| && ws[j].startMs == w.startMs && ws[j].endMs == w.endMs
  {
    if j :| 0 <= j < |ws| && ws[j].startMs == w.startMs && ws[j].endMs == w.endMs { assert ws[j] == w; }
  }

  function WindowsOf(start: int, within: int, slide: int, n: nat): (ws: seq<Window>)
    ensures |ws| == n && forall k :: 0 <= k < n ==> ws[k] == WindowAt(start, within, slide, k)
  {
    seq(n, k requires 0 <= k < n => WindowAt(start, within, slide, k))
  }

  function Range(from: nat, to: nat): (s: seq<nat>)
    requires from <= to
    ensures |s| == to - from && forall k :: 0 <= k < |s| ==> s[k] == from + k
  {
    seq(to - from, k requires 0 <= k < to - from => from + k)
  }

  /** The later set's window i is the earlier set's window i + k. */
  lemma ShiftedOccurs(start: int, within: int, slide: int, n: nat, k: nat, i: nat)
    requires slide > 0 && k <= n && i < n
    ensures Occurs(WindowAt(start + k * slide, within, slide, i), WindowsOf(start, within, slide, n)) <==> i < n - k
    ensures Occurs(WindowAt(start, within, slide, i), WindowsOf(start + k * slide, within, slide, n)) <==> i >= k
  {
    var a, b := WindowsOf(start, within, slide, n), WindowsOf(start + k * slide, within, slide, n);
    SameStep(start, within, slide, k, i);
    if i < n - k { assert a[i + k] == b[i]; }
    if i >= k { SameStep(start, within, slide, k, i - k); assert b[i - k] == a[i]; }
    forall j | 0 <= j < n && a[j] == b[i] ensures j == i + k { SameMultiple(j, i + k, slide); }
    forall j | 0 <= j < n && b[j] == a[i] ensures i == j + k { SameStep(start, within, slide, k, j); SameMultiple(j + k, i, slide); }
  }

  lemma SameStep(start: int, within: int, slide: int, k: int, i: int)
    ensures WindowAt(start + k * slide, within, slide, i) == WindowAt(start, within, slide, i + k)
  {
    assert (i + k) * slide == i * slide + k * slide;
  }

  lemma SameMultiple(a: int, b: int, m: int)
    requires m > 0 && a * m == b * m
    ensures a == b
  {
    if a < b { Multiples(a + 1, b, m); }
    if b < a { Multiples(b + 1, a, m); }
  }

  /** The positions of the windows below a bound, or from it on. */
  lemma {:induction false} PositionsRange(ws: seq<Window>, other: seq<Window>, occurring: bool, from: nat, to: nat)
    requires from <= to <= |ws|
    requires forall i :: 0 <= i < |ws| ==> (Occurs(ws[i], other) == occurring <==> from <= i < to)
    ensures Positions(ws, other, occurring) == Range(from, to)
  {
    if ws != [] {
      var n := |ws| - 1;
      var init := ws[..n];
      forall i | 0 <= i < n ensures Occurs(init[i], other) == occurring <==> from <= i < to { assert init[i] == ws[i]; }
      if from <= n < to {
        PositionsRange(init, other, occurring, from, n);
        assert Range(from, to) == Range(from, n) + [n];
      } else {
        var top := if to > n then n else to;
        var low := if from > n then n else from;
        PositionsRange(init, other, occurring, low, top);
        assert Range(from, to) == Range(low, top);
      }
    }
  }

  /** Shifting a span by k slides keeps n - k windows, brings k new ones at the end and drops the
      first k. */
  lemma ShiftedDelta(start: int, end: int, within: int, slide: int, cap: nat, k: nat)
    requires slide > 0 && k <= WindowCount(start, end, within, slide, cap)
    ensures var n := WindowCount(start, end, within, slide, cap);
      var prev, curr := WindowsOf(start, within, slide, n), WindowsOf(start + k * slide, within, slide, n);
      && WindowCount(start + k * slide, end + k * slide, within, slide, cap) == n
      && Positions(curr, prev, true) == Range(0, n - k)
      && Positions(curr, prev, false) == Range(n - k, n)
      && Positions(prev, curr, false) == Range(0, k)
  {
    var n := WindowCount(start, end, within, slide, cap);
    var prev, curr := WindowsOf(start, within, slide, n), WindowsOf(start + k * slide, within, slide, n);
    forall i | 0 <= i < n
      ensures Occurs(curr[i], prev) <==> i < n - k
      ensures Occurs(prev[i], curr) <==> i >= k
    {
      ShiftedOccurs(start, within, slide, n, k, i);
    }
    PositionsRange(curr, prev, true, 0, n - k);
    PositionsRange(curr, prev, false, n - k, n);
    PositionsRange(prev, curr, false, 0, k);
  }
}
