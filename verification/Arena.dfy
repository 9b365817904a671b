/** The bump-allocated workspace of the parallel runtime.  Addresses are offsets from the base. */
module Arena {
  const WORD_SIZE: nat := 8
  const PAGE: nat := 4096

  /** The least multiple of a from n on. */
  function AlignUp(n: nat, a: nat): (r: nat)
    ensures a == 0 ==> r == n
    ensures a > 0 ==> n <= r < n + a && r % a == 0
  {
    if a == 0 then n
    else
      var rem := n % a;
      if rem == 0 then n
      else
        NextMultiple(n, a);
        n + (a - rem)
  }

  lemma NextMultiple(n: nat, a: nat)
    requires a > 0
    ensures (n + (a - n % a)) % a == 0
  {
    var k := n / a;
    assert n == a * k + n % a;
    assert n + (a - n % a) == a * (k + 1);
    MultipleMod(k + 1, a);
  }

  lemma MultipleMod(k: nat, a: nat)
    requires a > 0
    ensures (a * k) % a == 0
  {
    var n := a * k;
    var d, r := n / a, n % a;
    assert n == a * d + r;
    if d < k {
      MulStrict(a, d, k);
    }
  }

  lemma {:induction false} MulStrict(a: nat, x: nat, y: nat)
    requires x < y
    ensures a * x + a <= a * y
  {
    if y > x + 1 {
      MulStrict(a, x, y - 1);
    }
    assert a * y == a * (y - 1) + a;
  }

  datatype Block = Block(start: nat, size: nat, align: nat)

  function Effective(align: nat): nat { if align < WORD_SIZE then WORD_SIZE else align }

  /** The blocks lie one after the other below limit, each on a multiple of its alignment. */
  ghost predicate WellPlaced(blocks: seq<Block>, limit: nat) {
    && (forall i :: 0 <= i < |blocks| ==>
          && blocks[i].size > 0 && blocks[i].start + blocks[i].size <= limit
          && blocks[i].start % Effective(blocks[i].align) == 0)
    && (forall i, j :: 0 <= i < j < |blocks| ==> blocks[i].start + blocks[i].size <= blocks[j].start)
  }

  lemma PlaceNext(blocks: seq<Block>, limit: nat, b: Block)
    requires WellPlaced(blocks, limit) && limit <= b.start && b.size > 0 && b.start % Effective(b.align) == 0
    ensures WellPlaced(blocks + [b], b.start + b.size)
  {}

  class Workspace {
    var mem: array<int>
    var hasBase: bool
    var offset: nat
    ghost var blocks: seq<Block>

    ghost predicate Valid()
      reads this
    {
      WellPlaced(blocks, offset) && offset <= mem.Length && (!hasBase ==> blocks == [])
    }

    /** Opening with zero bytes leaves the workspace without a base. */
    constructor (bytes: nat)
      ensures Valid() && fresh(mem) && blocks == [] && offset == 0
      ensures hasBase == (bytes > 0) && mem.Length == AlignUp(bytes, PAGE)
    {
      mem := new int[AlignUp(bytes, PAGE)](_ => 0);
      hasBase := bytes > 0;
      offset := 0;
      blocks := [];
    }

    /** Returns the offset of a zeroed block, or -1.  A block is refused only when there is no
        base, nothing is asked for, or it does not fit above the blocks already given out. */
    method Alloc(bytes: nat, align: nat) returns (p: int)
      requires Valid()
      modifies this`offset, this`blocks, mem
      ensures Valid() && mem == old(mem)
      ensures p < 0 <==> !hasBase || bytes == 0 || AlignUp(old(offset), Effective(align)) + bytes > mem.Length
      ensures p < 0 ==> offset == old(offset) && blocks == old(blocks) && mem[..] == old(mem[..])
      ensures p >= 0 ==>
        && p == AlignUp(old(offset), Effective(align)) && offset == p + bytes
        && blocks == old(blocks) + [Block(p, bytes, align)]
        && forall i :: 0 <= i < mem.Length ==> mem[i] == if p <= i < p + bytes then 0 else old(mem[i])
    {
      if !hasBase || bytes == 0 { return -1; }
      var off := AlignUp(offset, if align < WORD_SIZE then WORD_SIZE else align);
      if off > mem.Length || bytes > mem.Length - off { return -1; }
      PlaceNext(blocks, offset, Block(off, bytes, align));
      blocks := blocks + [Block(off, bytes, align)];
      offset := off + bytes;
      for i := off to off + bytes
        invariant offset == off + bytes && mem == old(mem) && blocks == old(blocks) + [Block(off, bytes, align)]
        invariant forall k :: 0 <= k < mem.Length ==> mem[k] == if off <= k < i then 0 else old(mem[k])
      {
        mem[i] := 0;
      }
      return off;
    }
  }

  /** Zeroing a new block never touches a byte of an earlier one. */
  lemma BlocksDisjoint(blocks: seq<Block>, limit: nat, i: nat, j: nat, x: nat)
    requires WellPlaced(blocks, limit) && i < |blocks| && j < |blocks| && i != j
    requires blocks[i].start <= x < blocks[i].start + blocks[i].size
    ensures !(blocks[j].start <= x < blocks[j].start + blocks[j].size)
  {
    if i < j { assert blocks[i].start + blocks[i].size <= blocks[j].start; }
  }

  /** The workspace the parallel runtime asks for: k worker records, results, thread handles and
      launch flags, and one spare page. */
  function WorkspaceBytes(k: nat, ctx: nat, result: nat, tid: nat, flag: nat): nat {
    k * ctx + k * result + k * tid + k * flag + PAGE
  }

  /** The four allocations always succeed, so the "workspace too small" fallback is never taken. */
  method AllocWorkers(ws: Workspace, k: nat, ctx: nat, result: nat, tid: nat, flag: nat)
    returns (workers: int, results: int, tids: int, launched: int)
    requires ws.Valid() && ws.hasBase && ws.offset == 0 && k > 0 && ctx > 0 && result > 0 && tid > 0 && flag > 0
    requires ws.mem.Length >= WorkspaceBytes(k, ctx, result, tid, flag)
    modifies ws, ws.mem
    ensures workers >= 0 && results >= 0 && tids >= 0 && launched >= 0
    ensures ws.Valid() && ws.blocks == old(ws.blocks) +
      [Block(workers, k * ctx, WORD_SIZE), Block(results, k * result, WORD_SIZE),
       Block(tids, k * tid, WORD_SIZE), Block(launched, k * flag, 4)]
  {
    Positive(k, ctx);
    Positive(k, result);
    Positive(k, tid);
    Positive(k, flag);
    workers := ws.Alloc(k * ctx, WORD_SIZE);
    results := ws.Alloc(k * result, WORD_SIZE);
    tids := ws.Alloc(k * tid, WORD_SIZE);
    launched := ws.Alloc(k * flag, 4);
  }

  lemma Positive(x: nat, y: nat)
    requires x > 0 && y > 0
    ensures x * y > 0
  {}
}
