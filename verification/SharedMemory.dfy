/** The workers in one memory.  Each writes its own stack, its record and its table, and these lie in
    slots of two arena blocks; so no write disturbs another worker's job, and every sequence of writes
    amounts to a schedule of whole rounds. */
module SharedMemory {
  import opened BreadthFirst
  import opened Parallel
  import opened Interleaving
  import opened Arena

  /** Where the workers' records and result tables lie, and how large each is. */
  datatype Layout = Layout(k: nat, records: nat, record: nat, tables: nat, table: nat)

  /** The memory all workers see, and each one's stack. */
  datatype Machine<L> = Machine(mem: seq<int>, stacks: seq<L>)

  function SlotStart(base: nat, size: nat, i: nat): nat { base + size * i }

  predicate InSlot(base: nat, size: nat, i: nat, x: int) {
    SlotStart(base, size, i) <= x < SlotStart(base, size, i) + size
  }

  predicate LaidOut<L>(l: Layout, m: Machine<L>) {
    && |m.stacks| == l.k
    && l.records + l.record * l.k <= l.tables && l.tables + l.table * l.k <= |m.mem|
  }

  /** The blocks that AllocWorkers gets leave that room. */
  lemma BlocksFit<L>(l: Layout, m: Machine<L>, blocks: seq<Block>, limit: nat)
    requires WellPlaced(blocks, limit) && limit <= |m.mem| && |m.stacks| == l.k && |blocks| >= 2
    requires blocks[0].start == l.records && blocks[0].size == l.k * l.record
    requires blocks[1].start == l.tables && blocks[1].size == l.k * l.table
    ensures LaidOut(l, m)
  {
    assert blocks[0].start + blocks[0].size <= blocks[1].start;
  }

  lemma SlotInside(base: nat, size: nat, i: nat, k: nat)
    requires i < k
    ensures base <= SlotStart(base, size, i) && SlotStart(base, size, i) + size <= base + size * k
  {
    MulStrict(size, i, k);
  }

  lemma SlotsApart(base: nat, size: nat, i: nat, j: nat, x: int)
    requires InSlot(base, size, i, x) && InSlot(base, size, j, x)
    ensures i == j
  {
    if i < j { MulStrict(size, i, j); }
    if j < i { MulStrict(size, j, i); }
  }

  function Slot(mem: seq<int>, base: nat, size: nat, i: nat): seq<int>
    requires SlotStart(base, size, i) + size <= |mem|
  {
    mem[SlotStart(base, size, i)..SlotStart(base, size, i) + size]
  }

  /** The job worker i is at, for any reading of its stack, record and table. */
  function JobAt<L>(l: Layout, read: (L, seq<int>, seq<int>) -> Job, m: Machine<L>, i: nat): Job
    requires LaidOut(l, m) && i < l.k
  {
    SlotInside(l.records, l.record, i, l.k);
    SlotInside(l.tables, l.table, i, l.k);
    read(m.stacks[i], Slot(m.mem, l.records, l.record, i), Slot(m.mem, l.tables, l.table, i))
  }

  function Jobs<L>(l: Layout, read: (L, seq<int>, seq<int>) -> Job, m: Machine<L>): (js: seq<Job>)
    requires LaidOut(l, m)
    ensures |js| == l.k && forall i :: 0 <= i < l.k ==> js[i] == JobAt(l, read, m, i)
  {
    seq(l.k, i requires 0 <= i < l.k => JobAt(l, read, m, i))
  }

  /** Worker i writes to nothing but its stack, its record and its table. */
  predicate OwnWrite<L(==)>(l: Layout, i: nat, m: Machine<L>, m': Machine<L>) {
    && |m'.mem| == |m.mem| && |m'.stacks| == |m.stacks|
    && (forall j :: 0 <= j < |m.stacks| && j != i ==> m'.stacks[j] == m.stacks[j])
    && (forall x :: 0 <= x < |m.mem| && !InSlot(l.records, l.record, i, x) && !InSlot(l.tables, l.table, i, x) ==> m'.mem[x] == m.mem[x])
  }

  /** Such a write, which leaves the worker at its job or completes a round of it. */
  predicate Writes<L(==)>(inp: Input, l: Layout, read: (L, seq<int>, seq<int>) -> Job, i: nat, m: Machine<L>, m': Machine<L>)
    requires LaidOut(l, m)
  {
    && i < l.k && OwnWrite(l, i, m, m')
    && var j, j' := JobAt(l, read, m, i), JobAt(l, read, m', i);
       j' == j || (Valid(inp, j) && j' == j.(phase := Advanced(inp, j)))
  }

  lemma SlotKept(mem: seq<int>, mem': seq<int>, base: nat, size: nat, j: nat)
    requires |mem'| == |mem| && SlotStart(base, size, j) + size <= |mem|
    requires forall x :: 0 <= x < |mem| && InSlot(base, size, j, x) ==> mem'[x] == mem[x]
    ensures Slot(mem', base, size, j) == Slot(mem, base, size, j)
  {
    var a, b, s := Slot(mem, base, size, j), Slot(mem', base, size, j), SlotStart(base, size, j);
    forall n | 0 <= n < size ensures b[n] == a[n] {
      assert InSlot(base, size, j, s + n);
      assert a[n] == mem[s + n] && b[n] == mem'[s + n];
    }
  }

  /** No worker disturbs another's job. */
  lemma Undisturbed<L>(l: Layout, read: (L, seq<int>, seq<int>) -> Job, m: Machine<L>, m': Machine<L>, i: nat, j: nat)
    requires LaidOut(l, m) && OwnWrite(l, i, m, m') && i < l.k && j < l.k && i != j
    ensures JobAt(l, read, m', j) == JobAt(l, read, m, j)
  {
    hide InSlot, SlotStart, Slot;
    SlotInside(l.records, l.record, j, l.k);
    SlotInside(l.tables, l.table, j, l.k);
    forall x | 0 <= x < |m.mem| && (InSlot(l.records, l.record, j, x) || InSlot(l.tables, l.table, j, x)) ensures m'.mem[x] == m.mem[x] {
      SlotsOfOthers(l, m, i, j, x);
    }
    SlotKept(m.mem, m'.mem, l.records, l.record, j);
    SlotKept(m.mem, m'.mem, l.tables, l.table, j);
  }

  lemma SlotsOfOthers<L>(l: Layout, m: Machine<L>, i: nat, j: nat, x: int)
    requires LaidOut(l, m) && i < l.k && j < l.k && i != j
    requires InSlot(l.records, l.record, j, x) || InSlot(l.tables, l.table, j, x)
    ensures !InSlot(l.records, l.record, i, x) && !InSlot(l.tables, l.table, i, x)
  {
    SlotInside(l.records, l.record, i, l.k);
    SlotInside(l.tables, l.table, i, l.k);
    SlotInside(l.records, l.record, j, l.k);
    SlotInside(l.tables, l.table, j, l.k);
    if InSlot(l.records, l.record, i, x) && InSlot(l.records, l.record, j, x) { SlotsApart(l.records, l.record, i, j, x); }
    if InSlot(l.tables, l.table, i, x) && InSlot(l.tables, l.table, j, x) { SlotsApart(l.tables, l.table, i, j, x); }
  }

  /** The machines of a run, and who wrote from one to the next. */
  predicate IsRun<L(==)>(inp: Input, l: Layout, read: (L, seq<int>, seq<int>) -> Job, ms: seq<Machine<L>>, who: seq<nat>) {
    && |ms| == |who| + 1
    && (forall t :: 0 <= t < |ms| ==> LaidOut(l, ms[t]))
    && forall t :: 0 <= t < |who| ==> Writes(inp, l, read, who[t], ms[t], ms[t + 1])
  }

  /** One write leaves all jobs as they are, or is a step of one of them. */
  lemma WriteIsStep<L>(inp: Input, l: Layout, read: (L, seq<int>, seq<int>) -> Job, i: nat, m: Machine<L>, m': Machine<L>)
    requires LaidOut(l, m) && Writes(inp, l, read, i, m, m')
    ensures i < l.k && LaidOut(l, m')
    ensures var js, js' := Jobs(l, read, m), Jobs(l, read, m');
      js' == js || (Valid(inp, js[i]) && js' == StepOf(inp, js, i))
  {
    hide JobAt, Advanced;
    assert LaidOut(l, m');
    forall j | 0 <= j < l.k && j != i ensures Jobs(l, read, m')[j] == Jobs(l, read, m)[j] { Undisturbed(l, read, m, m', i, j); }
  }

  /** Every run of writes has the effect of a schedule of rounds. */
  lemma {:induction false} WritesAreSchedule<L>(inp: Input, l: Layout, read: (L, seq<int>, seq<int>) -> Job, ms: seq<Machine<L>>, who: seq<nat>)
    returns (schedule: seq<nat>)
    requires IsRun(inp, l, read, ms, who) && AllValid(inp, Jobs(l, read, ms[0]))
    ensures Leads(inp, Jobs(l, read, ms[0]), schedule, Jobs(l, read, ms[|who|]))
    decreases |who|
  {
    hide Writes, JobAt, Valid, StepOf;
    schedule := [];
    if who != [] {
      var js, js' := Jobs(l, read, ms[0]), Jobs(l, read, ms[1]);
      WriteIsStep(inp, l, read, who[0], ms[0], ms[1]);
      if js' != js { assert js' == Kept(inp, js, who[0]); }
      var rest := WritesAreSchedule(inp, l, read, ms[1..], who[1..]);
      schedule := if js' == js then rest else [who[0]] + rest;
      assert schedule != rest ==> schedule[1..] == rest;
    }
  }

  /** Whatever the order of the writes, the workers' memories end with the outcome of the parallel
      run; and with that of sequential H-CET, if that one loses nothing. */
  lemma WritesAgree<L>(inp: Input, l: Layout, read: (L, seq<int>, seq<int>) -> Job, ms: seq<Machine<L>>, who: seq<nat>)
    requires IsRun(inp, l, read, ms, who)
    requires ShardJobs(inp, Jobs(l, read, ms[0])) && AllDone(Jobs(l, read, ms[|who|]))
    ensures var o, n := JobsOutcome(inp.lim, Jobs(l, read, ms[|who|])), |inp.g.vertices|;
      && o == ParallelOutcome(inp.g, inp.q, inp.lim, inp.switchDepth, l.k)
      && var h := HcetOutcome(inp.g, inp.q, inp.lim, inp.switchDepth, 0, n);
         (|inp.q.steps| > 0 && inp.lim.maxPathLen >= 1 && !h.c.overflow ==> multiset(o.paths) == multiset(h.paths) && o.c == h.c)
  {
    hide Writes, JobAt, ParallelOutcome, HcetOutcome;
    var js := Jobs(l, read, ms[0]);
    assert AllValid(inp, js);
    var schedule := WritesAreSchedule(inp, l, read, ms, who);
    AnySchedule(inp, js, schedule, Jobs(l, read, ms[|who|]));
    if |inp.q.steps| > 0 && inp.lim.maxPathLen >= 1 && !HcetOutcome(inp.g, inp.q, inp.lim, inp.switchDepth, 0, |inp.g.vertices|).c.overflow {
      AnyScheduleIsSequential(inp, js, schedule, Jobs(l, read, ms[|who|]));
    }
  }
}
