# CET: verified models

CET finds *trends*, chains of security events that match a sequence pattern inside a time window. This project
models the parts of it that compute something declarative by incremental, parallel or pruned means, and proves that
they compute it.

**The native matcher** (`TrendGraph` to `DuplicateIds`, `EdgeRules`, `SearchOrder`). A *run* is one way to walk the event graph: a start vertex, then
one edge at a time with the matcher's choice there (stay on a repeated step, advance, skip). `Partial` and `Accepting`
say which runs are allowed; they mention no queue, recursion or capacity. The three executors M-CET (depth first), T-CET
(breadth first with a fixed queue) and H-CET (breadth first over a query prefix, then depth first from each seed) are
methods over the C buffers, proved against functions that describe their outcome, and these against the runs: without
overflow each emits one path per accepting run, so they agree; overflow is reported exactly when something did not fit;
and what is emitted under overflow is still real. Where H-CET resumes seeds this needs the ids of start vertices to
resolve, that is, to lead to a vertex of the same time (unique ids do); what it searches otherwise is spelled out
(`HybridRun`), and the results on its overflow, its counters and its parallel form hold for all ids. `EdgeRules` says all
this once more without runs: which paths are emitted and which edges are rejected, in terms of vertices, edges, times and
steps. `SearchOrder` defines the order of the searches, so that it is settled which paths a full table or queue keeps. The
capacity constants are parameters (`Limits`).

**The parallel runtime** (`Parallel`, `ParallelCounts`, `Interleaving`, `SharedMemory`, `Arena`). Start vertices are dealt to workers. For
any number of workers and any interleaving of their steps, the merged outcome is that of sequential H-CET whenever that one
loses nothing; and so it is for any order of single writes into one memory, because the workers' records and result tables
lie in slots of arena blocks of their own. The arena hands out aligned, disjoint blocks, and the size the runtime asks for
is always enough.

**The standing runtime** (`Matcher` to `Snapshots`). A mutable graph with mirrored edge indexes, a backtracking matcher,
and an engine that emits positive and cancel events as events come and go. The matcher is exact (`EnumerationExact`) and
lists its derivations once each in an order defined without it (`Derivations`), so the match cap keeps the first ones; the
graph's edges are exact or sound and acyclic after every operation; with cancellations on, folding all that was sent out
always gives the active trends; on calm runs (no event changes partition, no empty partition key) every partition's active trends are those of the
current events, so arrival order does not matter; and what one insertion or removal can do to the trends is stated exactly,
absence clauses included.

**The bridge between the two** (`SecurityGraph`, `GraphCoverage`, `Detection`, `TiedTimes`, `EngineDetection`,
`NativePattern`). The batch graph builder, what of its edges the standing graph has as well, and the theorem that on the
common fragment of the pattern language every native executor detects a start event exactly when the standing matcher does,
with the exact condition on the events under which it does so for every pattern.

**Planning and patterns** (`Optimizer`, `PartialCache`, `Windows`, `Dsl`, `Text`). Branch and bound is optimal, greedy is never
better, windows cover what they should, and printing and parsing patterns undo each other.

## Where the code falls short

Each is stated as a lemma with the exact condition under which the code does what it is for.

- H-CET restarts a seed's clock from the first vertex with its start id. If that vertex has another time, H-CET can lose
  accepting runs (`DuplicateIds.HcetLosesPath`) and emit paths of no run at all (`DuplicateIds.HcetInventsPath`), without
  reporting overflow. The engines agree on a graph and everything that can be added to it exactly when the start ids
  resolve (`DuplicateIds.ResolvingExactly`).
- Moving an event to another partition, or removing one filed under the empty partition key, does not reevaluate the
  partition it leaves: a trend through the event stays active where no event is left (`StandingClash.MovingLeavesStale`).
  If no cap is reached there, and the operation takes over no trend id, that partition stays right exactly when none of
  its active trends runs through the event and no path but those of active trends is forbidden by that event alone
  (`StandingChanges.AbandonedExactly`). The empty key also leaves the id filed (`StandingGraph.RemoveUnfiles`).
- The builder links a child to the latest event of its parent process, though at one time that event may come after the
  child in (time, id) order. The edge then leads back: all native executors detect a child-after-parent pattern there that
  the standing matcher does not find (`EngineDetection.TiedParentDiffers`), and can match one event many times in a circle.
  A gap limit can also cut off a neighbour inside the window. Over the graph built of one partition the engines agree on
  every pattern, for a window that is not negative, exactly when neither happens (`TiedTimes.BuiltAgreesExactly`);
  distinct times rule out the first (`Detection.DistinctTimesSuffice`).
- Colons in names can let two queries share trend ids: exactly when one's text up to the partition is a prefix of the
  other's (`Text.SharedIdExactly`), and for different partitions when it is a proper prefix (`Text.SharedAcrossExactly`).
  In the latter case a trend can be announced while it is active (`StandingClash.LedgerBreaks`), in no other
  (`StandingWorld.ApartRun`), and never on calm runs (`StandingConvergence.CalmTakesNone`). A run's events alternate for
  every trend exactly when no id is taken over (`StandingWorld.TrendsAlternate`, `StandingWorld.AlternationNeeds`).
- A negative window means "no limit" natively and "no match" in the standing runtime (`Detection.NegativeWindow`): for every
  pattern, the engines detect the same on all partitions exactly when the window is not negative (`Detection.WindowExactly`).
- A plain step whose type name ends in `+` or `?` is parsed back as a repeated or optional one; nothing else goes wrong
  for names without metacharacters (`Dsl.PatternRoundTrip`), and likewise on the way to C (`NativePattern.NativeRoundTrip`),
  where in addition steps beyond the capacity are dropped silently.
- A window capacity of 0 keeps every event of a partition, because a slice from -0 is the whole list
  (`Trends.WindowCapped`).

Code and documentation differ in one point that matters here: the query language has `where` predicates, but the standing
runtime never evaluates them. The model follows the code.

## Model

| member | source | states |
|---|---|---|
| TrendGraph.VPosFirst | c_engine/src/algorithms.c:67-72 | a vertex's position is the first one holding its id, and -1 only if none does |
| TrendGraph.EdgeChildrenExact | c_engine/src/algorithms.c:202-213 | the continuations of a run over one edge are exactly the allowed choices there |
| TrendGraph.ChildrenExact | c_engine/src/algorithms.c:198-214 | the successors the search enumerates are exactly the allowed steps, without repeats |
| SearchSpec.VisitExact | c_engine/src/algorithms.c:172-215 | depth-first search visits every continuation of a run up to the length limit, once, and nothing else |
| Adjacency.BuildAdj | c_engine/src/algorithms.c:157-170 | each chain of the linked index lists exactly the edges leaving its vertex, newest first, with their targets and windows |
| Adjacency.VertexPosition | c_engine/src/algorithms.c:60-72 | the scan returns the first position holding the id, or -1 |
| Executors.EmitEx | c_engine/src/algorithms.c:74-90 | a path is stored and counted, or, when the table is full or the path too long, counted as truncated with overflow set |
| Executors.EdgeTemporalOk | c_engine/src/algorithms.c:92-131 | true exactly when both ends exist, times ascend, WITHIN holds and the edge window contains both; otherwise one reject of the right kind (EdgeRules.RejectMeans says which, in terms of times) |
| Executors.TypeAndPredMatch | c_engine/src/algorithms.c:133-155 | true exactly when the vertex has the step's type and the predicate accepts; otherwise one predicate reject |
| Executors.ExecStats.Merge | c_engine/src/algorithms.c:39-54 | counters add up, depth is the maximum, overflow sticks (ParallelCounts.ParallelAddsUp says so of whole runs) |
| Executors.Dfs | c_engine/src/algorithms.c:172-215 | recursing over one shared path buffer leaves the outcome of visiting the run's whole subtree in order, and the buffer's prefix intact |
| Executors.FollowEdges | c_engine/src/algorithms.c:198-214 | following a chain to its end accounts for every edge left on it |
| Executors.FollowEdge | c_engine/src/algorithms.c:199-213 | one edge is rejected, or its choices are searched in the code's order |
| Engines.StateQueue.Enqueue | c_engine/src/algorithms.c:217-228 | a state is queued, or counted as truncated exactly when the queue is full |
| Engines.ExpandEdge | c_engine/src/algorithms.c:312-346 | one edge of a popped state queues exactly its allowed continuations |
| Engines.PopOne | c_engine/src/algorithms.c:300-347 | a popped state is emitted if finished, and otherwise expanded |
| Engines.EnqueueStarts | c_engine/src/algorithms.c:288-298 | the start states of the vertex range are queued in order |
| Engines.Tcet | c_engine/src/algorithms.c:254-351 | the array queue with head and tail computes the breadth-first outcome of the vertex range |
| Engines.Mcet | c_engine/src/algorithms.c:230-252 | the loop over start vertices computes the depth-first outcome |
| Engines.Hcet | c_engine/src/algorithms.c:357-425 | the two phases compute the hybrid outcome, for every switch depth |
| Engines.EmitSeeds | c_engine/src/algorithms.c:402-417 | with nothing left to match, every seed is emitted |
| Engines.SearchSeed | c_engine/src/algorithms.c:403-420 | a seed is searched from its own path and its first vertex's time |
| Engines.SearchSeeds | c_engine/src/algorithms.c:402-421 | the seeds are searched one after the other |
| BreadthFirstFacts.TraceFacts | c_engine/src/algorithms.c:300-347 | the queue only ever holds distinct real runs, shortest first; runs are turned away only for lack of room; if none was, the queue is closed under successors |
| Agreement.SameRunsSameTally | c_engine/src/algorithms.c:172-425 | paths, rejects and depth depend on which runs were searched, not on the order |
| Agreement.OnePathPerAcceptingRun | c_engine/src/algorithms.c:74-90 | a complete search emits one path for each accepting run, with multiplicity |
| Agreement.CompleteSearchesAgree | c_engine/src/algorithms.c:172-425 | two complete searches have the same multiset of paths, rejects and depth |
| Agreement.TcetComplete | c_engine/src/algorithms.c:254-351 | T-CET without overflow has searched every run of its range once and lost nothing |
| Agreement.AfterAllVisited | c_engine/src/algorithms.c:172-215 | what a depth-first visit adds to every counter, with or without room |
| NativeTheorems.TcetOverflowExact | c_engine/src/algorithms.c:217-351 | T-CET reports overflow exactly when the range's runs do not fit queue and path buffers |
| NativeTheorems.RootsExact | c_engine/src/algorithms.c:242-247 | searching several unrelated roots visits what they reach, each once |
| NativeTheorems.NothingDeeper | c_engine/src/algorithms.c:183-187 | if no visited run hits the length limit, nothing reachable was cut off |
| NativeTheorems.McetComplete | c_engine/src/algorithms.c:230-252 | M-CET without overflow has searched every run once and lost nothing |
| NativeTheorems.McetOverflowExact | c_engine/src/algorithms.c:172-252 | M-CET reports overflow exactly when some run is too long or the results do not fit |
| EdgeRules.ChildIsHop | c_engine/src/algorithms.c:92-155 | an allowed step of a run goes over an edge between the first vertices with its two ids, forward in time, within the limit, inside the edge's window if one is set, and matches or skips as the step's type and predicate, given the previous and then the current id, say |
| EdgeRules.HopIsChild | c_engine/src/algorithms.c:92-155 | and whatever goes over an edge so is an allowed step |
| EdgeRules.RejectMeans | c_engine/src/algorithms.c:92-155 | an edge raises the temporal, the window or the predicate counter by one, exactly when timing, else the window, else type or predicate keep the run from matching its end |
| EdgeRules.RejectsCounted | c_engine/src/algorithms.c:198-214 | the three reject counters are the numbers of edges at fault that way, over all searched runs |
| HybridTheorems.PrefixPartial | c_engine/src/algorithms.c:375-385 | the runs of the prefix query are the runs of the query up to where they first complete it |
| HybridTheorems.FirstReached | c_engine/src/algorithms.c:375-421 | every run past the prefix continues one finished run of the prefix query |
| HybridTheorems.FirstUnique | c_engine/src/algorithms.c:375-421 | a run first reaches the prefix length at one point only |
| HybridTheorems.RebaseInjective | c_engine/src/algorithms.c:403-420 | two seeds are still two after their clocks are restarted |
| HybridTheorems.ResumedFacts | c_engine/src/algorithms.c:403-420 | a run resumed from a seed keeps its origin and determines the seed, so none is searched twice |
| HybridTheorems.HybridIsPartial | c_engine/src/algorithms.c:419-420 | when no seed is resumed or the start ids resolve, the runs H-CET searches are the runs of the query |
| HybridTheorems.HybridRunsExact | c_engine/src/algorithms.c:375-421 | the two phases together search every run, as H-CET takes them, once |
| HybridTheorems.HcetComplete | c_engine/src/algorithms.c:357-425 | whatever the ids, H-CET without overflow has searched once every run of its range as it takes them and lost nothing; when no seed is resumed or the start ids resolve these are the runs of the query |
| HybridTheorems.HcetOverflowExact | c_engine/src/algorithms.c:357-425 | whatever the ids, H-CET reports overflow exactly when one of its two phases runs out of room |
| HybridTheorems.McetTcetAgree | c_engine/src/algorithms.c:172-351 | M-CET and T-CET, if neither overflows, emit the same multiset of paths and report the same rejects and depth, whatever the ids |
| HybridTheorems.TcetHcetAgree | c_engine/src/algorithms.c:254-425 | so do T-CET and H-CET on every range of start vertices, when no seed is resumed or the start ids resolve |
| HybridTheorems.McetHcetAgree | c_engine/src/algorithms.c:172-425 | and M-CET and H-CET |
| HybridTheorems.EnginesAgree | c_engine/src/algorithms.c:172-425 | for every switch depth, any two of the three executors that report no overflow emit the same multiset of paths and report the same rejects and depth, provided that no seed is resumed or the start ids resolve |
| EdgeRules.HybridWalks | c_engine/src/algorithms.c:357-425 | whatever the ids, every run H-CET searches is a walk: hop by hop over its path, edges and steps waited for, on the start vertex's clock before the switch and on the first vertex's with its id after it |
| EdgeRules.WalkSearched | c_engine/src/algorithms.c:357-425 | and every walk is one of them |
| EdgeRules.McetEmits | c_engine/src/algorithms.c:230-252 | under any capacities M-CET emits only paths of walks through all steps, and without overflow all of them |
| EdgeRules.TcetEmits | c_engine/src/algorithms.c:254-351 | so does T-CET on every range |
| EdgeRules.HcetEmits | c_engine/src/algorithms.c:357-425 | and H-CET on every range, for all ids and switch depths |
| EdgeRules.ParallelEmits | c_engine/src/parallel_hcet.c:53-194 | and the parallel run, which emits all of them if sequential H-CET does not overflow |
| NoSilentLoss.TcetHonest | c_engine/src/algorithms.c:300-347 | even with overflow: emitted paths are distinct accepting runs in order of length, counted right, and overflow means something was truncated |
| NoSilentLoss.McetHonest | c_engine/src/algorithms.c:183-252 | the same for M-CET |
| NoSilentLoss.HcetHonest | c_engine/src/algorithms.c:384-421 | whatever the ids, even with overflow, H-CET emits distinct runs it searched, counted right, and overflow means something was truncated; when no seed is resumed or the start ids resolve they are accepting runs |
| NoSilentLoss.ParallelHonest | c_engine/src/parallel_hcet.c:53-75 | the same for the parallel run |
| SearchOrder.VisitInOrder | c_engine/src/algorithms.c:198-214 | depth-first search visits runs in this order: a run before its continuations, newer edges first, staying on a step before advancing |
| SearchOrder.McetKeepsFirst | c_engine/src/algorithms.c:230-252 | under any capacities M-CET emits the first accepting runs in that order that are shorter than the path buffer, as many as the table holds |
| SearchOrder.TcetKeepsFirst | c_engine/src/algorithms.c:254-351 | T-CET queues the first runs in breadth-first order, as many as the queue holds, and emits the accepting ones; queued and truncated states are counted exactly, the latter being the tries that failed |
| SearchOrder.HcetKeepsFirst | c_engine/src/algorithms.c:357-425 | H-CET queues the first prefix runs, and emits the first finished runs resumed from them, seed by seed and depth first from each |
| DuplicateIds.BigEnough | c_engine/src/algorithms.c:172-425 | if all runs are short there are capacities with which none of the executors overflows |
| DuplicateIds.ResolvingExactly | c_engine/src/algorithms.c:419-420 | any two executors that do not overflow agree on a graph and all its extensions, for every query with the given first step and every switch depth, exactly when the start ids resolve |
| DuplicateIds.HcetInventsPath | c_engine/src/algorithms.c:419-420 | with two vertices of one id H-CET emits a path although the query has no accepting run |
| DuplicateIds.HcetLosesPath | c_engine/src/algorithms.c:419-420 | with two vertices of one id H-CET loses a path that M-CET emits |
| DuplicateIds.RoomForTwiceOne | c_engine/src/algorithms.c:74-90 | and neither needs to overflow for that |
| Parallel.ShardsCover | c_engine/src/parallel_hcet.c:161-174 | the shards are consecutive intervals covering all vertices, of sizes differing by at most one |
| Parallel.LargerFirst | c_engine/src/parallel_hcet.c:161-174 | the larger shards come first |
| Parallel.ThreadsLargest | c_engine/src/parallel_hcet.c:22-30 | as many threads run as neither the request, nor the limit of 64, nor the number of vertices exceeds, and at least one |
| Parallel.DealShards | c_engine/src/parallel_hcet.c:161-174 | the workers get these shards and buffers of their own |
| Parallel.RunWorker | c_engine/src/parallel_hcet.c:32-44 | a worker leaves H-CET's outcome of its shard in its buffers |
| Parallel.RunWorkers | c_engine/src/parallel_hcet.c:176-192 | run in any order, every worker ends with its shard's outcome |
| Parallel.MergeWorker | c_engine/src/parallel_hcet.c:58-71 | a worker's paths are appended as far as they fit, the others counted as truncated |
| Parallel.MergeResults | c_engine/src/parallel_hcet.c:53-75 | merging in worker order yields the parallel outcome |
| Parallel.HcetParallel | c_engine/src/parallel_hcet.c:77-205 | with the clamped number of threads the runtime yields the parallel outcome, or the sequential one for a single thread |
| ParallelCounts.ParallelAddsUp | c_engine/src/parallel_hcet.c:53-75 | under any capacities every counter of the parallel run is the sum over the shards' outcomes, its depth their maximum, its table their paths in worker order up to the capacity, with every path left out counted, and overflow means that one is or a shard overflowed |
| Parallel.ParallelEqualsSequential | c_engine/src/parallel_hcet.c:53-194 | for all ids and any number of workers, if sequential H-CET loses nothing then the parallel run has the same multiset of paths and the same counters |
| Interleaving.StepKeepsPromise | c_engine/src/parallel_hcet.c:32-44 | no step of a worker changes the outcome it is going to have, and each brings it nearer the end |
| Interleaving.ScheduleKeepsPromises | c_engine/src/parallel_hcet.c:176-192 | under every schedule each worker keeps its promise, and ends after enough turns |
| Interleaving.AnySchedule | c_engine/src/parallel_hcet.c:161-194 | under every interleaving in which all workers finish, as they do with enough turns, the outcome is that of the parallel run |
| Interleaving.AnyScheduleIsSequential | c_engine/src/parallel_hcet.c:161-194 | and so its paths and counters are those of sequential H-CET, if that one loses nothing |
| SharedMemory.Undisturbed | c_engine/src/parallel_hcet.c:143-174 | a worker that writes only its own stack, record and table leaves every other worker's job as it was, for any reading of the bytes |
| SharedMemory.BlocksFit | c_engine/src/parallel_hcet.c:143-147 | the blocks the arena hands out give every worker a slot of its own |
| SharedMemory.WritesAreSchedule | c_engine/src/parallel_hcet.c:176-192 | any order of such writes, where each leaves its worker's round as it was or completes it, has the effect of a schedule of rounds |
| SharedMemory.WritesAgree | c_engine/src/parallel_hcet.c:176-194 | whatever the order of the writes, the memories of the finished workers hold the parallel outcome; the sequential one, if that loses nothing |
| Arena.AlignUp | c_engine/src/runtime.c:60-64 | the least multiple from n on |
| Arena.Workspace.constructor | c_engine/src/runtime.c:66-121 | capacity is rounded up to pages; zero bytes leave no base |
| Arena.Workspace.Alloc | c_engine/src/runtime.c:123-132 | a block is aligned, in bounds, after all earlier ones and zeroed, nothing else changes; it is refused exactly when it does not fit |
| Arena.BlocksDisjoint | c_engine/src/runtime.c:123-132 | blocks do not overlap, so zeroing one leaves the others |
| Arena.AllocWorkers | c_engine/src/parallel_hcet.c:124-159 | the workspace size asked for suffices for the four allocations, so that fallback is never taken |
| Matcher.Search.Recurse | bindings/python/standing/runtime.py:387-399 | the recursion appends the enumeration from its position on, cut at the cap |
| Matcher.Search.ConsumeRepeats | bindings/python/standing/runtime.py:400-422 | the loop over repeats does the same (Derivations.DerivationsListed says in which order) |
| Matcher.MatchQueryPaths | bindings/python/standing/runtime.py:382-424 | at most max_matches paths: the first of the enumeration over the sorted events (Derivations.CapKeepsFirst says which these are) |
| Matcher.EnumerationExact | bindings/python/standing/runtime.py:382-424 | a path is enumerated exactly when it is a non-empty ascending selection of events that splits into the steps' blocks and spans at most the window |
| Matcher.FewerMeansAll | bindings/python/standing/runtime.py:382-424 | every match returned is valid, and when fewer than the cap are, every valid match is returned |
| Derivations.DerivationsListed | bindings/python/standing/runtime.py:382-424 | the enumeration lists every way to derive a valid match exactly once, in this order: skipping an optional step before consuming it, going on to the next step before taking another event, earlier events before later ones |
| Derivations.OrderUnique | bindings/python/standing/runtime.py:382-424 | which settles the list |
| Derivations.CapKeepsFirst | bindings/python/standing/runtime.py:382-424 | with the cap reached, the matches returned are those of the first max_matches derivations; every other derivation comes after them |
| Derivations.MatchesDerived | bindings/python/standing/runtime.py:382-424 | a path is a valid match exactly when it has a derivation |
| Matcher.RecExact | bindings/python/standing/runtime.py:387-424 | the same from every intermediate state of the search |
| Events.SortAscending | bindings/python/standing/runtime.py:165-168 | sorting by time and id orders strictly when keys are distinct |
| Events.SortedByPartition | bindings/python/security_graph.py:144 | sorting by partition, time and id orders strictly when keys are distinct |
| Text.PrintParse | bindings/python/attack_chain.py:25-28 | a printed number reads back |
| Text.CsvInjective | bindings/python/standing/runtime.py:58 | a list of ids can be read back from its text |
| Text.FingerprintInjective | bindings/python/standing/runtime.py:57-59 | without colons in query id and version, the hashed text determines query, partition and path |
| Text.SameIdSamePath | bindings/python/standing/runtime.py:57-59 | whatever the names contain, the hashed text determines the path |
| Text.OwnTrendsApart | bindings/python/standing/runtime.py:57-59 | trends of one query never share an id |
| Text.SharedIdExactly | bindings/python/standing/runtime.py:57-59 | two queries have trends that share an id exactly when the text of one before the partition is a prefix of the other's |
| Text.SharedAcrossExactly | bindings/python/standing/runtime.py:57-59 | and trends of different partitions exactly when it is a proper prefix |
| Text.ColonFreeApart | bindings/python/standing/runtime.py:57-59 | which without colons only happens for equal names |
| StandingQueries.ValidateAbsence | bindings/python/dsl.py:331-351 | true exactly when no event of the partition inside the path's span triggers an absence clause |
| StandingQueries.RelationMeans | bindings/python/dsl.py:231-244 | of the events at the listed positions that lie on the path, all of them if none are listed, any two that carry the field agree (same), or any two at different places of the list differ (different) |
| StandingQueries.ValidatePath | bindings/python/dsl.py:358-365 | true exactly for non-empty paths that satisfy the absence clauses and every relation (StandingQueries.ValidPathMeans says what these ask) |
| StandingQueries.AbsenceMeans | bindings/python/dsl.py:331-351 | an absence clause fails exactly when some event of the path's partition that is not on the path, between its first and last times and not too late after any of its events, has the clause's type and meets it |
| StandingQueries.ValidPathMeans | bindings/python/dsl.py:358-365 | a path is valid exactly when it is not empty, no event intrudes, and every relation's events are related |
| StandingQueries.RelevantEnough | bindings/python/standing/runtime.py:336-343 | restricting a partition to the referenced types changes neither the matches nor any verdict |
| Trends.EvaluateQueryPartition | bindings/python/standing/runtime.py:336-375 | the trends are those of the validated matches, in order |
| Trends.CurrentExact | bindings/python/standing/runtime.py:301-308 | the dictionary of current trends holds, by id, exactly the trends of enabled queries |
| Trends.LastQueryKept | bindings/python/standing/runtime.py:306-308 | where queries share an id, the trend kept is that of the last of them |
| Trends.TrendsAreMatches | bindings/python/standing/runtime.py:336-375 | every trend is a validated match of the partition, and every such match a trend unless the cap cuts in |
| Trends.WindowCapped | bindings/python/standing/runtime.py:304-305 | the window cap binds exactly when it is positive or there is nothing to cut |
| Trends.WindowLatest | bindings/python/standing/runtime.py:304-305 | with a positive cap the last cap events are kept: every event left out comes before every one kept |
| Trends.LatestUnique | bindings/python/standing/runtime.py:304-305 | which settles the list |
| EdgeIndex.AddEdgeMirrors | bindings/python/standing/runtime.py:211-217 | an edge is added to both indexes, unless it is a loop or known; they stay mirrored |
| EdgeIndex.RemoveTouchingExact | bindings/python/standing/runtime.py:219-225 | exactly the edges at the event disappear, from both indexes |
| GraphState.RebuildExact | bindings/python/standing/runtime.py:227-271 | relinking an event makes the entity edges exact again: the pairs of live events sharing a value within the gap |
| GraphState.RemoveExact | bindings/python/standing/runtime.py:195-204 | and so does removing one |
| GraphState.WalksAscend | bindings/python/standing/runtime.py:256-271 | following edges leads to later events under current times |
| GraphState.NoCycle | bindings/python/standing/runtime.py:256-271 | the graph is acyclic |
| StandingGraph.RemoveUnfiles | bindings/python/standing/runtime.py:195-204 | the index stays clean exactly when the removed event's key was not empty |
| StandingGraph.TemporalGraph.EventsForPartition | bindings/python/standing/runtime.py:165-168 | the live events filed under the key, in (time, id) order |
| StandingGraph.TemporalGraph.AddEdgeOnly | bindings/python/standing/runtime.py:211-217 | the dictionaries change as the index value does |
| StandingGraph.TemporalGraph.RemoveEdgesTouching | bindings/python/standing/runtime.py:219-225 | the two loops take the event's edges out of both dictionaries |
| StandingGraph.TemporalGraph.AddTemporalEdges | bindings/python/standing/runtime.py:229-235 | exactly the edges to the neighbours in the partition's order, within the gap, are new |
| StandingGraph.TemporalGraph.AddEntityEdges | bindings/python/standing/runtime.py:236-245 | exactly the edges to events sharing a non-empty value within the gap are new |
| StandingGraph.TemporalGraph.AddParentEdge | bindings/python/standing/runtime.py:246-251 | exactly the edge from the latest event of the parent process is new |
| StandingGraph.TemporalGraph.RebuildEdgesForEvent | bindings/python/standing/runtime.py:227-251 | all three together, and nothing else |
| StandingGraph.TemporalGraph.UpsertEvent | bindings/python/standing/runtime.py:180-193 | the new events, revision and log; all graph invariants are kept, for an event new or already known |
| StandingGraph.TemporalGraph.RemoveEvent | bindings/python/standing/runtime.py:195-204 | the event and exactly its edges go; the invariants are kept |
| Snapshots.TakeSnapshot | bindings/python/standing/runtime.py:143-148 | every live event and every edge is written once |
| Snapshots.LoadSnapshot | bindings/python/standing/runtime.py:150-163 | the old state is dropped and the listed events and edges are filed |
| Snapshots.SnapshotRoundTrip | bindings/python/standing/runtime.py:143-163 | loading a snapshot gives back events, edges, revision and the graph invariants |
| StandingWorld.ReplacedExact | bindings/python/standing/runtime.py:309-330 | reevaluating a partition sets its active ids to the current ones, and touches no other partition if it takes over no id |
| StandingWorld.LedgerStep | bindings/python/standing/runtime.py:301-334 | cancels were active, the new active ids are what the emitted events make of the old ones, and positives were inactive exactly when no id was taken over |
| StandingWorld.FoldGivesActive | bindings/python/standing/runtime.py:301-334 | from any state and over every run, folding the emitted stream gives the active ids, whatever the queries are called and even when events move between partitions |
| StandingWorld.TrendsAlternate | bindings/python/standing/runtime.py:301-334 | over every run that takes over no id, each trend's events alternate, starting with a positive, and their number tells whether it is active |
| StandingWorld.AlternationNeeds | bindings/python/standing/runtime.py:301-334 | conversely, if every trend's events alternate then no id was taken over |
| StandingWorld.ApartRun | bindings/python/standing/runtime.py:301-334 | no run takes over an id if no enabled query's text before the partition is a proper prefix of another's |
| StandingClash.LedgerBreaks | bindings/python/standing/runtime.py:301-334 | for all names where it is, there are queries of these names and a run that announces a trend twice |
| StandingClash.MovingLeavesStale | bindings/python/standing/runtime.py:285-287 | an event that moves from any partition to any other leaves its trend active in the first, where no event is left, though no cap is reached and no id taken over |
| StandingConvergence.StepTidy | bindings/python/standing/runtime.py:180-209 | only a removal from the empty partition key makes the partition index untidy |
| StandingConvergence.StepExact | bindings/python/standing/runtime.py:285-334 | with a tidy index the reevaluated partition has the ids of its current events; the others keep theirs if no id is taken over |
| StandingConvergence.LatestSeen | bindings/python/standing/runtime.py:301-310 | a reevaluation makes current exactly the ids of the valid paths that the first max_matches derivations of each enabled query spell over the latest events of the partition |
| StandingConvergence.ExactMeans | bindings/python/standing/runtime.py:301-334 | so an exact partition's active ids are those, caps reached or not |
| StandingConvergence.CalmTakesNone | bindings/python/standing/runtime.py:285-334 | a calm operation takes over no id, whatever the queries are called |
| StandingConvergence.CalmStep | bindings/python/standing/runtime.py:285-334 | a calm operation keeps every partition exact |
| StandingConvergence.RunsConverge | bindings/python/standing/runtime.py:285-375 | at every state of a calm run, each partition's active ids are those of the validated matches over its current events; and no id was taken over |
| StandingConvergence.HistoryIndependent | bindings/python/standing/runtime.py:285-375 | two calm runs ending with the same events have the same active ids |
| StandingConvergence.IdsDetected | bindings/python/standing/runtime.py:336-375 | with no cap reached the ids are those of all matches; in any case each is one of a match |
| StandingChanges.MatchWithout | bindings/python/dsl.py:331-365 | without an event a path is a match exactly when it avoids the event and was one, or an absence clause was offended by that event alone |
| StandingChanges.ShrinkIds | bindings/python/standing/runtime.py:336-375 | with no cap reached, taking one event out of a partition takes away exactly the trends through it and brings exactly those it alone forbade |
| StandingChanges.RoomShrinks | bindings/python/standing/runtime.py:382-424 | if the caps leave room for a partition's events they do without one of them |
| StandingChanges.InsertExactly | bindings/python/standing/runtime.py:285-287 | with no cap reached after it, a fresh event announces exactly the trends of matches through it, and cancels exactly those of the paths it alone forbids |
| StandingChanges.InsertOnlyAdds | bindings/python/standing/runtime.py:285-287 | so without absence clauses it cancels nothing |
| StandingChanges.RemoveExactly | bindings/python/standing/runtime.py:289-293 | with no cap reached before it, a removal cancels exactly the trends of matches through the event, which are the active ones with it on their path, and announces exactly those of the paths it alone forbade |
| StandingChanges.RemoveOnlyCancels | bindings/python/standing/runtime.py:289-293 | so without absence clauses it yields nothing |
| StandingChanges.GrowingNeverCancels | bindings/python/standing/runtime.py:285-334 | without absence clauses and caps, a run of fresh events from the empty or any settled state never cancels |
| StandingChanges.WaningNeverAdds | bindings/python/standing/runtime.py:285-334 | and a run of removals never yields a trend |
| StandingChanges.AbandonedExactly | bindings/python/standing/runtime.py:285-293 | with no cap reached and no id taken over, a partition that an event leaves unnoticed stays right exactly when no active trend of it runs through the event and the event alone forbade no path but those of active trends |
| StandingRuntime.StandingTrendRuntime.constructor | bindings/python/standing/runtime.py:277-283 | starts empty, with nothing active |
| StandingRuntime.StandingTrendRuntime.ProcessEvent | bindings/python/standing/runtime.py:285-287 | the runtime moves to the next state of the ledger machine and sends out its positives, then its cancels, each once |
| StandingRuntime.StandingTrendRuntime.RemoveEvent | bindings/python/standing/runtime.py:289-293 | the same for removals, with no follow-up for a missing event or an empty key |
| StandingRuntime.StandingTrendRuntime.ReevaluatePartition | bindings/python/standing/runtime.py:301-334 | the active dictionary and the output are the partition's replacement and difference (StandingConvergence.LatestSeen says which trends are current) |
| StandingRuntime.StandingTrendRuntime.Replay | bindings/python/standing/runtime.py:295-299 | a replay is the run over the events in (time, id) order |
| StandingRuntime.StillHeard | bindings/python/standing/runtime.py:301-334 | hearing the events one operation sends out turns the old active ids into the new ones; so with cancellations on, folding all the object ever sent gives its active ids, which every method keeps |
| StandingRuntime.EmittedMeans | bindings/python/standing/runtime.py:311-330 | a positive is the new trend as it stands, a cancel the old one otherwise unchanged; all carry the operation's revision |
| StandingRuntime.ArrivalOrderIrrelevant | bindings/python/standing/runtime.py:285-299 | whatever order distinct events arrive in, replayed or not, and whatever the queries are called, the same trends end up active |
| SecurityGraph.SecurityGraphBuilder.AddEdge | bindings/python/security_graph.py:121-140 | an edge within the gap is added from the earlier event to the later, unless its key was seen |
| SecurityGraph.SecurityGraphBuilder.AddTemporal | bindings/python/security_graph.py:149-154 | the neighbours of every partition are linked |
| SecurityGraph.SecurityGraphBuilder.AddEntity | bindings/python/security_graph.py:156-170 | the neighbours of every group sharing a non-empty value are linked |
| SecurityGraph.SecurityGraphBuilder.AddParents | bindings/python/security_graph.py:172-186 | every event is linked to the latest event of its parent process |
| SecurityGraph.SecurityGraphBuilder.Build | bindings/python/security_graph.py:142-194 | only wanted edges are built, each key once, and none is missing |
| SecurityGraph.BuiltExactly | bindings/python/security_graph.py:142-194 | with distinct ids an edge is built exactly when it is wanted |
| GraphCoverage.InsertAll | bindings/python/standing/runtime.py:180-193 | upserting distinct events one by one yields a graph grown in that order |
| GraphCoverage.InsertKeepsChained | bindings/python/standing/runtime.py:227-264 | inserting a fresh event keeps every two neighbours of a partition linked |
| GraphCoverage.BuilderEdgesPresent | bindings/python/security_graph.py:142-170 | after insertions in any order the standing graph has every temporal and entity edge of the builder, in the same direction |
| Detection.BuiltIsGood | bindings/python/security_graph.py:142-194 | on one partition, if no parent's event comes after its child and the gap limit cuts off no neighbour in the window, the built graph links every event to the next within the window and only leads forward |
| Detection.DistinctTimesSuffice | bindings/python/security_graph.py:178-186 | with distinct times every parent edge leads forward |
| Detection.RunIsMatch | c_engine/src/algorithms.c:198-213 | the events an accepting run matched, skipped ones left out, are a match of the standing matcher |
| Detection.ScanMatch | bindings/python/standing/runtime.py:382-424 | taking every event that fits completes all steps of a match |
| Detection.MatchHasRun | c_engine/src/algorithms.c:198-213 | from the first event of a match there is an accepting run |
| Detection.SameStarts | bindings/python/standing/runtime.py:382-424 | the events accepting runs start from are those matches start from |
| Detection.NegativeWindow | c_engine/src/algorithms.c:114-117 | with a negative window the native engine detects exactly the matches without any time limit, and the standing matcher none |
| Detection.WindowExactly | c_engine/src/algorithms.c:114-117 | for every common pattern the engines detect the same on all fully linked partitions exactly when the window is not negative |
| TiedTimes.BuiltAgreesExactly | bindings/python/security_graph.py:142-194 | for every window that is not negative, the engines detect from the same events over the graph built of one partition, whatever the common pattern, exactly when no parent's event comes after its child and the gap limit cuts off no neighbour in the window |
| TiedTimes.Circling | bindings/python/security_graph.py:178-186 | around an edge back the native engine matches a pattern of any length |
| TiedTimes.TooManySteps | bindings/python/standing/runtime.py:382-424 | the standing matcher needs an event of its own for each step |
| TiedTimes.NoWayOn | bindings/python/security_graph.py:132-133 | where the gap limit cuts off the next event no edge leads on |
| EngineDetection.EnginesDetectAlike | bindings/python/security_graph.py:142-194 | with no cap reached, each native executor over the built graph emits a path starting at an event exactly when the standing matcher returns a match starting there, under the condition of TiedTimes.BuiltAgreesExactly |
| EngineDetection.TiedParentDiffers | bindings/python/security_graph.py:172-186 | for two events of one time, a parent's and its child's with a smaller id, all three executors emit a path from the parent without overflow, and the standing matcher returns nothing from there |
| NativePattern.FastPathIsCommon | bindings/python/dsl.py:274-292 | the fragment both engines understand is the one the fast path accepts |
| NativePattern.ParseNative | c_engine/src/dsl.c:12-35 | the steps read are the non-empty pieces between commas, up to the capacity |
| NativePattern.NativeRoundTrip | bindings/python/dsl.py:294-295 | the C parser reads each step back, up to the capacity, exactly when it is not a plain one ending in + |
| NativePattern.SpacedRead | c_engine/src/dsl.c:12-35 | spaces around a token, and between a name and its +, do not matter |
| Optimizer.BnbRec | c_engine/src/optimizer.c:48-53 | the plan under construction is restored, and no feasible continuation of it is cheaper than the best plan |
| Optimizer.BranchAndBoundPlan | c_engine/src/optimizer.c:55 | an optimal feasible plan, or the zero plan exactly when there is none below the sentinel |
| Optimizer.Pruned | c_engine/src/optimizer.c:49 | a plan already too large or too costly has no better continuation |
| Optimizer.EitherWay | c_engine/src/optimizer.c:51-52 | leaving a graphlet out and taking it in cover all continuations |
| Optimizer.GreedyPlan | c_engine/src/optimizer.c:43-46 | each pick is the first of those with the least sum of CPU and memory cost that still fit, and in the end none fits |
| Optimizer.GreedyUnique | c_engine/src/optimizer.c:43-46 | which determines the plan |
| Optimizer.GreedyFeasible | c_engine/src/optimizer.c:43-46 | a non-empty greedy plan is feasible and without repeats |
| Optimizer.GreedyScoresRise | c_engine/src/optimizer.c:43-46 | scores never fall from one pick to a later one |
| Optimizer.GreedyNeverCheaper | c_engine/src/optimizer.c:43-55 | a non-empty greedy plan is never cheaper than branch and bound |
| PartialCache.Cache.Touch | c_engine/src/optimizer.c:38-41 | the entries are the first distinct keys touched, with the number of times each was |
| PartialCache.AllKeptExactly | c_engine/src/optimizer.c:38-41 | every key's hits are known exactly when there were no more distinct keys than places |
| Windows.MaterializeWindows | c_engine/src/sliding.c:3-11 | the number of windows in closed form, each window, and the rest of the buffer unchanged |
| Windows.CoverageExact | c_engine/src/sliding.c:3-11 | every interval of a given length lies in one window exactly when it is at most within - slide + 1 long |
| Windows.ClassifyDelta | c_engine/src/optimizer.c:30-35 | the positions of shared, new and expired windows, in order |
| Windows.PositionsExact | c_engine/src/optimizer.c:30-35 | a position is listed as shared, new or expired exactly when a window of the same start and end does, or does not, occur in the other set, and in order |
| Windows.ShiftedDelta | c_engine/src/optimizer.c:30-35 | shifting a span by k slides keeps n - k windows, adds k and drops k, at these positions |
| Dsl.SplitTopLevel | bindings/python/dsl.py:25-49 | the loop computes the scan over the characters |
| Dsl.ReadBoundsExact | bindings/python/dsl.py:93-96 | bounds are read exactly from texts of the expression's form |
| Dsl.FindBoundsExact | bindings/python/dsl.py:93-97 | bounds in braces are found exactly where the expression matches, which is at most one place |
| Dsl.StepRoundTrip | bindings/python/dsl.py:87-116 | a printed step is parsed back exactly when it is not a plain one ending in + or ? |
| Dsl.AlternationParsed | bindings/python/dsl.py:87-116 | names in parentheses separated by bars are a step's alternatives, with any suffix; a lone number in braces asks for exactly that many events |
| Dsl.WrongBoundsRefused | bindings/python/dsl.py:114-115 | bounds the wrong way round are refused |
| Dsl.BarsRead | bindings/python/dsl.py:108-109 | alternatives are stripped and blank ones dropped |
| Dsl.StripExact | bindings/python/dsl.py:88 | stripping takes away the spaces at both ends and nothing else |
| Dsl.ParseStepsExact | bindings/python/dsl.py:119-123 | parsing succeeds when every token does, and otherwise fails as the first bad token does |
| Dsl.SplitJoined | bindings/python/attack_chain.py:74-75 | splitting the joined tokens gives the tokens back |
| Dsl.SplitTokens | bindings/python/dsl.py:25-49 | a pattern is cut at the commas outside all parentheses and braces, however these nest, and nowhere else; blank tokens are dropped |
| Dsl.PatternRoundTrip | bindings/python/attack_chain.py:19-29 | parsing a printed pattern gives the same types and bounds in order, exactly when no step is ambiguous |

## Left out

- Fixed widths: times, ids, counters and sizes are unbounded integers and costs are reals; 64-bit wrap-around, floating-point rounding, and the truncation of names, error texts and patterns to C buffer sizes are not modelled.
- Allocation failures, mmap, madvise, environment parsing and thread creation; `CET_ENABLE_PTHREADS` is taken as set. A worker's steps interleave at the granularity of its loops.
- Error strings of the native engine; the overflow flag they come with is kept.
- Custom C predicates are pure functions of the two ids.
- T-CET's partial cache, which it fills but never consults; the cache itself is modelled (PartialCache).
- Trend bodies, risk scores, features, edge evidence, wall-clock fields and `edges_for_path`: none affects which trends are active.
- SHA-256: a trend id is the text hashed; that distinct texts have distinct hashes is taken for granted.
- The order in which events of one kind are emitted in one reevaluation (sorted by hash in the source); the model allows any.
- The order of edges from different partitions and value groups in the builder's list, and of dictionary entries in snapshots; what is listed, and that nothing is listed twice, is exact.
- An event's fields are a map of strings: nested lookup, non-string values and the defaults for missing keys are resolved beforehand. The builder links parent processes for the empty process id, the standing graph does not; both are modelled.
- Only `same` and `different` are relation operators; the error the source raises for others is not modelled.
- Where predicates of queries and fields: absence predicates are an uninterpreted function of the event, query predicates are not evaluated by the standing runtime.
- Partition keys are compared after defaults are resolved. `validate_absence` compares raw keys, so there an event with no key at all is skipped when the path carries the default key explicitly; the model does not tell the two apart.
- What the bytes of a worker's stack, record and table mean: the shared-memory results hold for any reading of them.
- The check that query versions are unique at start-up; no result here needs it.
- Whitespace and digits are the ASCII ones; a step's raw text is not kept.
- `cet_detect_graphlets` and the cost estimates: the planners take any costs.
- Temporal and parent edges of the standing graph depend on history: old temporal links stay after an insertion between neighbours, removals do not bridge, late parents are not linked to earlier children. Only soundness is proved for them.
- HybridTheorems.EnginesAgree: counters of queued states and seeds differ between the executors by design and are not compared.
- Spark, Delta, connectors, the query registry's loading, temporal knowledge-graph rows and counterfactual replay would add only easy members.
