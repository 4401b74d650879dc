# Verified model of the provenance control plane

This project models, in Dafny, the parts of `neural_pods` that decide what may be
used, where it runs and what survives a failure, and proves what every history of
calls keeps. Each component has the same shape: the state as a value with its
operations as functions, the lemmas about all histories of those operations, and,
where the program updates objects in place, a class whose methods are proved to do
exactly what the functions say.

- **Lineage registry** (`Graphs`, `Lineage*`, `Adoption`, `RegistryStore`, `Manifest`,
  `Relations`): a content-addressed graph of origins, generations and artifacts, with
  one head per knowledge key, revocation closures, snapshots and commits, adoption
  into a second registry, the execution manifest and the relation walk.
- **Search store and result cache** (`Filters`, `Search*`, `PodCache*`): filters and the texts that
  caches key them by, copy-on-write branches with
  pinned snapshots and a filter cache, behind a least-recently-used cache with hot pins.
- **Task graphs** (`TaskGraph`, `TaskRun`, `CriticalPath`): acceptance, every interleaving
  of a run on a bounded worker pool, and the longest chain.
- **Household** (`Household*`): approval-gated allocation, rebuilt from its event log.
- **Replication** (`Replication`): quorum writes over monotone registers.
- **Micro-batching** (`Batcher*`): keyed queues, batches and request outcomes, with cancellations
  between any two steps of the worker and of a closing call.
- **Mesh** (`Mesh`): hop budgets and deadlines over any network of pods.
- **Raft frames** (`RaftFrames`, `RaftSender`): framing over arbitrarily chunked streams and
  a sender that reconnects.
- **Postings** (`Postings`, `Bits`): delta-coded posting lists in unsigned LEB128, section 7.6 of
  DWARF Version 5.
- **Placement and leases** (`Placement*`, `Leases`): zone-diverse replicas, and fencing.

Hashes are injective function values, clocks are inputs, SQLite tables are maps and
sets, and a transaction is one step that leaves the tables alone when it raises.
Scoring, filtering and authorization of search rows are uninterpreted function values, so what is
proved of the caches holds for every way of matching; the examples of filters use the program's own
evaluation of mapping filters (`SearchClashes.Mappings`).

## Where a promise needs a condition

Each promise below fails on some input. For each there is a lemma with such an input and
a theorem that says exactly when the promise holds.

- A run of a task graph can deadlock: waiting nodes hold their workers (`TaskRun.WaitingNodeFirst`).
  `TaskRun.MaximalRunFinishesIff` gives the exact condition on the list and the pool; lists in
  dependency order, and pools as large as the list, always meet it.
- The filter cache of the store keys by the text of filter and principal. JSON writes a tuple like a
  list and the key 1 like "1", and no principal prints as `None`, so a search can be answered from the
  entry of another (`SearchClashes.TupleClash`, `EqClash`, `KeyClash`, `PrintedPrincipalClash`).
  `Filters.PlainTextsDiffer` says that filters built from string keys, lists and scalars are told apart
  by their texts, and `SearchClashes.AlwaysPlainIff` that a search is safe from this exactly with such
  a filter and a principal other than the text `None`. One exception is left: of a filter whose
  evaluation raises only in one order of its keys (`SearchClashes.InsertionOrderClash`);
  `SearchModel.DiffersIff` says exactly when it shows.
- The result cache marks a query as in flight before it converts the filter to a mapping. A filter
  expression, which the store would evaluate, raises there and blocks every later search of the same
  key for ever (`PodCacheClashes.ExpressionBlocks`, `PodCache.StuckForever`, `PodCache.LeftInFlightIff`), or
  converts to a mapping that means something else (`PodCacheClashes.ExpressionMisread`). Tags given as a
  generator are used up before the filter is built (`PodCacheClashes.OneShotTags`).
  `PodCacheClashes.AlwaysAnswersIff` is the exact condition: a mapping filter as above, the same
  principals, tags and vector that can be read again, and no argument that the key does not show.
- A write that misses its quorum can leave a record that outlives the next accepted write at
  the same revision (`Replication.RivalSurvives`). `Replication.PayloadIsReadIff` says, from what the
  replicas held before the write and whether it reached them, exactly when every large enough
  read returns the written record or a later one, and `Replication.PayloadStaysReadIff` that the same
  condition decides all reads after later writes by coordinators that know the revision.
- A household pod that announces itself again while allocated loses its mark while its plan stays
  open (`HouseholdHistory.BusyRejoin`); an announcement is harmless exactly for a free pod
  (`HouseholdHistory.JoinKeepsIff`).
- A restore reads only the end of a long log and can miss an open allocation
  (`HouseholdHistory.StartFallsOutOfTheWindow`). It rebuilds the live state exactly when the log is short
  or every allocation open at the cut is mentioned since (`HouseholdHistory.RestoreRebuildsIff`).
- Approving, starting and releasing write their event after the lock is given back, so a release can
  reach the log before its start (`HouseholdLog.ReleaseWrittenFirst`). `HouseholdLog.LogTellsIff` says over
  all calls and all orders of writing exactly when the log tells what is open.
- "A pod restart loses nothing" holds of started requests only (`HouseholdLog.PendingIsLost`,
  `HouseholdLog.NothingLostIff`), and a restore from a registry that several households write to also
  takes over what the others have open (`HouseholdLog.OthersAreRestored`, `HouseholdLog.SharedLogIff`).
- `mesh.py` promises that a malformed bound is a result and never an exception. A number too large
  to convert raises `OverflowError`, and a `visited` field that is a plain number makes `forward`
  raise `TypeError` (`Mesh.RaisingEnvelopes`). `Mesh.JudgeRaisesIff` and `Mesh.DepartFaultsIff` say exactly
  when, and `Mesh.DeliveredNeverRaises` that an envelope that was delivered never does.
- Deadlines in the batching queue are looked at only at the head: a request behind a live head can
  be dispatched late (`BatchingExamples.LateBehindHead`). `BatchingDeadlines.LateIff` says exactly when at a
  given moment, `BatchingDeadlines.SomeMomentLateIff` for which queues there is such a moment,
  `BatchingDeadlines.SomeTurnLateIff` that with a single key a turn of the worker then is late, and
  `BatchingDeadlines.AscendingNeverLate` that a queue whose deadlines never go down has none.
- Looking at a future of the batching queue and setting it are two steps without a lock against
  `Future.cancel()`. A cancellation in between spoils the rest of a batch
  (`BatchingExamples.RaceSpoilsBatch`) or ends the worker for good (`BatchingExamples.RaceKillsWorker`).
  `BatchingRaces.LostFromStart` says that over every history the settings that raise are exactly those
  with a cancellation in between, `BatchingRaces.SettingIff` what each does, `BatchingRaces.ResultsMatchPositions`
  exactly which requests of a batch get their results, and `BatchingRaces.CrashedIff` when the worker is lost.
- `adaptive_batcher.py` says that a future cannot be cancelled once execution has started. The
  code never marks a future as running, so it can (`BatchingExamples.RunningIsCancelled`), exactly while it is
  undecided (`Batchers.AdaptiveBatcher.CancelFuture`).

## Model

| member | source | states |
|---|---|---|
| Graphs.Closure | neural_pods/registry.py:150-156 | the worklist form of the recursive query returns exactly the nodes reachable from its root, and terminates on any graph |
| LineageHistory.RunKeeps | neural_pods/registry.py:136-286 | along every history of calls the invariant holds: well-founded edges, revoked set closed under children, exact headers, one newest head per key, content addressing |
| LineageHistory.ReachableStates | neural_pods/registry.py:136-148 | in every state reachable from the empty registry no node is its own proper ancestor, revocation is closed, and each artifact header lists exactly the origins and generations above it |
| LineageSteps.PublishIsFresh | neural_pods/registry.py:218-231 | the next generation of a key was never stored before, whatever its parents |
| LineageSteps.PublishKeeps | neural_pods/registry.py:203-231 | a publication keeps the invariant and only extends the tables |
| LineageSteps.DeriveKeeps | neural_pods/registry.py:233-258 | deriving an artifact keeps the invariant, in particular that its header is exact |
| LineageSteps.RevokeKeeps | neural_pods/registry.py:278-286 | marking the descendants keeps the revoked set closed under children |
| LineageHistory.InvalidityIsPermanent | neural_pods/registry.py:269-286 | once an ancestor of a snapshot is revoked or superseded no later commit of it succeeds, whatever happens in between and whenever |
| LineageHistory.CommittedAnswerIsRevocable | neural_pods/registry.py:269-286 | a committed answer is in the closure of any later revocation of anything it was derived from |
| LineageHistory.AnswerAncestry | neural_pods/registry.py:269-276 | the ancestors of a committed answer are itself and all ancestors of the snapshot's members |
| LineageHistory.NoMixedGenerations | neural_pods/registry.py:174-194 | an accepted snapshot never has two generations of one key among its ancestors |
| LineageHistory.RevocationIsExact | neural_pods/registry.py:278-286 | a revocation invalidates exactly the nodes derived from its target |
| LineageHistory.SupersessionIsExact | neural_pods/registry.py:218-231 | a publication invalidates exactly the nodes above the head it replaces |
| LineageHistory.PublishedNodeValidIff | neural_pods/registry.py:203-231 | a node just published is valid for its publisher exactly when no parent descends from the replaced head and its own access list and window admit the publisher |
| LineageHistory.EveryNodeHasAnOrigin | neural_pods/registry.py:233-254 | in every reachable state each node descends from an origin |
| RegistryStore.Registry.AncestorsOf | neural_pods/registry.py:150-156 | returns exactly the nodes reachable over parents, or fails on an unknown node |
| RegistryStore.Registry.Insert | neural_pods/registry.py:136-148 | a node is stored under its digest below its parents; an existing one is returned, a revoked one refused, and nothing changes on failure |
| RegistryStore.Registry.AddOrigin | neural_pods/registry.py:196-201 | stores an origin without parents and keeps the invariant |
| RegistryStore.Registry.CheckValid | neural_pods/registry.py:174-194 | the loop over the ancestors passes exactly when every ancestor is unrevoked, admits the principal, is inside its window and, if knowledge, is its key's head |
| RegistryStore.Registry.PublishKnowledge | neural_pods/registry.py:203-231 | the in-place publication has exactly the effect of the specified one, keeps the invariant, and changes nothing when it raises |
| RegistryStore.Registry.CollectAll | neural_pods/registry.py:240-249 | the loop over the parents gathers exactly the origins and generations among all their ancestors |
| RegistryStore.Registry.DeriveNode | neural_pods/registry.py:233-254 | validates the parents, builds the header from their ancestors and inserts the node, or changes nothing |
| RegistryStore.Registry.BuildArtifact | neural_pods/registry.py:256-258 | the in-place derivation has exactly the specified effect or none |
| RegistryStore.Registry.TakeSnapshot | neural_pods/registry.py:260-267 | a snapshot is accepted exactly when it is non-empty and all its members are valid |
| RegistryStore.Registry.CommitAnswer | neural_pods/registry.py:269-276 | check and materialization happen together or not at all |
| RegistryStore.Registry.RevokeNode | neural_pods/registry.py:278-286 | exactly the descendants of the node are marked and returned |
| Adoption.AdoptKeeps | research/adopt_lineage.py:17-48 | after a successful adoption both registries agree on every node, parent set and head of the lineage, nothing else was added, and the destination keeps its invariant |
| Adoption.AdoptSucceedsIff | research/adopt_lineage.py:17-48 | adoption succeeds exactly when the source admits the artifact, nothing conflicts and the destination's clock is in every window |
| Adoption.MergedAncestors | research/adopt_lineage.py:33-45 | an adopted node has the same ancestors in both registries |
| Adoption.MergeKeeps | research/adopt_lineage.py:32-45 | merging a conflict-free lineage keeps every part of the invariant, one head per key included |
| RegistryStore.Traversal.Visit | research/adopt_lineage.py:24-31 | the depth-first visit ends on every graph, lists what is above a node once with parents first, and gives up only on a real cycle |
| RegistryStore.Registry.OrderLineage | research/adopt_lineage.py:24-31 | the copy order lists each ancestor once, parents first |
| RegistryStore.Registry.AdoptNode | research/adopt_lineage.py:33-45 | one copied node fits exactly when it does not conflict, and then extends the merge by itself |
| RegistryStore.Registry.CopyAll | research/adopt_lineage.py:33-45 | the copying loop goes through exactly when nothing conflicts, and then yields the merge of both registries |
| RegistryStore.Registry.AdoptFrom | research/adopt_lineage.py:10-48 | adoption in place equals the specified one; any failure leaves the destination as it was |
| Manifest.HeaderDecidesAncestry | neural_pods/execution_manifest.py:37-51 | the membership test on an artifact header decides true ancestry |
| Manifest.CheckArtifacts | neural_pods/execution_manifest.py:37-51 | the loop accepts exactly the artifacts derived from the generation and collects exactly the origins above them |
| Manifest.Build | neural_pods/execution_manifest.py:24-52 | a manifest is built exactly when it is certifiable, and lists exactly the origins above its artifacts |
| Relations.NearerIsVisited | neural_pods/semantics.py:135-148 | everything nearer than the front of the queue has been visited at its distance |
| Relations.Expand | neural_pods/semantics.py:144-148 | appends exactly the matching relations of a key, in order, to the edges and the queue |
| Relations.WalkRelations | neural_pods/semantics.py:132-150 | a completed walk visited exactly the keys within the hop bound, each once in order of shortest distance, at current heads that together form an accepted snapshot, with every edge of the nearer keys once; a refused walk had a reason |
| TaskGraphs.StuckSetHasCycle | neural_pods/taskgraph.py:66-77 | a non-empty finite set in which every node waits for another contains a cycle |
| TaskGraphs.CheckDependencies | neural_pods/taskgraph.py:62-65 | accepts exactly the graphs in which every dependency is a node |
| TaskGraphs.Sweep | neural_pods/taskgraph.py:67-77 | one pass resolves nodes in an order that respects their dependencies, and reports progress exactly when it resolved some |
| TaskGraphs.ValidateDag | neural_pods/taskgraph.py:62-77 | the fixpoint loop ends and accepts exactly the graphs with known dependencies and no cycle, with the right error |
| TaskGraphs.Create | neural_pods/taskgraph.py:53-60 | construction accepts exactly the lists with distinct ids, known dependencies and no cycle, and keeps each node with its own dependencies |
| TaskRun.RunKeeps | neural_pods/taskgraph.py:79-120 | along every interleaving the run invariant holds and no run exceeds four steps per node |
| TaskRun.Progress | neural_pods/taskgraph.py:89-120 | where the pool has room a run that is not over can always go on |
| TaskRun.MaximalRunFinishesIff | neural_pods/taskgraph.py:79-120 | every run ends, and ends with all nodes done exactly when at every cut of the list fewer nodes wait across it than there are workers |
| TaskRun.DependencyOrderIsRoomy | neural_pods/taskgraph.py:116-120 | a list in dependency order runs on any pool |
| TaskRun.EnoughWorkersIsRoomy | neural_pods/taskgraph.py:116-120 | as many workers as nodes always suffice |
| TaskRun.WaitingNodeFirst | neural_pods/taskgraph.py:89-120 | an accepted list of two nodes whose every run on one worker stops for ever, and on two workers finishes |
| TaskRun.FinishedRun | neural_pods/taskgraph.py:89-120 | a finished run called each handler exactly once, after all its dependencies, and produced the outputs the graph means |
| TaskRun.SequentialIsMeaning | neural_pods/taskgraph.py:79-136 | sequential evaluation in any dependency order gives each node its meaning |
| TaskRun.RunEqualsSequential | neural_pods/taskgraph.py:79-136 | for deterministic handlers the outputs of any finished run are those of sequential evaluation |
| CriticalPath.Resolver.Resolve | neural_pods/taskgraph.py:147-154 | the memoised finish time of a node is the largest summed duration of a chain that starts at it |
| CriticalPath.CriticalPathSeconds | neural_pods/taskgraph.py:138-156 | the memoised recursion returns the largest summed duration over all dependency chains |
| CriticalPath.ChainFitsInRun | neural_pods/taskgraph.py:89-120 | the durations along any chain fit between the start of the run and the end of its first node |
| CriticalPath.CriticalPathWithinWall | neural_pods/taskgraph.py:121-156 | the critical path of a finished run never exceeds its wall time |
| SearchModel.WriteVisibility | neural_pods/local_search.py:251-274 | a write to a key on a branch changes the resolution of that key on exactly the branches that inherit it without a nearer row or tombstone, and nothing else |
| SearchModel.BranchStartsAsParent | neural_pods/local_search.py:241-249 | a fresh branch starts with its parent's rows |
| SearchModel.WrittenKeeps | neural_pods/local_search.py:276-322 | a write keeps the branch tree, every pinned snapshot equal to fresh resolution and every filter entry true, and moves the revision when rows change |
| Filters.PrintAlikeIff | neural_pods/local_search.py:46-47 | two filters have the same text exactly when they agree once tuples are lists, keys are strings and other objects are their strings |
| Filters.PlainTextsDiffer | neural_pods/local_search.py:46-47 | filters built from mappings with string keys, lists and scalars are equal when their texts are |
| Filters.PutPlain | neural_pods/pod_cache.py:114-116 | adding a hard filter under a string key keeps a filter plain |
| Filters.SortedLists | neural_pods/pod_cache.py:71 | the tags of a key are each listed once in ascending order |
| SearchModel.SearchIsPlainScan | neural_pods/local_search.py:479-498 | pins and filter cache never show on a plain call: a search returns what filtering and scoring the resolved rows returns, unless evaluating the filter raises |
| SearchModel.DiffersIff | neural_pods/local_search.py:489-498 | on a plain call the two differ exactly when evaluating the filter raises on a row and its texts have an entry |
| SearchClashes.AlwaysPlainIff | neural_pods/local_search.py:489-498 | in all stores left by plain calls a search returns what the plain scan answers, exactly when its filter is plain and its principal is not the text None |
| SearchClashes.TupleClash | neural_pods/local_search.py:416-431 | after a search for a tag in a tuple, one for it in a list misses the row that has it |
| SearchClashes.EqClash | neural_pods/local_search.py:416-431 | the same below a test for equality |
| SearchClashes.KeyClash | neural_pods/local_search.py:416-431 | the same for the keys 1 and "1" |
| SearchClashes.InsertionOrderClash | neural_pods/local_search.py:416-431 | a filter that raises is answered from the entry of the same one with its keys inserted the other way round |
| SearchClashes.PrintedPrincipalClash | neural_pods/local_search.py:489-498 | a principal called None is answered from the entry of a search without principal |
| SearchStores.SearchStore.NewNamespace | neural_pods/local_search.py:152-157 | the namespace and its branch are created unless they exist |
| SearchStores.SearchStore.NewBranch | neural_pods/local_search.py:241-249 | a branch is added below a known one under an unused name, or nothing changes |
| SearchStores.SearchStore.OnChain | neural_pods/local_search.py:287-293 | the walk up the parents finds the changed branch exactly when the pinned branch inherits it |
| SearchStores.SearchStore.Rows | neural_pods/local_search.py:251-274 | overlaying the levels of the chain gives resolution key by key; the cycle check never fires |
| SearchStores.SearchStore.InvalidatePins | neural_pods/local_search.py:276-293 | drops the filter entries of the namespace and exactly the pins that inherit the changed branch |
| SearchStores.SearchStore.UpsertRow | neural_pods/local_search.py:295-322 | the row is stored in place as specified, or the call fails and nothing changes |
| SearchStores.SearchStore.UpdateRow | neural_pods/local_search.py:324-362 | the patched row is stored in place as specified, with its new revision, or nothing changes |
| SearchStores.SearchStore.DeleteRow | neural_pods/local_search.py:370-380 | a tombstone is stored in place as specified, or nothing changes |
| SearchStores.SearchStore.UnpinBranch | neural_pods/local_search.py:396-398 | the pin of the branch is gone and nothing else changes |
| SearchStores.SearchStore.PinBranch | neural_pods/local_search.py:382-386 | a pin holds the freshly resolved rows of its branch and returns their number |
| SearchStores.SearchStore.Snapshot | neural_pods/local_search.py:400-405 | a pinned snapshot and a fresh resolution are the same rows |
| SearchStores.SearchStore.SetReadOnly | neural_pods/local_search.py:226-239 | the setting changes in place with a new revision and the namespace's filter entries dropped, or nothing changes |
| SearchStores.SearchStore.Search | neural_pods/local_search.py:479-498 | for any filter and principal the cached search equals the specified one; for plain calls it equals the plain scan unless evaluating the filter raises |
| PodCache.EvictionIsLeastRecent | neural_pods/pod_cache.py:129-140 | of two unpinned entries the more recently used one is never evicted first |
| PodCache.CacheSearchKeeps | neural_pods/pod_cache.py:77-145 | a plain query through the cache is answered like an uncached search unless evaluating its filter raises; the cache stays within bounds and coherent and nothing stays in flight |
| PodCache.SameKeySameMeaning | neural_pods/pod_cache.py:65-75 | plain queries with the same key mean the same |
| PodCache.CacheDiffersIff | neural_pods/pod_cache.py:77-145 | the exception shows exactly when evaluating the filter raises and one of the caches holds the answer |
| PodCache.LeftInFlightIff | neural_pods/pod_cache.py:88-116 | a search leaves its key in flight exactly when no fresh entry is found and its filter does not convert to a mapping |
| PodCache.StuckForever | neural_pods/pod_cache.py:88-113 | once a key is in flight without an entry, no later search for it is answered, whatever happens to cache and store |
| PodCacheClashes.AlwaysAnswersIff | neural_pods/pod_cache.py:65-145 | after plain queries a query is answered as an uncached search would be, exactly when its filter is a plain mapping, its principal is not the text None, tags and vector can be read again and the key shows all arguments |
| PodCacheClashes.ExpressionBlocks | neural_pods/pod_cache.py:88-114 | a filter expression raises and its key stays in flight, so the same search then waits for ever |
| PodCacheClashes.ExpressionMisread | neural_pods/pod_cache.py:114 | a filter expression that converts to a mapping of its letters |
| PodCacheClashes.OneShotTags | neural_pods/pod_cache.py:71-116 | tags from a generator return rows without the tag, and again to a later caller with a list |
| PodCache.CoherentAfter | neural_pods/pod_cache.py:147-161 | entries stay true while the store moves on in any way that moves revisions with rows |
| PodCaches.CachedSearchIsPlainScan | neural_pods/pod_cache.py:77-145 | after every history of writes, branching, pins and plain searches a plain query through the cache returns what an uncached scan answers |
| PodCaches.HistoryBounds | neural_pods/pod_cache.py:129-140 | after every history each store pin equals fresh resolution, and the cache holds at most its bound or pinned entries only |
| PodCaches.ResultCache.SearchInside | neural_pods/pod_cache.py:77-145 | for any query the in-place search equals the specified one, with its key in flight exactly while it must be, and counts each answer once as hit or miss |
| PodCaches.ResultCache.Search | neural_pods/pod_cache.py:77-145 | for a plain query it equals the plain scan of the rows as they are now, unless evaluating the filter raises, and nothing stays in flight |
| PodCaches.ResultCache.Evict | neural_pods/pod_cache.py:129-140 | pops the oldest unpinned entries until the bound holds or only pins are left, counting each |
| PodCaches.ResultCache.Invalidate | neural_pods/pod_cache.py:163-172 | drops exactly the selected entries and returns their number |
| PodCaches.ResultCache.PinInside | neural_pods/pod_cache.py:174-198 | for any query answers like the search and pins the entry under the key of what is left of the arguments |
| PodCaches.ResultCache.PinQuery | neural_pods/pod_cache.py:174-198 | for a plain query answers like the plain scan and pins the entry of the query |
| PodCaches.ResultCache.Unpin | neural_pods/pod_cache.py:200-215 | releases exactly the selected pins, returns their number and restores the bound |
| Households.Household.Announce | neural_pods/household.py:107-113 | the offer is stored free of any allocation; the invariant survives exactly when the pod was not busy |
| Households.Household.RequestPlan | neural_pods/household.py:120-151 | a request is stored exactly when all its donors are known and free, and the refusal of a busy donor is logged |
| Households.Household.GiveApproval | neural_pods/household.py:153-178 | a donor's approval is recorded once, and the last one approves the request |
| HouseholdModel.PlaceAllSound | neural_pods/household.py:180-246 | a plan places every segment on an approved free donor in a tier it allows, within the memory offered per tier |
| HouseholdHistory.StartKeeps | neural_pods/household.py:180-246 | starting books free pods only, so open plans stay disjoint and within the offers |
| HouseholdHistory.ReleaseKeeps | neural_pods/household.py:248-278 | releasing frees exactly the pods of the plan |
| HouseholdHistory.RunKeeps | neural_pods/household.py:107-278 | in every state reached without a busy pod re-joining, a pod is busy exactly when one open plan names it, plans fit the offers, and the log replays to the open allocations |
| HouseholdHistory.JoinKeepsIff | neural_pods/household.py:107-113 | from any such state an announcement keeps this exactly when the pod is free |
| HouseholdHistory.BusyRejoin | neural_pods/household.py:107-113 | a reachable household in which a busy pod re-joins and reads as free while its plan is open |
| HouseholdHistory.WindowSuffices | neural_pods/household.py:280-300 | the end of a log rebuilds the open allocations exactly when each one open before the cut is mentioned after it |
| HouseholdHistory.LongLogIsWholeIff | neural_pods/household.py:280-300 | the same for the window the code reads |
| HouseholdHistory.StartFallsOutOfTheWindow | neural_pods/household.py:280-300 | a reachable household with more events than a restore reads, whose open allocation is not restored |
| HouseholdHistory.ShortLogIsWhole | neural_pods/household.py:289-294 | a log within the window is read whole |
| HouseholdHistory.RestoreRebuildsIff | neural_pods/household.py:280-326 | a restore yields the live allocations, offers and marks exactly when the log is short or every allocation open at the cut is mentioned since |
| HouseholdHistory.RestoreRebuilds | neural_pods/household.py:280-326 | restoring a fresh household with the same offers yields the same plans, busy marks and owners |
| HouseholdHistory.ReleaseAllFrees | neural_pods/household.py:248-278 | from any such state releasing the open requests frees every pod |
| HouseholdLog.LogTellsIff | neural_pods/household.py:153-278 | over all calls and all orders in which late events are written, busy marks, plans and requests are right, and the log tells what is open exactly when each request's start and release are told in order |
| HouseholdLog.AllWrittenIff | neural_pods/household.py:153-278 | once every event is written, exactly when no release was written before its start |
| HouseholdLog.ReleaseWrittenFirst | neural_pods/household.py:248-278 | a release written before its start, after which the log tells of an allocation that is not open |
| HouseholdLog.RequestsRestored | neural_pods/household.py:297-326 | a restore keeps exactly the started requests, which can then be released with the same effect; all others are unknown |
| HouseholdLog.NothingLostIff | neural_pods/household.py:84-94 | a restart loses no request exactly when all are started |
| HouseholdLog.PendingIsLost | neural_pods/household.py:84-94 | a pending request that a restart loses |
| HouseholdLog.SharedLogIff | neural_pods/household.py:280-300 | from a log that several households write to, a restore rebuilds a household's own allocations exactly when no other has any open |
| HouseholdLog.OthersAreRestored | neural_pods/household.py:280-300 | a new household that takes over the allocation of another |
| Households.Household.StartAllocation | neural_pods/household.py:180-246 | the nested loops over segments, donors and tiers produce exactly the specified plan, or fail and change nothing |
| Households.Household.ReleaseAllocation | neural_pods/household.py:248-278 | the in-place release equals the specified one and returns the pods of the plan |
| Households.Household.RestoreFromEvents | neural_pods/household.py:280-326 | the replay loop rebuilds what the log leaves open |
| Replication.AcceptedWriteIsNeverLost | neural_pods/replication.py:69-107 | after an accepted write and any later operations of any coordinators, a read answered by more than n - quorum replicas finds that revision or a later one |
| Replication.CleanWriteIsRead | neural_pods/replication.py:69-110 | with no rival at the revision before the write, and later writers that know the revision, such a read returns the record itself or a later one, and a tombstone as absence |
| Replication.RivalsUnchanged | neural_pods/replication.py:32-35 | a write round leaves rivals at its revision if and only if there were some before |
| Replication.RivalIsReadIff | neural_pods/replication.py:97-107 | exactly when a large enough read returns another payload at the revision |
| Replication.PayloadIsReadIff | neural_pods/replication.py:69-107 | after an accepted write all large enough reads return it or a later record, exactly under a condition on the replicas before the write and on which of them it reached |
| Replication.PayloadStaysReadIff | neural_pods/replication.py:69-107 | the same condition decides whether it stays read after every later history of writers that know the revision |
| Replication.RivalSurvives | neural_pods/replication.py:69-107 | a failed and a retried write after which a full read returns the payload that failed |
| Replication.ReadThenWriteIsLater | neural_pods/replication.py:72-73 | a coordinator that has read past a replicated write only writes later revisions |
| Replication.QuorumReplicator.PutWithRetries | neural_pods/replication.py:77-91 | one replica is tried until it acknowledges or the retries run out |
| Replication.QuorumReplicator.Write | neural_pods/replication.py:69-95 | the retry loops over the replicas have exactly the effect of the specified write |
| Replication.QuorumReplicator.Tombstone | neural_pods/replication.py:109-110 | a tombstone is a write whose record reads as absence |
| Replication.QuorumReplicator.Read | neural_pods/replication.py:97-107 | the loop returns the specified winner and remembers its revision |
| BatchingHistory.RunKeeps | neural_pods/adaptive_batcher.py:62-188 | along every interleaving of callers, cancellations at any step, closing calls and the worker, lost races included, the counter equals the queued total within its bound, and what is undecided waits or is in the worker's hand |
| BatchingHistory.EachInOnePlace | neural_pods/adaptive_batcher.py:62-188 | at every moment a request is in exactly one of its queue, the worker's hand and a final outcome, and in the first two once |
| BatchingHistory.OutcomeIsFinal | neural_pods/adaptive_batcher.py:62-188 | a decided outcome never changes |
| BatchingHistory.BatchesInOrder | neural_pods/adaptive_batcher.py:134-180 | every call of run_batch gets a non-empty batch within the limit, of one key, in submission order, and no request runs twice or after a later one of its key |
| BatchingHistory.ExitDecidesAll | neural_pods/adaptive_batcher.py:147-153 | when the worker has left by itself, every request ever made is decided |
| BatchingRaces.LostFromStart | neural_pods/adaptive_batcher.py:115-188 | over every history the futures whose setting raised or is bound to raise are exactly those cancelled between the look and the setting |
| BatchingRaces.UndecidedIffNotWithdrawn | neural_pods/adaptive_batcher.py:181-188 | from the look to the setting a future stays undecided exactly when its caller does not cancel it in between |
| BatchingRaces.SettingIff | neural_pods/adaptive_batcher.py:115-188 | a setting takes effect exactly when the future is still undecided; otherwise results give way to the error for the whole batch, and in the scan or while an error is set the worker is lost |
| BatchingRaces.ClosingIff | neural_pods/adaptive_batcher.py:81-92 | a setting in a closing call takes effect exactly when the future is still undecided; otherwise the call ends with the rest still queued |
| BatchingRaces.CrashedIff | neural_pods/adaptive_batcher.py:147-188 | the worker is lost exactly when a setting in the scan or of an error has raised |
| BatchingRaces.ResultsMatchPositions | neural_pods/adaptive_batcher.py:177-188 | a decided request that was not cancelled has the answer of its own position of its own batch exactly when no setting raised at an earlier position, and else the error of that setting |
| BatchingRaces.UnracedIsClean | neural_pods/adaptive_batcher.py:115-188 | a history without such a cancellation never raises, never loses the worker, and answers every request with its own result |
| BatchingRaces.StrandedForever | neural_pods/adaptive_batcher.py:147-188 | after a crash an undecided request stays undecided until its caller cancels it or a closing call reaches it in its queue |
| BatchingExamples.RunningIsCancelled | neural_pods/adaptive_batcher.py:229-240 | a reachable batch with run_batch of which a request is still cancelled |
| BatchingExamples.RaceSpoilsBatch | neural_pods/adaptive_batcher.py:181-188 | a cancellation between look and setting after which the next request of the batch fails though it had a result |
| BatchingExamples.RaceKillsWorker | neural_pods/adaptive_batcher.py:117-123 | a cancellation between look and setting of a late request that ends the worker and strands the other request for good |
| BatchingUndisturbed.TurnIsWake | neural_pods/adaptive_batcher.py:107-157 | the steps of a turn in which nobody cancels add up to the selection as a whole |
| BatchingUndisturbed.FlushesAreClose | neural_pods/adaptive_batcher.py:81-92 | the steps of a closing call in which nobody cancels add up to the closing as a whole |
| BatchingSections.WaitIsBounded | neural_pods/adaptive_batcher.py:107-133 | an undisturbed turn that finds nothing to run leaves no head of a queue waiting beyond the limit |
| BatchingSections.OldestKeyRuns | neural_pods/adaptive_batcher.py:107-146 | the batch of an undisturbed turn starts with a live request that no other queue's head was submitted before |
| BatchingSections.NoHaste | neural_pods/adaptive_batcher.py:126-145 | a batch leaves only if its queue was long enough or its first request is old or near its deadline, and leaves full or with all its queue had |
| BatchingSections.CloseKeeps | neural_pods/adaptive_batcher.py:81-92 | an undisturbed closing call with cancellation leaves nothing queued and the worker where it was |
| BatchingDeadlines.WakeTakes | neural_pods/adaptive_batcher.py:107-145 | the batch of an undisturbed turn is, from the first request of its queue that is neither cancelled nor late, the first ones that were not cancelled |
| BatchingDeadlines.LateIff | neural_pods/adaptive_batcher.py:112-145 | a batch holds a late request exactly when one of those first requests is late |
| BatchingDeadlines.WakeLateIff | neural_pods/adaptive_batcher.py:107-145 | the same for the batch of an undisturbed turn |
| BatchingDeadlines.SomeMomentLateIff | neural_pods/adaptive_batcher.py:112-145 | some moment makes what a queue offers late exactly when a request is due before one in front of it, within a batch of it, all before which are due earlier |
| BatchingDeadlines.SomeTurnLateIff | neural_pods/adaptive_batcher.py:107-157 | with a single key and a positive target latency some turn of the worker dispatches late exactly then |
| BatchingDeadlines.AscendingNeverLate | neural_pods/adaptive_batcher.py:112-145 | a queue whose deadlines never go down never dispatches late |
| BatchingExamples.LateBehindHead | neural_pods/adaptive_batcher.py:112-145 | a reachable queue from which a request is dispatched after its deadline |
| Batchers.AdaptiveBatcher.CancelFuture | neural_pods/adaptive_batcher.py:229-240 | a future is cancelled exactly when it was undecided |
| Batchers.AdaptiveBatcher.SelectBatch | neural_pods/adaptive_batcher.py:107-145 | the nested loops drop dead heads, choose a queue and fill a batch exactly as specified |
| Batchers.AdaptiveBatcher.SubmitRequest | neural_pods/adaptive_batcher.py:62-79 | the in-place submission equals the specified one and keeps the invariant |
| Batchers.AdaptiveBatcher.TakeTurn | neural_pods/adaptive_batcher.py:107-157 | one turn of the worker equals the specified selection; it leaves only when all is decided, and sleeps only when all heads are young |
| Batchers.AdaptiveBatcher.AdmitBatch | neural_pods/adaptive_batcher.py:158-170 | no request cancelled since selection reaches run_batch |
| Batchers.AdaptiveBatcher.RunEnded | neural_pods/adaptive_batcher.py:177-188 | each request of the batch is to get its own value, or all the error |
| Batchers.AdaptiveBatcher.CheckFuture | neural_pods/adaptive_batcher.py:181-188 | the look: a decided future is passed over, an undecided one is about to be set |
| Batchers.AdaptiveBatcher.SetFuture | neural_pods/adaptive_batcher.py:181-188 | the setting: it takes effect exactly when the future is still undecided, and else sends the error through the batch or ends the worker |
| Batchers.AdaptiveBatcher.CloseBatcher | neural_pods/adaptive_batcher.py:81-92 | closing equals the specified step; with cancellation no queue holds anything |
| Mesh.DepartsIff | neural_pods/mesh.py:241-284 | an envelope is passed on exactly when it is well formed, in time, has a hop to spare and has not passed this pod before |
| Mesh.ArrivesIff | neural_pods/mesh.py:59-113 | an envelope is acted on exactly when it is well formed, in time and, if bounded, has a hop left |
| Mesh.JudgeRaisesIff | neural_pods/mesh.py:83-113 | a decision raises exactly when a time or, in time, the budget is a number too large to convert |
| Mesh.DepartFaultsIff | neural_pods/mesh.py:250-284 | the exact condition for each error that forwarding raises |
| Mesh.RaisingEnvelopes | neural_pods/mesh.py:250-284 | envelopes for which forwarding raises on the trail, the deadline and the budget |
| Mesh.DeliveredNeverRaises | neural_pods/mesh.py:356-411 | an envelope that was delivered is never refused with a conversion error later |
| Mesh.SentIsAccepted | neural_pods/mesh.py:241-284 | what one pod passes on every pod accepts at that moment, and later exactly until the original deadline |
| Mesh.HopKeeps | neural_pods/mesh.py:268-284 | a hop keeps budget plus trail constant, the trail free of repeats and the original time |
| Mesh.DepthBounded | neural_pods/mesh.py:241-284 | the depth stays below the initial budget and the forwarding pods are distinct |
| Mesh.ForwardingQuiesces | neural_pods/mesh.py:241-284 | in every run with finite fan-out all messages descend from the published one, and the number of deliveries is bounded in advance |
| Mesh.PublishQuiesces | neural_pods/mesh.py:212-239 | from one bounded publish the wire is empty after at most that many deliveries |
| Mesh.SharedKeyArrives | neural_pods/mesh.py:300-321 | between endpoints that share protocol and key a forwarded message is delivered exactly until its deadline |
| Mesh.MeshEndpoint.PublishRaw | neural_pods/mesh.py:316-333 | missing fields are stamped, a time that is present is kept, and a keyed endpoint signs |
| Mesh.MeshEndpoint.Forward | neural_pods/mesh.py:241-284 | forwards as specified and counts each refusal once under its reason |
| Mesh.MeshEndpoint.OnMessage | neural_pods/mesh.py:356-416 | every arriving message is counted exactly once, and delivered exactly when it is accepted |
| RaftFrames.DecodeIffEncode | neural_pods/raft_transport.py:21-44 | for a digest of 64 ASCII characters decoding yields a frame from a byte string exactly when encoding the frame yields the byte string |
| RaftFrames.LongestFramePrefix | neural_pods/raft_transport.py:141-155 | what is read off a stream is a prefix of well-formed frames, and every such prefix is part of it |
| RaftFrames.Socket.ReadExact | neural_pods/raft_transport.py:111-118 | for every chunking exactly the requested bytes are read, or the stream ended before |
| RaftFrames.Connection | neural_pods/raft_transport.py:141-155 | for every chunking exactly those frames are delivered in order, up to the stop |
| RaftSender.ReceivesWhatWasSent | neural_pods/raft_transport.py:69-85 | off any connection, cut off or not, the receiver reads exactly the frames written whole on it |
| RaftSender.PersistentRaftClient.Send | neural_pods/raft_transport.py:69-85 | each call takes a new sequence number; on success the frame is the last on the connection in use; on every connection it was written whole at most once |
| Postings.EncodeOneCanonical | neural_pods/block_postings.py:8-14 | each number gets its canonical unsigned LEB128 form |
| Postings.RoundTrip | neural_pods/block_postings.py:8-22 | decoding the encoding gives the list back, for ascending natural numbers of any size |
| Postings.EncodableIff | neural_pods/block_postings.py:8-14 | exactly the ascending lists of natural numbers can be encoded |
| Postings.EncodeLoop | neural_pods/block_postings.py:8-14 | the byte loop, written on bits, emits the encoding, or stops at a value that no byte can hold |
| Bits.OrOfDisjoint | neural_pods/block_postings.py:18 | or-ing in bits above all set ones is adding them |
| Bits.AndOfMask | neural_pods/block_postings.py:12 | masking the low bits is the remainder modulo a power of two |
| Postings.DecodeLoop | neural_pods/block_postings.py:15-22 | the byte loop, written with the or, mask and shift of the bits, computes the decoded list |
| Postings.IncreasingUnique | neural_pods/block_postings.py:29-33 | a set has one sorted listing, so the union is determined by its members |
| Postings.BlockPostings.Add | neural_pods/block_postings.py:27-28 | the blocks of a term decode to its latest ids for any block size; a negative id raises and changes nothing |
| Postings.BlockPostings.Union | neural_pods/block_postings.py:29-33 | the sorted duplicate-free union of the latest ids of the terms |
| Postings.ClusterPostings.Add | neural_pods/block_postings.py:41-44 | each cluster's block decodes to exactly the documents filed under it |
| Postings.ClusterPostings.Union | neural_pods/block_postings.py:45-49 | the sorted duplicate-free union over all clusters of the terms |
| Placement.ChosenCoverZones | neural_pods/placement.py:82-95 | the chosen nodes cover as many live zones as that many replicas can |
| Placement.PassedOverIsWorse | neural_pods/placement.py:82-95 | a node passed over is worse than every chosen node of its zone and every filler |
| Placement.Select | neural_pods/placement.py:82-95 | the two passes with early exit choose the front of the order of preference |
| Placements.ChosenWellPlaced | neural_pods/placement.py:72-101 | the first candidates in the order of preference meet the whole placement promise |
| Placements.PlacementDriver.Rebalance | neural_pods/placement.py:103-107 | the region is placed afresh at its size exactly when enough nodes live |
| Placements.PlacementDriver.Assign | neural_pods/placement.py:72-101 | distinct live replicas of the asked number over as many zones as possible, led by the least loaded live node, under the next epoch; errors change nothing |
| Placements.PlacementDriver.Reconcile | neural_pods/placement.py:109-120 | a pass succeeds exactly when every region that lost a replica is no larger than the live nodes, then leaves live replicas only, keeps sizes and touches no healthy region |
| Placements.PlacementDriver.Register | neural_pods/placement.py:50-56 | a node with an id, a zone and capacity is stored live and without load |
| Placements.PlacementDriver.SetHealth | neural_pods/placement.py:68-70 | only the health of a known node changes |
| Placements.PlacementDriver.Heartbeat | neural_pods/placement.py:58-66 | a negative load is refused after the node was already marked as heard from |
| Leases.SupersededForever | neural_pods/placement.py:165-189 | a fence below the current one never validates or renews again |
| Leases.OneLeader | neural_pods/placement.py:165-189 | along any run a later valid fence is no smaller, and one fence never serves two holders |
| Leases.LeadIsExclusive | neural_pods/placement.py:165-183 | while a lease runs nobody else takes the lead, however often it is renewed |
| Leases.ValidWhileCurrent | neural_pods/placement.py:165-189 | a lease just granted validates exactly before its expiry, with the next fence if acquired and the same one if renewed |
| Leases.TakeoverIff | neural_pods/placement.py:165-174 | someone else takes the lead exactly when the lease has run out |
| Leases.FencedLeader.TakeLead | neural_pods/placement.py:165-174 | acquires as specified and never lowers term or fence |
| Leases.FencedLeader.Extend | neural_pods/placement.py:176-183 | renews as specified and keeps term and fence |
| Leases.FencedLeader.MayCommit | neural_pods/placement.py:185-189 | only the current fence of the current holder before its expiry may commit |

## Left out

- Constructors that raise on bad limits (batch and queue sizes, quorum, block size, timeouts, lease spans) take them as preconditions here.
- Time: each operation reads the clock once; `_valid` and `assign` inside `reconcile` read it repeatedly.
- Timestamps are numbers; parsing, time zones and the normalisation of validity fields are not modelled.
- `derivation_hash` in artifact headers, the time column of events and `hash_files`/`verify_files` are not modelled.
- Lists the registry sorts before storing them (access lists, parents, origins) are sets here.
- `adopt_lineage` also refuses two registries on one SQLite file; only the same registry object is refused here.
- The Redis tier of the result cache is not modelled. Arguments of a search that no key shows are one value.
- A search of the store is one atomic step; truly concurrent searches and writes are not modelled.
- Embedders, schemas with vector dimensions, `reembed_namespace` and the vector index are not modelled.
- The token cache of the store, its stage pipeline in `query`, and all scores are behind one uninterpreted score with ties broken by key.
- `_match_filter` and `_authorized` are uninterpreted predicates of a row; the examples evaluate mapping filters, not expressions.
- Filters: sets, mappings that are no dictionaries, mappings with several non-string keys whose texts are not in their sorting order, and the equality of 1, 1.0 and True. A mapping is listed in the order of its keys' texts, also where a sequence of mappings converts to a mapping.
- Row metadata is what reads back from its stored text; metadata that JSON cannot write and callers that change the metadata of a returned hit are not modelled.
- Task graphs: the payload a handler gets beside its inputs, and rounded statistics; a raising handler yields no output, as in the code.
- HouseholdHistory.RunKeeps: takes a change and its event as one step; the steps of their own are in `HouseholdLog`.
- Household: a shared log is taken as the events of several households with request ids of their own.
- Household: `calibrate`, the token cache, start times and the statistics; the hashed request id is any id not used before.
- Household: start events that name no donors, for which a restore falls back to the pods of the plan; no started request of the model has an empty donor list.
- Replication: the fault injector, latencies, back-off and record digests; a put either reaches the replica or not, acknowledged or not.
- Batcher: statistics, condition variables and the thread itself. A request that is checked in a queue is popped when it is set; the lock hides the queue in between. Sorting a held batch into cancelled and active requests is one step; it sets no future.
- Mesh: topic filters and the topic access list are a yes-or-no input; JSON, infinite deadlines and the publish retry loop are not modelled; the signature is a function of key and envelope.
- Raft transport: TLS, peer subjects, socket timeouts and accept loops are not modelled.
- Postings: `stats`.
- Placement: `route`, `metadata` and the locks; loads are real numbers.
- Model training and inference, routing models, sentence encoders, Qdrant, benchmark and audit scripts are outside the model.
