# A model of libnogdb's core

libnogdb is a graph database library: a versioned graph in memory over a key/value store, with graph searches, value
indexes, a record format and a schema of inheriting classes. This project models the logic of those parts in Dafny and
proves what they are for.

- **Graph searches** (`GraphView`, `Dijkstra`, `Levels`, `BreadthRounds`, `BreadthExact`, `BreadthFirst`, `PathSearch`,
  `DepthTree`, `DepthFirst`, `DepthExample`). The loops of the source over heaps, queues and stacks, against walks,
  distances, levels and reachability in the filtered graph; the depth-first search also against the plain recursion
  (`DepthTree`).
- **Versioned store** (`Histories`, `VersionControl`, `MultiVersionMap`, `DeleteQueue`, `Store…`, `Snapshots`,
  `Publication`, `Relation`). A state machine with one writer and any number of readers. A commit is a sequence of
  steps between which readers come and go. `StoreInvariant` holds the invariant, one predicate per key; the files from
  `StoreDetach` to `StoreRollback` show that every step keeps it; `StoreRuns` carries it over whole runs. On top of
  that: agreement of lists and ends (`StoreRuns`), rollback as undo (`StoreUndo`), stable snapshots (`Snapshots`),
  commits that publish what the writer saw (`Publication`) and prune below all readers (`StoreBase`), safe reclamation
  (`StoreReaders`), what each operation changes and what it leaves (`StoreEffects`). `StoreModel` puts it together: the
  store follows, step by step, a simple model with one plain graph for each committed version and one for the writer.
  `Relation` runs the loops of the source over this state and proves them equal to the steps; `StoreGraph` links the
  store to the graphs that the searches take. `StoreLimits` says exactly when promises fail, and `StoreExamples` has
  runs from the empty store in which they do.
- **Id lists** of the bundled key/value store (`IdList`, `IdSort`, `IdMerge`): in-place sort, merge, search, insertion.
- **Reader/writer spin lock** (`SpinLock`): a protocol of atomic steps.
- **Index search** (`IndexTable`, `SignedIndex`, `Conditions`, `IndexQuery`): cursors, signed ranges over two unsigned
  tables, and condition trees with negation pushed to the leaves.
- **Record format** (`RecordCodec`) and **schema** (`SchemaForest`, `SchemaTable`, `SchemaNames`, `SchemaDrop`,
  `Schema`, `SchemaRuns`).

## How to read the store

A weak pointer is an object identity (`Oid`); it can be followed while the shared table or the writer's own table still
holds the object under its record id. A history that is absent and one that is empty are the same. `Out` pairs a
vertex's out-list with an edge's source, `In` the in-list with the target, so that each of the two is written once.

The steps are those of the source with these hypotheses, which the code needs and its callers provide.

- A transaction that reads begins in one step and ends in one step; the delete queues are filled and the new version is
  made current in one step. `StoreLimits` shows what happens when either of the last two is split.
- A record id is not given out again while an object that is deleted is still stored under it (`Usable`), and a
  self-loop is created on a vertex that is already in memory; `StoreLimits.CreateEdgeAgreesIff` shows that for creating
  an edge this is exactly what is needed.

Storing and stamping an object, and stamping an edge with both its ends, are single steps of the model: no reader at an
earlier version can tell the writes inside them apart.

## Where the code and its promises differ

- The breadth-first search counts levels by the first vertex met from each. If the vertex filter rejects that vertex,
  the count stalls, and whatever is found later is reported one step from that level. `BreadthExact.ExactIff` says
  exactly when the reported depths are right nevertheless: when, from the first stall on, nothing is left at the first
  distance that is asked for. A rejected vertex that is not met first does no harm. `BreadthFirst.SpoiledSearch` is a
  search that reports a wrong depth.
- The depth-first search does not go on from a vertex that it first meets at the depth limit, even if there is a
  shorter walk to it. So it can miss vertices within the limit: `DepthTree.MissesIff` says exactly when, and
  `DepthExamples.DetourSearch` is a search that misses one.
- The shortest-path search fails on a destination that the filter rejects, exactly if it touches it
  (`PathSearch.ShortestPath`).
- Pruning can take away the entry that an active reader uses. `Snapshots.SnapshotIsStable` says exactly when, for each
  list and each end by itself; it does not happen to entries committed at the oldest active reader's version or later
  (`StoreBase.ReadsAreKept`). `StoreExamples.LosesEdge` is a run in which a reader loses an edge and its source. A
  search by such a reader may meet an edge that is listed and has no end (`StoreGraph.EndStaysIff`).
- A vertex or edge that is created after a reader's version becomes visible to it once it is being deleted
  (`Snapshots.VisibleIffExisted`).
- Creating a self-loop on a vertex that is not in memory makes two vertex objects (`StoreLimits.SelfLoopDangles`).
- Filling the delete queues before the new version is current, and ending a reader in several steps, each let a reader
  lose vertices and edges of its version. `StoreLimits.ReaderEndsWhilePublishing` and
  `StoreLimits.ReaderEndsOnStaleCheck` say exactly when, `StoreLimits.PublishingLoses` and
  `StoreLimits.StaleCheckLoses` are runs in which it happens.
- The sort of id lists is safe exactly up to 2^30 + 3 ids: beyond that there are lists for which the sum of the bounds
  of a range exceeds an `int` (`IdSort.Sort`, `IdSort.NineLastExists`). The searches in id lists take the length modulo
  2^32.
- A lookup of a class by name stops at the first descriptor that bears the name, even if its class is dropped
  (`SchemaNames.ShownIff`). So the same name can be given to two classes, and then stands for neither
  (`SchemaRuns.HiddenFromStart`, `SchemaRuns.CreateCommitCreate`).
- Dropping a class removes it from its superclass by name and erases one entry. With two subclasses of that name, which
  can come about (`SchemaRuns.TwoSiblings`), entries are left that nothing specifies. `SchemaDrops.CertainIff` says
  exactly when the outcome is as it should be.
- The empty name stands for a class that the transaction has changed and not named, if its descriptor comes first
  (`SchemaNames.WrongNameIff`). Operations that do not check the class name then act on that class
  (`SchemaRuns.DropEmptyName`, `SchemaRuns.AlterEmptyName`).
- A property may be given the name of a built-in one, which then has two ids (`SchemaForest.BuiltInNameHasTwoIds`).
- The negation of a condition on a missing property is true when checked directly and not when answered from an index
  (`Conditions.NullMatters`); `Conditions.PushedIsCheck` says exactly for which records the two differ.
- The negation of a range whose bounds are crossed lists a record twice, exactly when its value lies beyond both bounds
  (`IndexQuery.NotBetween`); `IndexQuery.Evaluate` says how often a whole tree of conditions lists each record.
- The search over a condition tree computes its answer and then returns an empty list (src/index.cpp:422-423); the model
  is of what it computes.
- The spin lock's 32-bit counter limits it to 2^32 threads (`SpinLock.ExcludesIff`).

## Model

| member | source | states |
|---|---|---|
| GraphView.Admitted | src/algorithm.hpp:259-290 | of the edges given, exactly those that pass the edge filter are kept, in order of the list |
| GraphView.CollectEdges | src/algorithm.hpp:304-380 | the edges collected at a vertex are exactly the listed ones of a requested class that pass the filter, class by class and in order of the list |
| GraphView.Query.HopMeans | src/algorithm.cpp:170-185 | for each direction, a hop leads along an allowed edge from its one end to its other, and every such edge is a hop |
| GraphView.Query.HopIsEdge | src/algorithm.cpp:170-185 | where every edge is listed at both ends, the hops are exactly the edges that are wanted, from source to target, from target to source, or either way |
| Dijkstra.Pop | src/algorithm.hpp:170-173 | an element is taken off the heap that no other element is below |
| Dijkstra.RelaxArc | src/algorithm.hpp:195-203 | keeps the search invariant with one more arc relaxed: the tree of parents, one current heap entry per open vertex, stale entries above the recorded distance |
| Dijkstra.Explore | src/algorithm.hpp:165-205 | ends on every finite graph with the destination's distance no more than any walk's, and a tree of parents ranked so that every parent precedes its child |
| Dijkstra.Optimal | src/algorithm.hpp:168-181 | when the destination is popped, or the heap is empty, no chain of arcs to it is cheaper than what is recorded |
| Dijkstra.ParentWalk | src/algorithm.hpp:211-215 | following parents back from the destination ends at the source, also through zero-cost cycles, along a chain whose weights sum to the distance |
| Dijkstra.WalkToChain | src/algorithm.hpp:183-195 | every allowed walk is a chain of arcs of the same cost, so that bounds on chains are bounds on walks |
| Dijkstra.ShortestPath | src/algorithm.hpp:127-224 | an answer is found exactly if an allowed walk exists, its cost is the sum along the path returned, no allowed walk is cheaper, and the four error and on-disk cases are told apart |
| Levels.LevelsAreDistances | src/algorithm.cpp:136-183 | the vertices met level by level, in order of the edge lists, that pass the filter are exactly those at each distance |
| BreadthRounds.AfterSound | src/algorithm.cpp:136-183 | in every round, whatever the filter, no vertex is reported twice and all reported are reached through passing vertices |
| BreadthRounds.AnswerIs | src/algorithm.cpp:163-183 | the loop is a fixed sequence of rounds and has one answer |
| BreadthExact.MetDuring | src/algorithm.cpp:136-157 | meeting the neighbours of a vertex extends what has been met from the level: visited set, queue, marker and report are those of the level so far |
| BreadthExact.StartAdvance | src/algorithm.cpp:164-170 | when the first vertex of a level leaves the queue the counter is that level, unless the search has stalled |
| BreadthExact.Arrives | src/algorithm.cpp:163-183 | without a stall the search comes to the end of every level it queues, with exactly the vertices up to there reported at their distances |
| BreadthExact.StallLosesMarker | src/algorithm.cpp:150-156 | if the first vertex met from a level is rejected, it becomes a marker that is never queued |
| BreadthExact.LostForGood | src/algorithm.cpp:142-170 | from then on the level never moves, and whatever is new is reported at one and the same depth |
| BreadthExact.ExactIff | src/algorithm.cpp:105-193 | exactly the vertices at a distance within the bounds are reported, at that distance, if and only if the search does not stall, or there is no vertex at the first distance asked for after its first stall |
| BreadthFirst.Search | src/algorithm.cpp:105-193 | whatever the filter, no vertex is reported twice and all are reachable; depths are exact if and only if the condition on stalls holds, which it does if no neighbour is rejected; the error and on-disk cases |
| BreadthFirst.RejectedNeighbourSpoilsDepth | src/algorithm.cpp:127-183 | in every graph where a vertex meets a rejected one and then one that leads on, the search reports a vertex two steps away at depth 1 |
| BreadthFirst.SpoiledSearch | src/algorithm.cpp:105-193 | such a graph, and what the search answers on it |
| PathSearch.MeetKeeps | src/algorithm.cpp:327-337 | meeting a vertex keeps: every visited vertex other than the source was met from one that is one step nearer |
| PathSearch.WalkBack | src/algorithm.cpp:346-352 | the walk back along parents ends at the source after exactly the distance in steps |
| PathSearch.ShortestPath | src/algorithm.cpp:291-369 | fails with an out-of-range error exactly if the destination is rejected and touched; otherwise empty exactly if the destination is unreachable, else a walk of minimum length with depth i at index i |
| DepthTree.VisitsAre | src/algorithm.cpp:221-280 | for any depth limit, the recursion visits the root first and every vertex once, at the length of a walk to it, and every vertex one hop from one visited above the limit |
| DepthTree.VisitsAll | src/algorithm.cpp:221-280 | with a limit of at least the number of vertices it visits exactly what can be reached |
| DepthTree.SelectedIs | src/algorithm.cpp:231-245 | exactly the visits at or below the lower bound that are the root or pass the filter are reported |
| DepthTree.BoundOnlyLeavesOut | src/algorithm.cpp:231-231 | a lower bound takes nothing from the answer but what is above it |
| DepthFirst.BackUp | src/algorithm.cpp:276-278 | stops at the deepest level that still holds a vertex, or at level 0, and nothing left to do is lost |
| DepthFirst.Visiting | src/algorithm.cpp:228-274 | after a first visit, what is on the stack completes the visits made so far to those of the recursion |
| DepthFirst.Search | src/algorithm.cpp:195-289 | ends; for all bounds the answer is what the recursion visits, in its order and at its levels, less what is above the lower bound or rejected: exactly the answer without a lower bound, cut to the depths asked for. Each vertex is reported once, at the length of a real walk; with enough depth nothing reachable is missing |
| DepthTree.MissesIff | src/algorithm.cpp:247-274 | with any depth limit, a vertex that can be reached within it is missed exactly if some vertex with a shorter walk was visited at the limit and a neighbour of it is not visited |
| DepthExamples.DetourSearch | src/algorithm.cpp:247-274 | a search to depth 2 that does not report a vertex two hops away |
| Histories.CommitReads | src/version_control.hpp:155-162 | a commit at c keeps the order, changes reads at c and above only, where it shows what the writer saw, and leaves the writer's view |
| Histories.PruneReads | src/version_control.hpp:124-141 | pruning changes a read exactly if it drops the live entry that read uses, and then the read finds nothing |
| Histories.PruneKeeps | src/version_control.hpp:124-141 | pruning keeps the order, the latest read, the uncommitted version and the newest committed object |
| Histories.AboveOldestIsKept | src/version_control.hpp:127-138 | a reader at or above the oldest surviving entry, or the dropped tombstone, is never affected |
| Histories.DropOldDrops | src/version_control.hpp:127-133 | exactly the entries below the base, except the last, are dropped |
| Histories.PruneLosesReader | src/version_control.hpp:127-133 | entries 1 and 5 with base 3: the reader at 3 loses its entry |
| VersionControls.VersionControl.DeleteLatestVersion | src/version_control.hpp:64-73 | leaves a tombstone over the latest version, or nothing if there is none |
| VersionControls.VersionControl.GetLatestVersion | src/version_control.hpp:75-90 | returns the uncommitted version if visible, else the newest committed one, unless it is a tombstone |
| VersionControls.VersionControl.GetStableVersion | src/version_control.hpp:110-122 | the search from the newest entry down returns the read at a version |
| VersionControls.VersionControl.ClearStableVersion | src/version_control.hpp:124-141 | the erasing loop is the prune of the history; size 0 exactly if nothing is left |
| VersionControls.VersionControl.UpgradeStableVersion | src/version_control.hpp:155-162 | commits the uncommitted version, if visible |
| VersionControls.RunKeepsOrder | src/version_control.hpp:60-167 | in every run of add, delete, commit, rollback and prune the committed versions strictly increase |
| VersionControls.RunKeepsRead | src/version_control.hpp:60-167 | in every run that spares its entry, a read at an earlier version returns the same |
| MultiVersionMaps.ClearAllIn | src/multiversion_hashmap.hpp:114-124 | every history of a bucket is pruned, and keys whose history is empty are gone |
| MultiVersionMaps.TwoLevelMap.Insert | src/multiversion_hashmap.hpp:153-164 | as on a flat map: one history gets a new uncommitted version, all others are as before, no empty bucket |
| MultiVersionMaps.TwoLevelMap.FindAt | src/multiversion_hashmap.hpp:175-182 | reads the history of the two keys at a version; nothing where either key is missing |
| MultiVersionMaps.TwoLevelMap.Erase | src/multiversion_hashmap.hpp:194-200 | one history gets a tombstone, all others are as before |
| MultiVersionMaps.TwoLevelMap.ClearAt | src/multiversion_hashmap.hpp:202-210 | one history is pruned, or rolled back for base 0, and its key and bucket disappear when nothing is left |
| MultiVersionMaps.TwoLevelMap.Clear | src/multiversion_hashmap.hpp:212-221 | every history of every bucket is pruned; no empty history or bucket is kept |
| MultiVersionMaps.TwoLevelMap.Keys | src/multiversion_hashmap.hpp:234-241 | the keys listed are exactly those with a history that holds anything, once each |
| DeleteQueues.ConcurrentDeleteQueue.PopFront | src/concurrent.hpp:61-69 | pops exactly the entries at the front up to the first above the bound, and returns their ids in order |
| DeleteQueues.OrderedQueuePopsAll | src/concurrent.hpp:61-69 | in a queue ordered by version those are all entries at or below the bound |
| StoreMove.CreateEdgeKeeps | src/mem_edge.cpp:29-50 | creating an edge, making its vertices if need be, keeps the invariant |
| StoreMove.DeleteEdgeKeeps | src/mem_edge.cpp:52-74 | deleting an edge keeps the invariant and the edge is not found any more |
| StoreMove.AlterEndKeeps | src/mem_edge.cpp:125-175 | moving either end of an edge, to an old or a new vertex, keeps the invariant |
| StoreMove.AlterEndFails | src/mem_edge.cpp:125-175 | it fails only if there is no such edge, never because an end cannot be reached |
| StoreMove.CreateVertexKeeps | src/mem_vertex.cpp:32-39 | creating a vertex keeps the invariant |
| StoreCascade.DeleteVertexKeeps | src/mem_vertex.cpp:41-108 | deleting a vertex with its edges keeps the invariant, whatever order the keys come in |
| StoreCascade.DeleteVertexDeletes | src/mem_vertex.cpp:41-108 | exactly the edges that end at the vertex are deleted with it |
| StoreEffects.CreateVertexFinds | src/mem_vertex.cpp:32-39 | a created vertex is found exactly if its id can be used; every other vertex, every edge and every end is as before |
| StoreEffects.CreateEdgeLinks | src/mem_edge.cpp:29-50 | a created edge is found and runs from the given source to the given target, which are found; every other edge keeps both ends, every other vertex is as before |
| StoreEffects.DeleteEdgeRemoves | src/mem_edge.cpp:52-74 | a deleted edge is not found; every other edge keeps both ends and no vertex changes |
| StoreEffects.AlterEndMoves | src/mem_edge.cpp:125-175 | an altered end is the given vertex, which is found; the other end, every other edge with both ends and every other vertex are as before |
| StoreEffects.DeleteVertexRemoves | src/mem_vertex.cpp:41-108 | a deleted vertex and the edges that end at it are not found; every other edge keeps both ends and every other vertex is as before |
| StoreCommit.StartCommitKeeps | src/base_txn.cpp:104-115 | taking the oldest read version as base keeps the invariant and the writer's view |
| StoreCommit.CommitVertexKeeps | src/base_txn.cpp:145-155 | committing a vertex keeps the invariant |
| StoreCommit.PickKeeps | src/base_txn.cpp:156-195 | starting on an edge (storing it or pruning its ends, and finding which lists to visit) keeps the invariant |
| StoreCommit.VisitUpgrades | src/base_txn.cpp:168-195 | the lists visited for an edge are those of exactly the ends, uncommitted and committed, that can be reached |
| StoreUpgrade.PruneListKeeps | src/base_txn.cpp:170-170 | pruning a vertex's list in the middle of a commit keeps the invariant |
| StoreUpgrade.UpgradeKeeps | src/base_txn.cpp:171-173 | committing one place of a list keeps the invariant |
| StoreUpgrade.FinishKeeps | src/base_txn.cpp:196-198 | committing the edge's state and ends keeps the invariant |
| StorePublish.PublishKeeps | src/base_txn.cpp:201-211 | making the version current keeps the invariant: what the writer saw is what is now committed |
| StorePublish.EnqueueQueue | src/base_txn.cpp:201-202 | the delete queues stay ordered by version and hold exactly the deleted objects still stored, once each |
| StoreReaders.BeginReadKeeps | src/base_txn.cpp:43-46 | a reader that begins keeps the readers' versions in order of their transaction ids |
| StoreReaders.EndReadKeeps | src/base_txn.cpp:217-226 | a reader that ends, with what it reclaims, keeps the invariant |
| StoreReaders.EndReadSpares | src/txn_object.hpp:132-143 | a reader that ends reclaims nothing that existed at the version of any reader that stays |
| StoreReaders.EndReadReclaims | src/txn_object.hpp:132-143 | a reader that ends removes exactly what was deleted by the next version or before, if all other readers are newer, and otherwise nothing |
| StoreReaders.ReclaimRemoves | src/graph.hpp:142-145 | exactly the stored objects whose deletion is visible and committed at or below the bound are removed |
| StoreReaders.SweepEmpties | src/base_txn.cpp:212-216 | a commit that no reader overlaps empties both queues and leaves no deleted object stored |
| StoreRollback.RollbackKeeps | src/base_txn.cpp:233-297 | rolling back keeps the invariant; leftovers of edges moved twice or created and deleted again do no harm |
| StoreRuns.StepKeeps | src/base_txn.cpp:104-312 | every step of the writer, of a commit, of a rollback and of a reader keeps the invariant |
| StoreRuns.RunKeeps | src/base_txn.cpp:104-312 | so does every run |
| StoreRuns.ListsMatchEnds | src/mem_edge.cpp:29-175 | in every reachable state a vertex of the graph lists an edge exactly if the edge is in the graph and ends there on that side |
| StoreRuns.EndsExist | src/mem_edge.cpp:76-123 | in every reachable state both ends of an edge of the graph are vertices of the graph |
| StoreUndo.StepSteady | src/mem_edge.cpp:29-175 | until a commit begins, no step of a writer or reader changes any committed version |
| StoreUndo.RollbackUndoes | src/base_txn.cpp:233-297 | after any number of transactions that rolled back, a writer finds the same vertices, edges, ends and lists, and every read at every version returns the same |
| Snapshots.StepVersion | src/base_txn.cpp:104-231 | no step changes what existed at a committed version; a step changes what is read there at one list place or one end exactly if it prunes that history and the entry read goes |
| Snapshots.RunVersion | src/base_txn.cpp:104-231 | over a whole run a read at a committed version stays the same exactly if no step prunes the entry; otherwise nothing is read |
| Snapshots.StepServes | src/base_txn.cpp:212-222 | nothing that existed at an active reader's version is reclaimed while it reads, whatever is pruned |
| Snapshots.ReadersAreServed | src/txn_object.hpp:117-143 | in every reachable state nothing has been reclaimed that existed at the version of any active reader |
| Snapshots.ServedReads | src/mem_vertex.cpp:110-200 | a reader finds everything that existed at its version, and every pointer it reads can be followed |
| Snapshots.VisibleIffExisted | src/txn_object.hpp:82-87 | the visibility test shows what existed at the version, and besides exactly what was created later and is deleted or being deleted |
| Snapshots.SnapshotIsStable | src/base_txn.cpp:104-231 | a reader that begins in any reachable state finds every vertex and edge of its version for as long as it reads; what it reads at one list place or one end stays the same exactly if no commit prunes that very entry, and is gone otherwise |
| Snapshots.RollbackIsUnseen | src/base_txn.cpp:233-297 | transactions that roll back change no answer to any active reader, while they run or afterwards |
| StoreBase.BaseIsOldest | src/txn_object.hpp:117-124 | the version a commit prunes below is the greatest that no active reader is below, or the newest if there is none |
| StoreBase.CommitsPruneBelowReaders | src/base_txn.cpp:114-115 | in every reachable state in the middle of a commit, that version is at or below the version of every active reader and of every reader that may begin |
| StoreBase.RunSpares | src/base_txn.cpp:114-195 | while some reader goes on, no commit prunes, for any reader, an entry committed at that reader's version or later |
| StoreBase.ReadsAreKept | src/base_txn.cpp:114-195 | so from any reachable state on, a reader is answered the same about each such list place and each such end, for as long as both go on |
| StoreExamples.LosesEdge | src/base_txn.cpp:104-194 | a run from the empty store in which an active reader at version 2 loses an edge from a list and the edge loses its source |
| Publication.StepView | src/base_txn.cpp:104-217 | no step of a commit changes what its writer sees |
| Publication.CommitPublishes | src/base_txn.cpp:104-217 | once the version is current, a reader at it finds exactly the vertices, edges, ends and lists that the writer saw when it committed |
| StoreModel.StepFollows | src/base_txn.cpp:104-312 | every step of the store is the step of the simple model: operations change the working graph, a rollback restores the newest version, a commit adds a version, nothing else changes anything |
| StoreModel.WriterSeesModel | src/mem_edge.cpp:29-175 | in every reachable state the writer finds exactly the vertices, edges and ends of the working graph of the simple model |
| StoreModel.ReadersSeeModel | src/mem_vertex.cpp:110-200 | in every reachable state every active reader finds exactly the vertices and edges of the graph committed as its version; every end and every listing it reads is one of that graph |
| Relations.KeysOf | src/multiversion_hashmap.hpp:223-232 | the keys of a vertex's list, once each |
| Relations.GetEdges | src/mem_vertex.cpp:110-200 | a writer gets exactly the edges listed whose pointers can be followed, once each; an error exactly if there is no such vertex |
| Relations.GetEdgesAt | src/mem_vertex.cpp:110-200 | the same for a reader at a version |
| Relations.EdgesAreStable | src/mem_vertex.cpp:110-200 | asking again for the edges of one vertex, a reader gets of the first answer exactly those whose entries no commit has pruned from this vertex's list |
| Relations.GetEdgesFindsEnds | src/mem_vertex.cpp:110-200 | those are exactly the edges that end at the vertex |
| Relations.Relation.DeleteVertexAndEdges | src/mem_vertex.cpp:41-108 | the loops over both lists keep the invariant and delete exactly the edges at the vertex |
| Relations.Relation.Commit | src/base_txn.cpp:104-217 | the loops over vertices and edges, in any order, end with a new version in which a reader finds what the writer saw |
| Relations.Relation.RollbackAll | src/base_txn.cpp:233-284 | the loops over vertices and edges, in any order, amount to the rollback of the whole store |
| StoreGraph.StoreIsGraph | src/mem_vertex.cpp:110-284 | what the store answers to its writer meets the precondition of every search, and every edge is listed at both its ends |
| StoreGraph.EndStaysIff | src/mem_edge.cpp:76-123 | an edge that existed at a version keeps its end there exactly if no commit prunes that entry |
| StoreGraph.ReaderIsGraph | src/mem_vertex.cpp:110-284 | what it answers to a reader in any reachable state about what existed at its version does too, if no commit has pruned an end of an edge of that version |
| StoreLimits.CreateEdgeAgreesIff | src/mem_edge.cpp:29-50 | a created edge is found and lists and ends agree exactly if its id and those of its vertices are usable and it is not a self-loop on a vertex that is not in memory |
| StoreLimits.SelfLoopDangles | src/mem_edge.cpp:34-49 | such a self-loop ends at an object that no lookup finds |
| StoreLimits.ReaderEndsWhilePublishing | src/base_txn.cpp:201-222 | when a reader ends between the filling of the queues and the new version, the next reader misses a vertex or edge of its version exactly if the reader was the only one, at the current version, and this commit deletes what existed there |
| StoreLimits.PublishingLoses | src/base_txn.cpp:201-222 | a run from the empty store that ends in such a state, for a vertex and an edge |
| StoreLimits.ReaderEndsOnStaleCheck | src/base_txn.cpp:218-222 | when a reader reclaims on an outdated check, another reader misses a vertex or edge of its version exactly if both have the same version and the next one deleted it |
| StoreLimits.StaleCheckLoses | src/base_txn.cpp:218-222 | a run from the empty store in which it happens, for a vertex and an edge |
| IdSort.InsertionSort | lib/lmdb/midl.c:232-240 | sorts a short range in descending order, with the inner loop running below the range but never past what is larger |
| IdSort.MedianOfThree | lib/lmdb/midl.c:245-255 | orders three ids so that the scans that follow need no bounds, given that the sum of the range's bounds is an int |
| IdSort.Partition | lib/lmdb/midl.c:256-266 | splits a range around the median; both scans stay within it |
| IdSort.StackHasRoom | lib/lmdb/midl.c:223-276 | since the larger part is pushed, 64 slots are enough for any list that an int can index |
| IdSort.Sort | lib/lmdb/midl.c:220-279 | up to 2^30 + 3 ids every int expression is in range, every access to the list and the stack is in bounds, and the same ids end up descending; beyond that the sum of a range's bounds exceeds an int on some lists |
| IdSort.NineLastExists | lib/lmdb/midl.c:245-245 | there is such a list of every length |
| IdMerge.Merge | lib/lmdb/midl.c:201-213 | the backward merge gives the descending union of both lists, as multisets, and never overwrites an id it has not read |
| IdMerge.Search | lib/lmdb/midl.c:34-67 | with the length taken modulo 2^32, returns where the id is, or the slot before which all are larger and from which all are smaller; 0 exactly if that slot is 2^32 |
| IdMerge.SearchPages | lib/lmdb/midl.c:281-314 | the same for ascending page lists |
| IdMerge.InsertPage | lib/lmdb/midl.c:316-345 | inserts in order, or refuses a duplicate or a full list without changing anything; only in lists of 2^32 - 1 and more a duplicate may be refused as a full list |
| SpinLock.RunIsSafe | src/spinlock.hpp:77-127 | in every run of up to 2^32 threads: the counter is the number of threads between increment and decrement, at most one has claimed the flag, and no reader is inside with a writer |
| SpinLock.CounterIsExact | src/spinlock.hpp:117-126 | below 2^32 threads the counter is exact, not only modulo 2^32 |
| SpinLock.ReleasedLockIsFree | src/spinlock.hpp:97-126 | once all threads have left, the lock is as new |
| SpinLock.RunDrains | src/spinlock.hpp:77-117 | a writer that has claimed the flag waits for at most three steps of each other thread, however many come to read meanwhile |
| SpinLock.DrainedWriterEnters | src/spinlock.hpp:85-89 | once those steps are done, its next step takes the writer in |
| SpinLock.LeavesFromInside | src/spinlock.hpp:97-126 | a thread that has come for the lock goes away only after it has been inside |
| SpinLock.WrapLetsWriterIn | src/spinlock.hpp:85-117 | with more threads there is a run in which the counter wraps and a writer enters among readers |
| SpinLock.ExcludesIff | src/spinlock.hpp:69-132 | the lock excludes in every run exactly for up to 2^32 threads |
| IndexTable.ExactMatch | src/index.hpp:208-224 | returns exactly the rows of the key, in order |
| IndexTable.BackwardSearch | src/index.hpp:254-271 | returns the rows at the key if wanted, then all rows below it from the highest down |
| IndexTable.ForwardSearch | src/index.hpp:288-304 | returns all rows above the key, with those at it if wanted |
| SignedIndex.SameSignOrder | src/index.cpp:113-118 | within one sign the order of the bits as unsigned numbers is the order of the values |
| SignedIndex.BetweenSearch | src/index.hpp:339-356 | returns the rows from the lower bound to the upper one, none if they are crossed |
| SignedIndex.Index.GetEqual | src/index.hpp:152-163 | over both tables: exactly the rows with the value, once each |
| SignedIndex.Index.GetLess | src/index.hpp:135-150 | exactly the rows with a value below the bound, or at it if included, once each |
| SignedIndex.Index.GetGreater | src/index.hpp:165-181 | exactly the rows with a value above the bound, or at it if included, once each |
| SignedIndex.Index.GetBetween | src/index.hpp:183-206 | exactly the rows with a value between the bounds, for all four choices of inclusion, any signs and any order of the bounds |
| SignedIndex.Index.Add | src/index.cpp:51-141 | adds exactly one value/position pair; refuses exactly if the index is unique and has the value |
| SignedIndex.Index.Delete | src/index.cpp:143-206 | removes exactly one pair, if it is there |
| SignedIndex.FindRow | src/index.hpp:52-68 | the deletion's cursor loop finds the row of a value and position, or shows that there is none |
| Conditions.CheckMeans | src/multi_condition.cpp:98-132 | short-circuit evaluation means and, or and negation |
| Conditions.BuildersMean | src/multi_condition.cpp:27-64 | conditions combined with and, or and not mean that |
| Conditions.PushedIsCheck | src/index.cpp:386-421 | carrying negations down and swapping and with or accepts exactly the records that the direct check accepts and in which no null under a negation decides |
| Conditions.SetIsSettled | src/index.cpp:386-421 | no null decides if every property under an odd number of negations is set |
| Conditions.NullMatters | src/multi_condition.cpp:153-163 | on every record without the property, the negation of a pair of comparisons is true directly and not pushed down |
| Conditions.IntersectionIs | src/index.cpp:408-413 | on sorted lists the intersection holds exactly the common elements |
| Conditions.UnionIs | src/index.cpp:414-419 | on sorted lists the union holds exactly the elements of either |
| Conditions.IntersectionCounts | src/index.cpp:408-413 | an element is in the intersection as often as in the list that has it less often |
| Conditions.UnionCounts | src/index.cpp:414-419 | an element is in the union as often as in the list that has it more often |
| IndexQuery.NotBetween | src/index.cpp:320-375 | below and above together are the complement of a range; rows repeat exactly if a value lies beyond both crossed bounds |
| IndexQuery.LeafRecords | src/index.cpp:252-380 | sorted, exactly the positions whose value satisfies the condition, or fails it under negation, twice exactly if a negated range has its value beyond both bounds |
| IndexQuery.Evaluate | src/index.cpp:382-421 | sorted; every record is listed exactly as often as its leaves, intersections and unions make of it |
| Conditions.TimesMeans | src/index.cpp:386-421 | that is at least once exactly if the condition with negations pushed down holds, and at most once if no negated range has crossed bounds |
| IndexQuery.Query | src/index.cpp:386-421 | the records computed are exactly those that a direct check accepts and in which no null under a negation decides; so none too many, and all if no null is under a negation; how often each is listed, and no repeats if no negated range has crossed bounds |
| RecordCodec.RawDataSizeIsExact | src/parser.hpp:59-61 | the computed size of a property is the number of bytes of its block |
| RecordCodec.Blob.Append | src/datatype.cpp:86-91 | the data follows what was in the buffer, which must have room |
| RecordCodec.Encode | src/parser.cpp:40-68 | the buffer of the computed size is filled exactly, by the blocks of all properties |
| RecordCodec.ParseRecord | src/parser.cpp:70-120 | encodes the record's own properties and its two versions; an error exactly if a property is not in the schema |
| RecordCodec.Decode | src/parser.cpp:122-175 | ends on any bytes; the loop over offsets decodes block after block |
| RecordCodec.BlocksRoundTrip | src/parser.cpp:40-175 | decoding what was encoded gives exactly the properties that the decoding schema still has |
| RecordCodec.RecordRoundTrip | src/parser.cpp:40-175 | every property reads back as it was, for all sizes on either side of 127 bytes, also when the record is empty or shorter than a block; removed properties read as empty |
| RecordCodec.ParsedReadsBack | src/parser.cpp:102-120 | of a parsed record, "@version", "@txnVersion" and every name that does not begin with '@' read back as they were; any other name that does reads as empty |
| SchemaForest.ExtendedValid | src/class.cpp:87-144 | extending a class keeps the invariant: links agree both ways, superclass ids are smaller, kinds are constant along a chain, no name twice on a chain, ids unique |
| SchemaForest.DroppedValid | src/class.cpp:146-283 | dropping a class keeps the invariant |
| SchemaForest.DroppedAbove | src/class.cpp:210-270 | among the classes that remain, who extends whom does not change |
| SchemaForest.DroppedReaches | src/class.cpp:210-270 | so the subclasses of every other class are the same, less the one dropped |
| SchemaForest.WithPropertyValid | src/property.cpp:38-83 | a property that neither the chain above nor any branch below has can be added |
| SchemaForest.RenamedPropertyValid | src/property.cpp:85-120 | likewise for a new name of a property |
| SchemaForest.OnChainMeans | src/validate.cpp:136-147 | the recursion up finds the name exactly if some class above, or the class itself, has it |
| SchemaForest.InSubtreeMeans | src/validate.cpp:149-162 | the recursion down finds it exactly if some class below, or the class itself, has it |
| SchemaForest.ReachesIffAbove | src/generic.cpp:225-242 | following subclass links down is following superclass links up |
| SchemaForest.DefinerIsUnique | src/validate.cpp:119-134 | the nearest class up the chain that has a property is the only one |
| SchemaForest.TableIsOneToOne | src/generic.cpp:244-270 | in the table of built-in, own and inherited properties an id has one name, and a name has one id unless a built-in name was given to a property too |
| SchemaForest.BuiltInNameHasTwoIds | src/generic.cpp:246-254 | such a name has two ids |
| SchemaTables.NewClassTable | src/class.cpp:87-144 | a new class has no properties, or exactly those of the class it extends; the tables of all others stay |
| SchemaTables.AddedPropertyTable | src/property.cpp:38-83 | exactly the class a property is added to and the classes that extend it gain it |
| SchemaTables.RenamedPropertyTable | src/property.cpp:85-120 | exactly those classes have a renamed property under the new name, with its id and index, and none under the old |
| SchemaTables.RemovedPropertyTable | src/property.cpp:122-151 | exactly those classes lose a removed property |
| SchemaTables.DroppedTable | src/class.cpp:210-270 | exactly the classes that extended a dropped class lose its properties, and only those |
| Schemas.BuiltInNamesAreOk | src/validate.cpp:52-54 | the check of names lets the built-in names pass |
| SchemaNames.ShownIff | src/schema.cpp:62-86 | a name that a class bears stands for a class exactly if no dropped class that is still held bears it and comes first in the lookup, where names given by the transaction come before others and smaller ids before larger |
| SchemaNames.WrongNameIff | src/schema.cpp:64-70 | a name stands for a class that does not have it exactly if it is empty and the first of the touched descriptors without a new name is that of the class |
| Schemas.Schema.Find | src/schema.cpp:62-86 | the two passes find exactly the class that a name stands for |
| SchemaRuns.RenameAndDrop | src/class.cpp:285-317 | renaming and dropping a stored class leaves its descriptor with the new name |
| SchemaRuns.CreateTwice | src/class.cpp:41-85 | under that name two classes can be created, and no property can be added to either |
| SchemaRuns.HiddenFromStart | src/class.cpp:41-85 | the whole run from an empty schema |
| SchemaRuns.CreateCommitCreate | src/class.cpp:41-85 | so they can across transactions, while a reader keeps the dropped class's descriptor |
| SchemaRuns.DropEmptyName | src/class.cpp:146-150 | from an empty schema: a class that has just got a property is dropped under the empty name |
| SchemaRuns.AlterEmptyName | src/class.cpp:285-293 | from an empty schema: such a class is renamed under the empty name |
| SchemaRuns.TwoSiblings | src/class.cpp:87-144 | a run after which a name stands for the first of two subclasses of one class that both have it |
| SchemaDrops.CertainIff | src/class.cpp:241-251 | whatever entries the removal by name leaves unspecified, the classes are those of a proper drop exactly if there is no superclass, or the class has the name and no other subclass of its superclass has |
| Schemas.Schema.Create | src/class.cpp:41-85 | each error exactly when, a duplicate exactly if the name stands for a class; the new class is added and nothing else changes; class names stay distinct exactly if the name was not taken; the id counter moves also when the name is taken |
| Schemas.Schema.CreateExtend | src/class.cpp:87-144 | likewise, with the id counter; the new class is linked both ways with the superclass that the name stands for |
| Schemas.Schema.Drop | src/class.cpp:146-283 | each error exactly when; the classes left are those that the removal by name allows, and a proper drop where that is certain: subclasses move up to the superclass, in memory and in the stored table; a stored class's descriptor is held, with its name |
| Schemas.Schema.Alter | src/class.cpp:285-317 | each error exactly when; only the name changes; class names stay distinct exactly if no other class has the name |
| Schemas.Schema.AddProperty | src/property.cpp:38-83 | each error exactly when; one property with a new id is added |
| Schemas.Schema.AlterProperty | src/property.cpp:85-120 | each error exactly when; the property keeps its id under the new name |
| Schemas.Schema.RemoveProperty | src/property.cpp:122-151 | each error exactly when; one property that no index uses is removed |
| Schemas.Schema.Overridden | src/validate.cpp:149-162 | the loop over subclasses finds the name exactly if it is in the subtree |
| Schemas.Schema.ClassExtend | src/generic.cpp:225-242 | exactly the class and everything that extends it |
| Schemas.Apply | src/schema.cpp:174-191 | links every stored pair both ways and nothing else |
| Schemas.RebuildIsSame | src/schema.cpp:174-191 | rebuilding from the stored pairs gives every class the superclass and the subclasses it had |

## Left out

- Dijkstra.ShortestPath: costs are real numbers with the usual order; floating-point rounding and other orderings are
  not modelled.
- IdSort.Sort: lists of 2^31 ids and more, of whose length the code keeps only an `int`, are not modelled.
- Schemas.Apply: the order of a class's subclasses after reopening is not claimed to be the one before.
- Schemas.Schema.Drop: the deletion of the class's records and their relations is not part of it. Erasing at the end of
  the list, when the name matches no subclass, is undefined in C++; the model lets any list come of it.
- Schema versions: the schema is the writer's view; readers of the schema and its rollback are not modelled.
- Rows and files: the key/value store itself, cursors apart, and all input and output.
- Locks: each step of the store is atomic; the locks that make it so are modelled only as the protocol of `SpinLock`,
  under sequential consistency.
- Text and floating-point indexes, unsigned indexes (one table, the same scans), index creation and removal on a
  property, and the property types that only select a conversion.
- `getEdgeInOut` and the listings by edge class: unions and filters of the lists that are modelled.
- SQL, traversal and cursor front ends, which forward to the parts above.
- `mdb_midl_append_range` and the other appending operations on id lists, which only add easy members.
