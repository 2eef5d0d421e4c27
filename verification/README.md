# Lustre and libsysio cores in Dafny

A Dafny 4.11 model of the stateful cores of the Lustre utilities and the libsysio library,
with proofs over all inputs, all interleavings and all reachable states. `dafny verify
dfyconfig.toml` checks everything. A region that the source protects with one lock is one
atomic step; records are named by allocation numbers, so a freed record is one that is no
longer in its map. Where the source updates things in place, a class with the same fields
does so too, and each of its methods is proved equal to a function on values about which the
properties are proved.

| files | what they model |
|---|---|
| Prelude | shared vocabulary |
| HashTable, HashOps, HashRefine, HashRehash, HashSystem, HashSafety, HashTheorems, HashMoves, HashAbort, HashExamples, HashClass | the hash table that is rehashed in batches while adds, deletes, lookups and iterations go on (libcfs/libcfs/hash.c) |
| WorkItem, WorkItemRuns, WorkItemClass | the work-item scheduler, kernel variant (libcfs/libcfs/workitem.c) |
| NameSpace, PruneSpec, IdleBases, NameWf, MountSpec, MountOutcome, MountFirst, MountExamples, PathWalk, PathPrint, PathRoundTrip, PathReach, PathNamed, PathExamples, PathDetour, SysioClass | the libsysio name space: pruning, mounting, path walk and path printer (libsysio/src) |
| NumText, NidString, NidList, NidGrammar, NidParsing, NidMatching, NidAccepted, NidMethods | network identifiers as text, and nid range lists (libcfs/libcfs/nidstrings.c) |
| UpcallCache, UpcallSteps, UpcallRuns, UpcallClass | the upcall cache (libcfs/libcfs/upcall_cache.c) |
| Reconcile | pairing memory pieces with file extents (libsysio/src/reconcile.c) |
| HealthTrap, HealthClass | the health poll behind SNMP traps (snmp/lustre-snmp-trap.c) |
| FileTable, FileClass | the open file table (libsysio/src/file.c) |
| Prng | the multiply-with-carry generator (libcfs/libcfs/prng.c) |

Parameters stand for what the model does not contain: the hash function of a key, the times a
clock shows, whether memory is left, what a file system driver answers when a node is
validated or a link is read, what an upcall or a transfer function returns, and the lines of
the health file.

## Results that differ from what one would expect

- Printing a directory's path and walking it again is not always the identity, even for an
  uncovered directory below uncovered directories. An entry is looked up by taking the first
  alias whose parent matches, and a mount's root has the parent of the node it covers: after
  /a/x is mounted on /a/y, the entry x of /a leads to the mount's root
  (`PathExamples.ShadowedDirectories`). The path leads back without a link exactly when the
  directory is visible (`PathRoundTrip.RoundTrip`). With links it can also lead back to a
  directory that entries lead to under other names than those printed
  (`PathDetour.BackByLink`), and to no other (`PathNamed.PrintedPath`).
- A mount whose new root fails to validate, or is no directory, leaves that root's alias on
  its base node with a mount record that has been freed, because the pruner never removes a
  mount's root. `MountOutcome.MountExact` and `MountFirst.FirstExact` state exactly when,
  `MountExamples.BadMount` is an instance.
- An unmount of a mount whose root is referenced more than once, while nothing else in the
  mount is referenced, gets past the busy check and then fails an assertion.
  `MountOutcome.UnmountExact` states exactly when, `MountExamples.AbortedUnmount` is an
  instance.
- A rehash that destruction aborts leaves items out of place. A growing one takes the new
  array, with the items it has not moved still at their old places; a shrinking one keeps the
  old array, with the items it has moved at their new ones. Moved are the items whose old
  bucket the front has passed and those that have not been in the table ever since the rehash
  began. This is harmless because only the emptying loop follows. `HashAbort.AbortExact` states
  exactly which items of any run, `HashExamples.AbortsMisplace` has a run of each kind.
- A loopback nid with a nonzero address or network number does not read back from its text
  (`NidString.LoopbackLost`). `NidString.NidRoundTrip` states exactly which nids do.
- The parser of nid lists accepts a stride of zero, by which the matcher then divides
  (`NidMatching.ZeroStride`). `NidAccepted.TextMatches` states exactly which lists can be
  matched.
- White space passes around the tokens of a nid list, but not everywhere: not after the '-' of
  a range without a stride, not after the '/', and not at the end after a blank.
  `NidAccepted.AcceptedExactly` states exactly which texts are accepted.
- The documentation of nid lists leaves out the gm network, which the parser accepts; the
  model follows the code.
- A dup of a descriptor onto itself is answered without looking at the table: it succeeds on a
  descriptor that is not open (`FileTable.DupOfUnused`), and unforced it does not yield a free
  descriptor (`FileTable.DupOfOpen`). `FileTable.DupNames` states exactly when dup does what it
  promises.

## Model

| member | source | states |
|---|---|---|
| `HashTable.PosBucket` | libcfs/libcfs/hash.c:468-478 | the bucket index a key hashes to lies inside the table for every size |
| `HashOps.CurBdLive` | libcfs/libcfs/hash.c:468-478 | the current position of a key is a bucket of the table with the index the key hashes to |
| `HashOps.RehashBdLive` | libcfs/libcfs/hash.c:480-492 | so is its rehash position, while two arrays exist |
| `HashOps.HnodeAddOk` | libcfs/libcfs/hash.c:259-425 | adding puts the node on the chain once, at the head or the tail as configured, and keeps tail and depth right |
| `HashOps.HnodeDelOk` | libcfs/libcfs/hash.c:259-425 | removing takes exactly that node off the chain and keeps tail and depth right |
| `HashOps.SetHeadOk` | libcfs/libcfs/hash.c:518-585 | changing one chain exchanges exactly its nodes in the contents and keeps the arrays and counters in step |
| `HashOps.BdAddOk` | libcfs/libcfs/hash.c:518-535 | an add under a bucket descriptor: one item more, the bucket and table counters follow |
| `HashOps.BdDelOk` | libcfs/libcfs/hash.c:538-556 | a delete under a bucket descriptor: one item less, the counters follow |
| `HashOps.BdMoveOk` | libcfs/libcfs/hash.c:559-585 | a move between two descriptors keeps the items and the table count, also when both name one bucket |
| `HashOps.DualBdLive` | libcfs/libcfs/hash.c:787-831 | every descriptor handed out while two arrays exist names a bucket of the live table |
| `HashOps.FindIn` | libcfs/libcfs/hash.c:616-655 | a node of the chain with the key (the wanted one, if one is named), and none only when there is none |
| `HashOps.MultiFind` | libcfs/libcfs/hash.c:724-785 | a match on one of the chains, with the chain it is on, and none only when no chain has one |
| `HashRefine.FoundByDual` | libcfs/libcfs/hash.c:787-831 | an item at its current or its rehash position is on one of the chains a dual search looks at |
| `HashRefine.LookupRefines` | libcfs/libcfs/hash.c:1347-1365 | lookup during a rehash finds a node with the key exactly when the table holds one |
| `HashRefine.AddedInPlace` | libcfs/libcfs/hash.c:1211-1231 | an addition during a rehash goes to a legal position, behind or ahead of the rehash front |
| `HashRefine.FindOrAddRefines` | libcfs/libcfs/hash.c:1234-1259 | find-or-add returns an existing node and changes nothing, or adds the node, never both |
| `HashRefine.NothingFound` | libcfs/libcfs/hash.c:724-785 | a dual search that finds nothing proves the key absent |
| `HashRefine.DelRefines` | libcfs/libcfs/hash.c:1297-1323 | delete removes one node with the key (the named one if given) or reports that there is none |
| `HashRefine.DeletedStays` | libcfs/libcfs/hash.c:538-556 | a delete during a rehash takes out one item and leaves the others at legal positions |
| `HashRehash.WalkStep` | libcfs/libcfs/hash.c:1836-1865 | one step of the walk along a chain that is being emptied under the cursor: no node is skipped or met twice |
| `HashRehash.RehashChainPlaces` | libcfs/libcfs/hash.c:1836-1865 | after the walk every node of the chain is at its rehash position |
| `HashRehash.RehashBucketOk` | libcfs/libcfs/hash.c:1836-1865 | rehashing a bucket keeps every item and completes all buckets up to it |
| `HashSafety.AllMoved` | libcfs/libcfs/hash.c:1920-1943 | once the loop is through every item is at its rehash position |
| `HashSafety.TailEmpty` | libcfs/libcfs/hash.c:1920-1960 | when a shrinking rehash is through, the buckets beyond the new size are empty |
| `HashSystem.AssertionsHold` | libcfs/libcfs/hash.c:1867-1965 | no assertion of the hash code fires in a state that satisfies the invariant |
| `HashSafety.ReallocOk` | libcfs/libcfs/hash.c:892-943 | a reallocated array shares the common buckets and adds empty private ones |
| `HashSafety.InstalledOk` | libcfs/libcfs/hash.c:1916-1917 | installing the second array keeps the items, each still at its current position |
| `HashSafety.SwapItems` | libcfs/libcfs/hash.c:1947-1951 | after a finished move the dropped buckets are empty, so the swap loses no item |
| `HashSafety.SwapDone` | libcfs/libcfs/hash.c:1947-1951 | the swapped table is well formed at the new size with all items in place |
| `HashSafety.RequestTarget` | libcfs/libcfs/hash.c:1163-1193 | a rehash is asked for one size up or down, within the bounds, and only when nothing stands in the way |
| `HashSafety.KeepAdd` | libcfs/libcfs/hash.c:1211-1231 | adds keep the invariant in every state of worker and iterations and add exactly the node |
| `HashSafety.KeepFindAdd` | libcfs/libcfs/hash.c:1234-1259 | find-or-add keeps the invariant |
| `HashSafety.KeepDel` | libcfs/libcfs/hash.c:1297-1323 | deletes keep the invariant and the books of iterations under way |
| `HashSafety.KeepRequest` | libcfs/libcfs/hash.c:1806-1833 | asking for a rehash keeps the invariant |
| `HashSafety.KeepPop` | libcfs/libcfs/hash.c:1867-1883 | the worker starting keeps the invariant |
| `HashSafety.KeepReadSizes` | libcfs/libcfs/hash.c:1882-1888 | the worker reading the sizes keeps the invariant |
| `HashSafety.KeepAlloc` | libcfs/libcfs/hash.c:1890-1899 | allocation outside the lock, successful or not, keeps the invariant |
| `HashSafety.KeepInstall` | libcfs/libcfs/hash.c:1896-1919 | installing the second array, or leaving because the load came back into range, keeps the invariant and the contents |
| `HashSafety.KeepMove` | libcfs/libcfs/hash.c:1920-1951 | one turn of the move loop (a bucket rehashed, the end of the loop, an abort) keeps the invariant and the contents |
| `HashSafety.KeepFinish` | libcfs/libcfs/hash.c:1945-1957 | the end of a complete rehash keeps the invariant and the contents |
| `HashSafety.KeepAbort` | libcfs/libcfs/hash.c:1921-1957 | a rehash aborted by destruction keeps the invariant and the contents: a growing one takes the new array half filled, a shrinking one drops it |
| `HashSafety.KeepFree` | libcfs/libcfs/hash.c:1957-1960 | freeing the left-over buckets keeps the invariant |
| `HashSafety.KeepCancel` | libcfs/libcfs/hash.c:1768-1803 | cancelling a rehash keeps the invariant |
| `HashSafety.KeepEnter` | libcfs/libcfs/hash.c:1368-1392 | an iteration entering keeps the invariant |
| `HashSafety.KeepResume` | libcfs/libcfs/hash.c:1368-1392 | an iteration going on after the wait for a rehash keeps the invariant |
| `HashSafety.NoVisitor` | libcfs/libcfs/hash.c:1368-1413 | while a rehash is wanted every iteration is still waiting in its entry |
| `HashSafety.KeepVisit` | libcfs/libcfs/hash.c:1425-1477 | an iteration visiting a bucket keeps the invariant |
| `HashSafety.KeepExit` | libcfs/libcfs/hash.c:1394-1413 | an iteration leaving keeps the invariant |
| `HashSafety.VisitCounts` | libcfs/libcfs/hash.c:1425-1477 | a node at its current position is in exactly one bucket of the iteration order |
| `HashSafety.KeepDestroy` | libcfs/libcfs/hash.c:1095-1110 | destruction beginning keeps the invariant |
| `HashSafety.KeepDestroyCancel` | libcfs/libcfs/hash.c:1103-1110 | destruction cancelling a rehash keeps the invariant |
| `HashSafety.KeepDrain` | libcfs/libcfs/hash.c:1112-1140 | destruction emptying the table keeps the invariant |
| `HashTheorems.InitialInv` | libcfs/libcfs/hash.c:1008-1080 | a created table satisfies the invariant |
| `HashTheorems.StepKeeps` | libcfs/libcfs/hash.c:1867-1965 | every step of every thread keeps the invariant and meets the assertions of the code |
| `HashTheorems.RunSafe` | libcfs/libcfs/hash.c:1867-1965 | over every interleaving the invariant holds and no assertion fails |
| `HashTheorems.ContentsRefine` | libcfs/libcfs/hash.c:1867-1965 | every step changes the contents as the same operation on a plain multiset, and worker and iteration steps not at all |
| `HashTheorems.RunContents` | libcfs/libcfs/hash.c:1867-1965 | along every run each step changes the contents as the plain multiset operation does; a delete removes a matching node or finds none |
| `HashTheorems.BooksBalance` | libcfs/libcfs/hash.c:518-585 | in every state size follows the bits, the bits stay in range, and table count, bucket counts and chain lengths agree |
| `HashTheorems.FreedAreDead` | libcfs/libcfs/hash.c:873-886 | what the worker frees is empty and named by no array, and after it the arrays name all buckets there are |
| `HashTheorems.AtRest` | libcfs/libcfs/hash.c:1945-1960 | when no rehash is wanted there is one array, and unless the worker was aborted each item is at its current position |
| `HashAbort.AbortPlaces` | libcfs/libcfs/hash.c:1921-1931 | an abort moves no item; an item whose old bucket the front has passed is in place afterwards exactly when the rehash was growing or both sizes give it one place, any other exactly when both sizes give it one place, or it is at its new place and the rehash was growing, or at its old one and it was shrinking |
| `HashAbort.AbortedAt` | libcfs/libcfs/hash.c:1921-1955 | in every run a worker that will not be popped again was aborted at some step, and no item has moved since |
| `HashAbort.AtRestExact` | libcfs/libcfs/hash.c:1920-1960 | in every state of every run with no rehash wanted an item is out of place exactly if the worker was aborted, the sizes disagree about the item, and a growing rehash had not moved it or a shrinking one had |
| `HashMoves.Arrives` | libcfs/libcfs/hash.c:1836-1943 | during a rehash a step takes no item to another place but one of the bucket being moved or one just added, and those to their new place |
| `HashMoves.WhoHasMoved` | libcfs/libcfs/hash.c:1896-1943 | in every state of every rehash of every run an item is at its new place if the front has passed its old bucket or it has not been in the table ever since the rehash began, and otherwise at its old place |
| `HashAbort.AbortExact` | libcfs/libcfs/hash.c:1919-1957 | in every run an item is in place after an abort exactly when both sizes give it one place, or the rehash was growing and had moved it, or was shrinking and had not |
| `HashExamples.AbortsMisplace` | libcfs/libcfs/hash.c:1867-1957 | two runs from creation, one ending in a growing and one in a shrinking rehash that is aborted, each leaving an item out of place |
| `HashTheorems.RunLookup` | libcfs/libcfs/hash.c:1347-1365 | in every state of every run before a worker is aborted by destruction, a lookup finds a node with the key exactly when the contents have one |
| `HashTheorems.NoRehashWhileIterating` | libcfs/libcfs/hash.c:1368-1413 | from the end of its entry to its exit an iteration sees no rehash in progress |
| `HashTheorems.VisitedExactlyOnce` | libcfs/libcfs/hash.c:1425-1477 | a full iteration visits every item that stays in the table exactly once although it drops the lock |
| `HashClass.Hash.constructor` | libcfs/libcfs/hash.c:1008-1080 | creation yields the empty table of the initial size |
| `HashClass.Hash.BucketsRealloc` | libcfs/libcfs/hash.c:892-943 | the allocating loop: shares the common prefix, and gives everything back when memory runs out |
| `HashClass.Hash.BucketsFree` | libcfs/libcfs/hash.c:873-886 | frees exactly the buckets of the given range |
| `HashClass.Hash.LinkNode` | libcfs/libcfs/hash.c:259-425 | linking in place equals the specified one |
| `HashClass.Hash.UnlinkNode` | libcfs/libcfs/hash.c:259-425 | unlinking in place equals the specified one |
| `HashClass.Hash.BdAddLocked` | libcfs/libcfs/hash.c:518-535 | in-place add equals the specified one |
| `HashClass.Hash.BdDelLocked` | libcfs/libcfs/hash.c:538-556 | in-place delete equals the specified one |
| `HashClass.Hash.BdMoveLocked` | libcfs/libcfs/hash.c:559-585 | in-place move equals the specified one |
| `HashClass.Hash.BdLookupIntent` | libcfs/libcfs/hash.c:616-655 | the chain walk finds the specified node and then deletes it, adds the new one or changes nothing, as the intent says |
| `HashClass.Hash.GetBd` | libcfs/libcfs/hash.c:480-492 | the descriptor of a key, of the newer array if there are two |
| `HashClass.Hash.GetDualBd` | libcfs/libcfs/hash.c:787-831 | the two descriptors, ordered, as specified |
| `HashClass.Hash.LookupKey` | libcfs/libcfs/hash.c:1347-1365 | lookup equals the specified one and changes nothing |
| `HashClass.Hash.AddNode` | libcfs/libcfs/hash.c:1211-1231 | add equals the specified one |
| `HashClass.Hash.FindOrAddNode` | libcfs/libcfs/hash.c:1234-1259 | find-or-add equals the specified one |
| `HashClass.Hash.DelNode` | libcfs/libcfs/hash.c:1297-1323 | delete equals the specified one |
| `HashClass.Hash.RehashBd` | libcfs/libcfs/hash.c:1836-1865 | the nested loops over a bucket equal the specified rehash of it |
| `HashClass.Hash.RehashHead` | libcfs/libcfs/hash.c:1836-1865 | the walk along one chain equals the specified one |
| `HashClass.Hash.WorkerInstall` | libcfs/libcfs/hash.c:1896-1919 | the decision region of the worker equals the specified step |
| `HashClass.Hash.WorkerPass` | libcfs/libcfs/hash.c:1920-1957 | one pass of the loop, or what follows it, equals the specified step |
| `HashClass.Hash.SwapArrays` | libcfs/libcfs/hash.c:1945-1953 | the swap in place equals the specified one |
| `HashClass.Hash.WorkerBatch` | libcfs/libcfs/hash.c:1920-1957 | one stay under the lock is a sequence of specified move steps and keeps the invariant |
| `HashClass.Hash.VisitBucket` | libcfs/libcfs/hash.c:1425-1477 | the visit under one bucket lock hands out every node of the bucket once |
| `HashClass.Hash.Drain` | libcfs/libcfs/hash.c:1112-1140 | destruction hands out every item once and leaves no bucket |
| `WorkItem.KeepSchedule` | libcfs/libcfs/workitem.c:218-245 | scheduling keeps the invariant and leaves the item queued |
| `WorkItem.KeepCancel` | libcfs/libcfs/workitem.c:180-207 | cancelling keeps the invariant and leaves the item on no queue |
| `WorkItem.KeepExit` | libcfs/libcfs/workitem.c:151-174 | ending an item from its own action keeps the invariant and leaves it on no queue |
| `WorkItem.KeepPop` | libcfs/libcfs/workitem.c:278-289 | taking the head of a run queue keeps the invariant |
| `WorkItem.KeepReturn` | libcfs/libcfs/workitem.c:293-304 | the return of an action, dead, idle or re-scheduled, keeps the invariant |
| `WorkItem.KeepInit` | libcfs/include/libcfs/libcfs_workitem.h:92-103 | a new item, idle and unqueued, keeps the invariant |
| `WorkItem.KeepShutdown` | libcfs/libcfs/workitem.c:396-410 | shutting a scheduler down keeps the invariant |
| `WorkItemRuns.StartedInv` | libcfs/libcfs/workitem.c:413-447 | the started schedulers satisfy the invariant: many threads on one queue, one on the serial queue |
| `WorkItemRuns.StepKeeps` | libcfs/libcfs/workitem.c:151-328 | every step keeps the invariant |
| `WorkItemRuns.RunSafe` | libcfs/libcfs/workitem.c:151-328 | over every interleaving the invariant holds |
| `WorkItemRuns.QueuedIffScheduled` | libcfs/libcfs/workitem.c:151-328 | in every state a live item is queued iff scheduled, on the run queue only when idle, on the re-run queue only when running, and starts never exceed schedule calls |
| `WorkItemRuns.NeverTwice` | libcfs/libcfs/workitem.c:251-328 | no action executes on two threads, and no two serial items execute together |
| `WorkItemRuns.AssertionsHold` | libcfs/libcfs/workitem.c:151-328 | the scheduler's own assertions hold at every step |
| `WorkItemRuns.StaysQueued` | libcfs/libcfs/workitem.c:218-305 | a queued item stays queued through every step that does not start, cancel or end it |
| `WorkItemRuns.RequestNotLost` | libcfs/libcfs/workitem.c:218-305 | from a schedule call on the item is queued until a run of it starts or it is cancelled or ended |
| `WorkItemRuns.StaysIdle` | libcfs/libcfs/workitem.c:180-245 | an idle, unqueued item does not start and stays so until it is scheduled |
| `WorkItemRuns.CancelStops` | libcfs/libcfs/workitem.c:180-207 | after a cancel that returns 1 no run starts until the next schedule call |
| `WorkItemRuns.RankStep` | libcfs/libcfs/workitem.c:278-305 | a waiting item keeps waiting and never loses rank, and each start on its scheduler moves it up |
| `WorkItemRuns.BoundedWait` | libcfs/libcfs/workitem.c:278-305 | over any stretch a waiting item is overtaken by no more starts than there were items ahead of it |
| `WorkItemClass.Schedulers.constructor` | libcfs/libcfs/workitem.c:413-447 | start-up yields the started state |
| `WorkItemClass.Schedulers.Schedule` | libcfs/libcfs/workitem.c:218-245 | in-place scheduling equals the specified step; the item is queued afterwards |
| `WorkItemClass.Schedulers.Cancel` | libcfs/libcfs/workitem.c:180-207 | in-place cancelling equals the specified step; it returns 1 exactly when the item ends up idle and unqueued |
| `WorkItemClass.Schedulers.Exit` | libcfs/libcfs/workitem.c:151-174 | in-place ending equals the specified step |
| `WorkItemClass.Schedulers.Begin` | libcfs/libcfs/workitem.c:278-289 | in-place start of an action equals the specified step |
| `WorkItemClass.Schedulers.Finish` | libcfs/libcfs/workitem.c:293-304 | in-place end of an action equals the specified step |
| `NameSpace.PGoneOk` | libsysio/src/inode.c:546-562 | dropping an unreferenced alias keeps the trees well formed and frees its base only if nothing is left on it |
| `NameSpace.PbGoneOk` | libsysio/src/inode.c:423-460 | freeing an idle base node keeps the trees well formed |
| `PruneSpec.PrunedOnly` | libsysio/src/inode.c:708-803 | pruning removes only unreferenced aliases of the same mount below the start |
| `PruneSpec.PrunedKeeps` | libsysio/src/inode.c:708-803 | pruning keeps every referenced alias with all its ancestors in the mount, unchanged |
| `PruneSpec.PrunedOthers` | libsysio/src/inode.c:708-803 | pruning keeps every alias of another mount, unchanged and on its list |
| `PruneSpec.PrunedBases` | libsysio/src/inode.c:681-803 | a base node that pruning freed lies below the start and has no alias and no child left |
| `PruneSpec.PrunedCount` | libsysio/src/inode.c:702-803 | the count returned is the number of still referenced aliases of the mount below the start, zero exactly when the start is gone, unless it is an unreferenced mount root |
| `SysioClass.Sysio.DestroyBase` | libsysio/src/inode.c:423-460 | a base node with nothing on it leaves its parent's list |
| `SysioClass.Sysio.Gone` | libsysio/src/inode.c:546-562 | an alias leaves its base's list and takes an empty base with it |
| `SysioClass.Sysio.PruneBases` | libsysio/src/inode.c:681-700 | the base pruner frees exactly the base nodes with no alias on or under them that it gets to without passing a node with an alias |
| `IdleBases.ClearingEnd` | libsysio/src/inode.c:681-700 | after the children the node itself is idle exactly when none of them is left |
| `SysioClass.Sysio.PruneBaseChild` | libsysio/src/inode.c:687-696 | one turn of the base pruner: a child with an alias stays, an interior one is pruned, a leaf goes |
| `SysioClass.Sysio.Prune` | libsysio/src/inode.c:708-803 | the pruner removes exactly the aliases of the mount, at or below the start, with no referenced alias or mount's root at or below them, and counts what is stuck |
| `SysioClass.Sysio.PruneChild` | libsysio/src/inode.c:717-771 | one turn over a child: nothing, its idle bases, or the sub-tree of its alias in this mount |
| `SysioClass.Sysio.PruneAlias` | libsysio/src/inode.c:732-769 | one alias, interior or leaf, is pruned as the whole sub-tree would be |
| `SysioClass.Sysio.PruneRoot` | libsysio/src/inode.c:773-802 | after the loop the start is treated so that the whole call meets the specification of a prune |
| `NameWf.PRefOk` | libsysio/include/inode.h:264-270 | taking a reference changes one count by one and keeps the name space well formed |
| `NameWf.PReleOk` | libsysio/include/inode.h:275-279 | dropping a held reference changes one count by one and keeps the name space well formed |
| `SysioClass.Sysio.Ref` | libsysio/include/inode.h:264-270 | a reference is taken in place |
| `SysioClass.Sysio.Rele` | libsysio/include/inode.h:275-279 | a reference is dropped in place |
| `NameWf.PbNewOk` | libsysio/src/inode.c:369-414 | a new base node under a new name keeps the name space well formed |
| `NameWf.NewAliasOk` | libsysio/src/inode.c:512-541 | a new alias where the base had none with that parent carries the one new reference and keeps the name space well formed |
| `PathWalk.Component` | libsysio/src/namei.c:64-77 | a component has no separator and is followed by one or by the end; progress is made whenever there is one |
| `PathWalk.Validate` | libsysio/src/inode.c:567-596 | validation replaces the inode by the driver's answer and touches no count or link |
| `PathWalk.FindChild` | libsysio/src/inode.c:611-642 | a child of the name, and none only if no child has it |
| `PathWalk.FindWithParent` | libsysio/src/inode.c:651-663 | an alias with the parent, and none only if no alias has it |
| `PathWalk.FindAlias` | libsysio/src/inode.c:602-676 | an alias is found or made; exactly one reference is taken, on what is returned |
| `PathWalk.Hop` | libsysio/src/namei.c:125-135 | cover hopping ends at an uncovered node and moves exactly one reference there |
| `PathWalk.Lookup` | libsysio/src/namei.c:82-147 | one component: any node returned carries one new reference, also on a validation error; no other count changes |
| `PathWalk.Walk` | libsysio/src/namei.c:159-477 | on every path and error path all counts are unchanged but for one more on the node returned on success; the walk ends for every name space, links nest at most MAX_SYMLINK deep, and the name space stays well formed |
| `PathWalk.Steps` | libsysio/src/namei.c:234-474 | the loop of the walk, links included, gives back the reference it started with and keeps one on its result |
| `PathWalk.Advance` | libsysio/src/namei.c:350-474 | one turn of the loop keeps the same account of references |
| `SysioClass.Sysio.Revalidate` | libsysio/src/inode.c:567-596 | in-place validation equals the specified one |
| `SysioClass.Sysio.NextComponent` | libsysio/src/namei.c:64-77 | the two scanning loops find the specified component |
| `SysioClass.Sysio.SearchChildren` | libsysio/src/inode.c:611-642 | the search loop finds the specified child |
| `SysioClass.Sysio.SearchAliases` | libsysio/src/inode.c:651-663 | the search loop finds the specified alias |
| `SysioClass.Sysio.GetEntry` | libsysio/src/inode.c:602-676 | finding or creating an alias in place equals the specification |
| `SysioClass.Sysio.HopCovers` | libsysio/src/namei.c:125-135 | the cover loop equals the specified hop |
| `SysioClass.Sysio.LookupEntry` | libsysio/src/namei.c:82-147 | the lookup in place equals the specified one |
| `SysioClass.Sysio.WalkPath` | libsysio/src/namei.c:159-477 | the walk in place equals the specified one |
| `SysioClass.Sysio.WalkLoop` | libsysio/src/namei.c:234-474 | the component loop equals the specified recursion, depth of links included |
| `SysioClass.Sysio.FollowLink` | libsysio/src/namei.c:235-284 | following one link equals the specified step and hands its reference on |
| `SysioClass.Sysio.NextEntry` | libsysio/src/namei.c:350-474 | the rest of one turn equals the specified step |
| `PathPrint.TopBottom` | libsysio/src/namei.c:125-135 | the top of a mount stack and any node in it lie over the same bottom |
| `PathPrint.PathIsText` | libsysio/src/chdir.c:153-234 | what the printer writes is the names on the way from the root, each after a separator |
| `SysioClass.Sysio.PathLength` | libsysio/src/chdir.c:166-192 | the first pass counts exactly the characters of the path |
| `SysioClass.Sysio.NamedNode` | libsysio/src/chdir.c:173-179 | the loop down the mount stack ends at its bottom |
| `SysioClass.Sysio.WriteName` | libsysio/src/chdir.c:222-229 | a separator and a name are put in front of what is written, and nothing behind changes |
| `SysioClass.Sysio.FillPath` | libsysio/src/chdir.c:207-231 | the second pass writes the path and its NUL, backwards, and touches nothing behind |
| `SysioClass.Sysio.PPath` | libsysio/src/chdir.c:153-234 | a new buffer is filled exactly; a given one is used if it is large enough, and the error is EINVAL, ERANGE or ENOMEM otherwise |
| `PathRoundTrip.LookupFound` | libsysio/src/namei.c:82-147 | an entry that is there is found and only reference counts change |
| `PathRoundTrip.LookupParent` | libsysio/src/namei.c:82-147 | what a lookup of an ordinary name returns hangs under the node it started from |
| `PathRoundTrip.Climb` | libsysio/src/namei.c:234-474 | a walk that expands no link goes down one level for each name |
| `PathRoundTrip.LookTopExact` | libsysio/src/inode.c:602-676 | an entry leads to a node exactly when the node is uncovered and the first alias of its base with its parent is of its own mount stack |
| `PathRoundTrip.RoundTrip` | libsysio/src/chdir.c:153-234 | walking the printed path of a directory returns that very node without expanding a link exactly when the node and all above it are uncovered and first of their names |
| `PathReach.LookupReaches` | libsysio/src/namei.c:82-147 | from a node entries lead to, a lookup of any component, dots included, returns such a node or a new one |
| `PathReach.WalkReaches` | libsysio/src/namei.c:159-477 | a walk from such a node, whatever its text and links, stays on such nodes and new ones, and new nodes hang under them |
| `PathNamed.WalkFinds` | libsysio/src/namei.c:159-477 | a walk returns a node of the old name space only if entries lead to it from the root down |
| `PathNamed.SomePath` | libsysio/src/namei.c:159-477 | some absolute path leads to a directory, links included, exactly when entries lead to it from the root down |
| `PathNamed.PrintedPath` | libsysio/src/chdir.c:153-234 | the printed path returns the directory if it is visible, and otherwise at most by way of links and under other names; it does so exactly when the directory is visible, unless entries lead to it and it is not visible |
| `PathNamed.ClearWay` | libsysio/src/chdir.c:153-234 | when the entries printed lead over directories, the walk returns the last of them |
| `PathNamed.PlainPlaces` | libsysio/src/inode.c:651-663 | in the mount of the name space's root entries lead to a node exactly when it is visible |
| `PathExamples.ShadowedDirectories` | libsysio/src/inode.c:651-663 | two uncovered directories in a well-formed name space: the path of one leads to the root of a mount that shadows it, that of the other, below a covered directory, not to it, whatever links there are |
| `PathDetour.BackByLink` | libsysio/src/namei.c:235-284 | a directory that is not visible and whose printed path returns it through a link, and elsewhere when only the text of the link differs |
| `MountSpec.PrunedWf` | libsysio/src/inode.c:708-803 | pruning keeps cover links, names and trees well formed |
| `SysioClass.Sysio.Descends` | libsysio/src/mount.c:129-138 | the walk up from the new root meets the base to be covered exactly when the root is at or below it |
| `MountSpec.MountedWf` | libsysio/src/mount.c:115-196 | a mount over an uncovered, referenced node keeps the name space well formed |
| `MountSpec.NewMountAlone` | libsysio/src/mount.c:159-167 | the alias of a new mount's root has no other alias of its mount below it |
| `MountSpec.UnmountedIs` | libsysio/src/mount.c:210-253 | an unmount removes the mount and its root, uncovers the covered node and drops one reference to it |
| `MountSpec.UnmountedWf` | libsysio/src/mount.c:210-253 | the name space is well formed after an unmount |
| `MountSpec.UnmountReady` | libsysio/src/mount.c:216-229 | when the prune counts one and the root is referenced, the root is all that is left of the mount |
| `MountOutcome.MountExact` | libsysio/src/mount.c:115-205 | a mount succeeds, and leaves the name space well formed, exactly under conditions known before the call |
| `MountOutcome.AbandonedIll` | libsysio/src/mount.c:198-204 | the clean-up of a failed mount leaves an alias whose mount record is gone |
| `MountFirst.EstablishedWf` | libsysio/src/mount.c:181-196 | the established name space is well formed: one path node, its own parent and cover, held by its mount |
| `MountFirst.FirstExact` | libsysio/src/mount.c:115-205 | the first mount establishes a well-formed name space, or changes nothing, or leaves an alias behind, each exactly under conditions known before the call |
| `MountFirst.EstablishedUnmounts` | libsysio/src/mount.c:115-253 | a name space just established unmounts cleanly, which leaves a state in which it can be established again |
| `MountExamples.BadMount` | libsysio/src/mount.c:168-204 | a well-formed name space and a driver for which a mount leaves it ill formed |
| `MountOutcome.UnmountExact` | libsysio/src/mount.c:210-253 | an unmount is done, fails an assertion or is busy exactly under conditions known before the call; unmounting the name space's root leaves no path node and no mount, ready to be established again |
| `MountOutcome.OnlyRoot` | libsysio/src/mount.c:224-229 | when the root is all that is held in the root's mount, pruning it leaves no other path node in any mount |
| `MountExamples.AbortedUnmount` | libsysio/src/mount.c:224-244 | a well-formed name space in which an unmount fails an assertion |
| `SysioClass.Sysio.DoMount` | libsysio/src/mount.c:115-205 | with or without a node to cover every exit of a mount leaves what is specified; success leaves the name space well formed, and failure does so only before the driver is asked |
| `SysioClass.Sysio.MountOver` | libsysio/src/mount.c:115-205 | over a node every exit of a mount leaves what is specified; it succeeds exactly when the new root is not under the covered node, memory is left and the driver finds a directory; the name space is ill formed afterwards exactly when the driver was asked and found none |
| `SysioClass.Sysio.MountAlone` | libsysio/src/mount.c:115-205 | with no node to cover every exit leaves what is specified; the name space is established, with its root as the only path node, exactly when memory is left and the driver finds a directory |
| `MountSpec.FailedMount` | libsysio/src/mount.c:198-204 | the prune after a failed mount removes no alias |
| `SysioClass.Sysio.AbandonMount` | libsysio/src/mount.c:198-204 | the clean-up equals the specification and leaves the new root's alias, unreferenced, without a mount record |
| `SysioClass.Sysio.AbandonAlone` | libsysio/src/mount.c:198-204 | the clean-up of a failed first mount leaves one alias, unreferenced, and no mount record |
| `SysioClass.Sysio.DoUnmount` | libsysio/src/mount.c:210-253 | every exit of an unmount, of the name space's root too, leaves what is specified; it succeeds exactly when nothing covers the root and its one reference is the only one in the mount, fails an assertion exactly when the prune counts one and the root is not held once, and is busy otherwise |
| `SysioClass.Sysio.Detach` | libsysio/src/mount.c:230-252 | the committed part of an unmount equals the specification, for the name space's root and for others |
| `NumText.PrintValue` | libcfs/libcfs/nidstrings.c:295-305 | a printed number is all digits and has the value printed |
| `NumText.ScanPrinted` | libcfs/libcfs/nidstrings.c:307-325 | scanning what was printed yields the number and stops behind its digits |
| `NidString.ByPrefix` | libcfs/libcfs/nidstrings.c:340-353 | the first table entry whose name starts the text, and none only if no name does |
| `NidString.PrefixFree` | libcfs/libcfs/nidstrings.c:124-211 | no network name starts another, even with a number appended |
| `NidString.QuadReadsBack` | libcfs/libcfs/nidstrings.c:222-264 | a printed dotted quad reads back as the address |
| `NidString.NumberReadsDecimal` | libcfs/libcfs/nidstrings.c:295-325 | a printed decimal address reads back |
| `NidString.NumberReadsHex` | libcfs/libcfs/nidstrings.c:301-325 | a printed hexadecimal address reads back |
| `NidString.AddrReadsBack` | libcfs/libcfs/nidstrings.c:222-325 | a printed address of any kind but loopback reads back |
| `NidString.ReadNetExact` | libcfs/libcfs/nidstrings.c:446-493 | a printed network reads back as its table entry and number |
| `NidString.ReadNetLo` | libcfs/libcfs/nidstrings.c:478-489 | loopback with a nonzero number is refused |
| `NidString.UnknownReadsAny` | libcfs/libcfs/nidstrings.c:442-529 | the text of a nid of an unknown network reads as the wildcard |
| `NidString.NidTextFits` | libcfs/libcfs/nidstrings.c:425-456 | the text of every nid fits the string buffer |
| `NidList.TokNone` | libcfs/libcfs/nidstrings.c:686-707 | there is no token exactly when the text is blank, all of it or up to the delimiter |
| `NidList.TokExact` | libcfs/libcfs/nidstrings.c:686-727 | a token is the text between white space and the delimiter or the end, without its own trailing white space, and the rest is what follows the delimiter |
| `NidGrammar.CheckExact` | libcfs/libcfs/nidstrings.c:738-762 | a text is accepted as a number exactly when it is the canonical text of a value in range that no further digit follows |
| `NidString.NidRoundTrip` | libcfs/libcfs/nidstrings.c:425-529 | for every 64-bit nid, text and back is the identity exactly when the network type is known and, on loopback, number and address are zero, or the nid is the wildcard |
| `NidString.LoopbackLost` | libcfs/libcfs/nidstrings.c:425-529 | a loopback nid with address 1 does not read back |
| `NidList.FindRange` | libcfs/libcfs/nidstrings.c:1004-1010 | the first entry for a network and number, or the end |
| `NidGrammar.NumberReads` | libcfs/libcfs/nidstrings.c:738-762 | a number of the grammar is read exactly when it is in range, with its value |
| `NidGrammar.NumberUnique` | libcfs/libcfs/nidstrings.c:738-762 | a written number is canonical for one value only |
| `NidParsing.RangeReads` | libcfs/libcfs/nidstrings.c:775-821 | a range of the grammar, with white space where it may stand, parses exactly when its numbers fit, to its bounds and stride |
| `NidParsing.RangesRead` | libcfs/libcfs/nidstrings.c:829-850 | a bracketed list, with white space around its ranges, parses exactly when all of them fit, to their meanings in order |
| `NidParsing.PartReads` | libcfs/libcfs/nidstrings.c:858-890 | a number or bracketed list parses exactly when it fits |
| `NidParsing.OddExprs` | libcfs/libcfs/nidstrings.c:829-850 | the range parser accepts no text with a foreign character in it |
| `NidParsing.AddressReads` | libcfs/libcfs/nidstrings.c:900-963 | an address parses on a network exactly when its form fits the network and its numbers fit the form |
| `NidParsing.NetReads` | libcfs/libcfs/nidstrings.c:984-1002 | a network name with or without a number is recognised, with its number |
| `NidParsing.ItemReads` | libcfs/libcfs/nidstrings.c:1030-1054 | an item parses exactly when it fits, merging into the entry of its network |
| `NidParsing.ListReads` | libcfs/libcfs/nidstrings.c:1152-1175 | a sentence of the grammar, white space included, parses exactly when every item fits, to the merge of its items |
| `NidMatching.PartMatch` | libcfs/libcfs/nidstrings.c:1185-1210 | a compiled part matches a number exactly when the part denotes it |
| `NidMatching.AddressMatch` | libcfs/libcfs/nidstrings.c:1218-1234 | a compiled address matches an address exactly when the written one denotes it, byte by byte for quads |
| `NidMatching.EntryGrows` | libcfs/libcfs/nidstrings.c:1244-1263 | adding an item to its entry adds exactly the nids it denotes |
| `NidMatching.MergeMatch` | libcfs/libcfs/nidstrings.c:1004-1022 | merging an item adds exactly the nids it denotes |
| `NidMatching.MergeOneEach` | libcfs/libcfs/nidstrings.c:1004-1022 | the compiled list keeps at most one entry for each network and number |
| `NidMatching.MergeAllMatch` | libcfs/libcfs/nidstrings.c:1152-1263 | merging items adds exactly the nids some item denotes |
| `NidMatching.MergeAllOkIff` | libcfs/libcfs/nidstrings.c:1152-1210 | the compiled list has no zero stride exactly when none was written |
| `NidMatching.SentenceMatches` | libcfs/libcfs/nidstrings.c:1152-1263 | every sentence, white space included, parses exactly when it fits, to a list with one entry for each network; the matcher can be run on the list exactly when all strides are positive, and then accepts a nid exactly when some item denotes it |
| `NidMatching.ZeroStride` | libcfs/libcfs/nidstrings.c:806-816 | a sentence with a zero stride that parses, to a list the matcher cannot be run on |
| `NidAccepted.RangeFound` | libcfs/libcfs/nidstrings.c:775-821 | a text accepted as a range is the text of a range of the grammar that fits, with its meaning |
| `NidAccepted.RangesFound` | libcfs/libcfs/nidstrings.c:829-850 | a text accepted as the inside of brackets is the text of ranges that fit, in order |
| `NidAccepted.AddressFound` | libcfs/libcfs/nidstrings.c:900-963 | a text accepted as an address on a network is the text of an address that fits the network |
| `NidAccepted.ItemFound` | libcfs/libcfs/nidstrings.c:1030-1054 | a text accepted as an item is the text of an item that fits, merged into the list as that item |
| `NidAccepted.ListFound` | libcfs/libcfs/nidstrings.c:1152-1175 | an accepted text is the text of a sentence that fits, compiled to the merge of its items |
| `NidAccepted.AcceptedExactly` | libcfs/libcfs/nidstrings.c:686-1175 | every text is accepted exactly when it is the text of a sentence that fits, white space included |
| `NidAccepted.TextMatches` | libcfs/libcfs/nidstrings.c:1152-1263 | of an accepted text: one entry for each network, the matcher can be run exactly when all strides are positive, and it then accepts a nid exactly when some item written denotes it |
| `NidMethods.GetToken` | libcfs/libcfs/nidstrings.c:686-727 | the token loops compute the specified token |
| `NidMethods.ScanFor` | libcfs/libcfs/nidstrings.c:710-711 | the search for the delimiter |
| `NidMethods.TrimEnd` | libcfs/libcfs/nidstrings.c:720-725 | the loop over trailing white space |
| `NidMethods.ReadExprs` | libcfs/libcfs/nidstrings.c:841-849 | the list loop computes the specified ranges |
| `NidMethods.ReadParts` | libcfs/libcfs/nidstrings.c:924-932 | the dotted loop computes the specified parts |
| `NidMethods.SearchRange` | libcfs/libcfs/nidstrings.c:1004-1010 | the search loop finds the specified entry |
| `NidMethods.ReadNidList` | libcfs/libcfs/nidstrings.c:1152-1175 | the list loop computes the specified compiled list, or fails |
| `NidMethods.MatchNumAddr` | libcfs/libcfs/nidstrings.c:1185-1210 | the nested loops decide the specified match |
| `NidMethods.MatchEntry` | libcfs/libcfs/nidstrings.c:1257-1260 | the loop over an entry's addresses finds a match exactly when there is one |
| `NidMethods.Matches` | libcfs/libcfs/nidstrings.c:1244-1263 | the loops over the compiled list decide the specified match |
| `UpcallCache.OneLinked` | libcfs/libcfs/upcall_cache.c:160-192 | two linked entries with one key are the same entry |
| `UpcallCache.CheckShed` | libcfs/libcfs/upcall_cache.c:116-139 | checking an entry keeps a current one and takes any other off its chain, freeing only what nobody holds |
| `UpcallSteps.PutInv` | libcfs/libcfs/upcall_cache.c:107-114 | dropping a reference, the last one of a stale entry included, keeps the invariant |
| `UpcallSteps.DropInv` | libcfs/libcfs/upcall_cache.c:355-357 | the put that ends a downcall or a failed get keeps the invariant |
| `UpcallSteps.GetInv` | libcfs/libcfs/upcall_cache.c:102-105 | taking a reference keeps the invariant |
| `UpcallSteps.BeginInv` | libcfs/libcfs/upcall_cache.c:182-199 | linking a new entry and starting its upcall keeps the invariant, given that no linked entry has the key |
| `UpcallSteps.DiscardInv` | libcfs/libcfs/upcall_cache.c:186-190 | freeing a spare entry that was never linked keeps the invariant |
| `UpcallRuns.ScanShed` | libcfs/libcfs/upcall_cache.c:161-171 | the search drops only entries that are not current; a hit has the key and is current; a miss means no linked entry has the key |
| `UpcallRuns.FindInv` | libcfs/libcfs/upcall_cache.c:159-199 | the search region, with its three outcomes, keeps the invariant |
| `UpcallRuns.UpcallDoneInv` | libcfs/libcfs/upcall_cache.c:200-225 | the return of an upcall, failed or not, keeps the invariant |
| `UpcallRuns.WakeInv` | libcfs/libcfs/upcall_cache.c:227-264 | a waiter waking up keeps the invariant |
| `UpcallRuns.FinishInv` | libcfs/libcfs/upcall_cache.c:242-264 | the final checks of a get keep the invariant |
| `UpcallRuns.DowncallInv` | libcfs/libcfs/upcall_cache.c:303-355 | the first locked region of a downcall keeps the invariant; its last put is a step of its own |
| `UpcallRuns.ParsedInv` | libcfs/libcfs/upcall_cache.c:341-355 | the second locked region of a downcall keeps the invariant; its last put is a step of its own |
| `UpcallRuns.FlushShed` | libcfs/libcfs/upcall_cache.c:363-383 | a flush frees only unreferenced linked entries; of the others nothing but the expired mark changes |
| `UpcallRuns.FlushKeyShed` | libcfs/libcfs/upcall_cache.c:397-426 | flushing a key frees only an unreferenced linked entry; of the others nothing but the expired mark changes |
| `UpcallRuns.StartedInv` | libcfs/libcfs/upcall_cache.c:429-452 | an empty cache with idle threads satisfies the invariant |
| `UpcallRuns.StepKeeps` | libcfs/libcfs/upcall_cache.c:148-426 | every step keeps the invariant |
| `UpcallRuns.RunSafe` | libcfs/libcfs/upcall_cache.c:148-426 | over every interleaving the invariant holds |
| `UpcallRuns.OneEntryOneUpcall` | libcfs/libcfs/upcall_cache.c:160-200 | in every state at most one entry for a key is linked, and no entry has had a second upcall |
| `UpcallRuns.FinishGood` | libcfs/libcfs/upcall_cache.c:242-269 | an entry that passes the final checks is as promised |
| `UpcallRuns.CountsAreHolders` | libcfs/libcfs/upcall_cache.c:102-114 | in every state a count is the number of holders, and nothing held has been freed |
| `UpcallRuns.ReturnedGood` | libcfs/libcfs/upcall_cache.c:148-270 | what a get returns has the key, carries a reference the caller owns, is neither invalid nor being acquired, and is unexpired at the final check unless this call created it |
| `UpcallRuns.EveryGetGood` | libcfs/libcfs/upcall_cache.c:148-270 | the same for every get of every run |
| `UpcallClass.UpCache.constructor` | libcfs/libcfs/upcall_cache.c:429-452 | a new cache is well formed and has no entry |
| `UpcallClass.UpCache.Free` | libcfs/libcfs/upcall_cache.c:64-74 | freeing in place equals the specified one |
| `UpcallClass.UpCache.Put` | libcfs/libcfs/upcall_cache.c:107-114 | in-place put equals the specified one |
| `UpcallClass.UpCache.Check` | libcfs/libcfs/upcall_cache.c:116-139 | the in-place check equals the specified one |
| `UpcallClass.UpCache.Search` | libcfs/libcfs/upcall_cache.c:161-171 | the search loop with removal under the cursor equals the specified scan |
| `UpcallClass.UpCache.FlushOne` | libcfs/libcfs/upcall_cache.c:371-379 | the flush loop over one chain equals the specified one |
| `UpcallClass.UpCache.FlushIdle` | libcfs/libcfs/upcall_cache.c:363-389 | the nested flush loops equal the specified flush |
| `UpcallClass.UpCache.Lookup` | libcfs/libcfs/upcall_cache.c:301-310 | the search loop of a downcall finds the specified entry |
| `UpcallClass.UpCache.FlushEntry` | libcfs/libcfs/upcall_cache.c:397-426 | flushing one key in place equals the specification |
| `Reconcile.PairedBytes` | libsysio/src/reconcile.c:148-255 | the k-th byte moved is the k-th byte of both streams |
| `Reconcile.AnyBytes` | libsysio/src/reconcile.c:272-288 | the first loop counts the smaller of limit and total |
| `Reconcile.EnumerateIovec` | libsysio/src/reconcile.c:257-319 | the calls pair a prefix of the memory stream with consecutive file positions; the result is the bytes moved, or the last call's answer if none; a complete callback moves the smaller of limit and total |
| `Reconcile.Coalesce` | libsysio/src/reconcile.c:168-188 | the coalesced extent and the rest cover the same file positions in order |
| `Reconcile.Gather` | libsysio/src/reconcile.c:211-222 | takes whole pieces and accounts for their bytes; none only when the first is too large |
| `Reconcile.DoIo` | libsysio/src/reconcile.c:148-356 | for every callback that never returns more than asked, byte k of the memory stream meets byte k of the extent stream, once, for exactly the first bytes reported, and with none moved the result is the last call's answer; with non-empty pieces and a complete callback it is the smaller total |
| `HealthTrap.NoteSeen` | snmp/lustre-snmp-trap.c:457-500 | noting a name marks it seen and lists it, affects no other name, and names stay unique |
| `HealthTrap.ScanKeeps` | snmp/lustre-snmp-trap.c:516-553 | the scan keeps exactly the seen names and clears every mark |
| `HealthTrap.Digested` | snmp/lustre-snmp-trap.c:253-303 | reading lines marks exactly the names reported and sends the traps that are due, each once |
| `HealthTrap.PollExact` | snmp/lustre-snmp-trap.c:234-319 | after a poll the list holds each name reported in it once, unmarked; a trap went out once for exactly those not listed before |
| `HealthTrap.AfterIs` | snmp/lustre-snmp-trap.c:234-319 | between polls the list holds exactly the names reported in the last completed poll, each once and unmarked |
| `HealthTrap.TrapsExact` | snmp/lustre-snmp-trap.c:234-319 | over any sequence of polls a trap for a name is sent, once, exactly when it is reported now and was not in the last completed poll; likewise for the catastrophe |
| `HealthClass.Monitor.Find` | snmp/lustre-snmp-trap.c:464-477 | the walk finds the first entry of the name, and none only if no entry has it |
| `HealthClass.Monitor.SetSeen` | snmp/lustre-snmp-trap.c:473-475 | one mark changes and the list stays linked |
| `HealthClass.Monitor.Push` | snmp/lustre-snmp-trap.c:481-496 | the new entry is linked in front of the others |
| `HealthClass.Monitor.NewlyUnhealthy` | snmp/lustre-snmp-trap.c:457-500 | the linked list changes as specified, a new entry in front |
| `HealthClass.Monitor.Remove` | snmp/lustre-snmp-trap.c:524-542 | unlinking one entry through its predecessor leaves all others linked in order |
| `HealthClass.Monitor.TakeLine` | snmp/lustre-snmp-trap.c:257-302 | one line is handled as specified |
| `HealthClass.Monitor.UnhealthyScan` | snmp/lustre-snmp-trap.c:516-553 | the removal loop leaves the specified list |
| `HealthClass.Monitor.TakeLines` | snmp/lustre-snmp-trap.c:253-303 | the reading loop stops at a broken line and sends the specified traps |
| `HealthClass.Monitor.HealthPoll` | snmp/lustre-snmp-trap.c:234-319 | a poll changes list and flag, and sends traps, as specified |
| `FileTable.FirstFree` | libsysio/src/file.c:166-188 | the lowest free slot at or above the request, in the table or past its end |
| `FileTable.GrowInv` | libsysio/src/file.c:121-150 | growing keeps every slot in use, adds free ones, and fails without a change |
| `FileTable.TwoSlots` | libsysio/src/file.c:249-258 | a record in two slots counts at least two, which is why taking over one of them does not destroy it |
| `FileTable.PlaceInv` | libsysio/src/file.c:226-247 | a place is found without touching a slot in use: the forced one, or the lowest free one |
| `FileTable.OpenInv` | libsysio/src/open.c:191-206 | open takes the lowest free descriptor for a new record, or destroys the record again; counts stay right |
| `FileTable.DupSafe` | libsysio/src/file.c:271-288 | taking over a slot never destroys the record being duplicated, even when the slot names it already |
| `FileTable.DupInv` | libsysio/src/file.c:271-288 | dup and dup2 keep every count equal to the number of slots |
| `FileTable.DupNames` | libsysio/src/file.c:271-288 | a dup fails with EBADF exactly on an unused descriptor not duplicated onto itself; no slot changes but the one taken and both descriptors name the record; an unforced one names the record in the lowest free slot at or above the request exactly when it is not onto itself |
| `FileTable.DupOfUnused` | libsysio/src/file.c:277-278 | an unused descriptor duplicated onto itself: no error, and nothing is open |
| `FileTable.DupOfOpen` | libsysio/src/file.c:277-278 | an open descriptor duplicated unforced onto itself: the answer is not the free slot above it |
| `FileTable.CloseInv` | libsysio/src/file.c:205-219 | close empties one slot, keeps the counts, and fails exactly on an unused descriptor |
| `FileTable.CloseAllInv` | libsysio/src/file.c:290-306 | closing all leaves every slot free and no record alive |
| `FileTable.StepInv` | libsysio/src/file.c:68-306 | every operation keeps counts and slots in step |
| `FileTable.DestroyedIffUnnamed` | libsysio/include/file.h:85-100 | a record is destroyed exactly when no slot names it |
| `FileTable.RunCounts` | libsysio/src/file.c:68-306 | over any run of open, dup, dup2 and close each count is the number of slots, and a record is destroyed exactly when its last slot goes |
| `FileClass.OpenFiles.FdGrow` | libsysio/src/file.c:121-150 | the filling loop grows the table as specified, or fails |
| `FileClass.OpenFiles.FRele` | libsysio/include/file.h:94-100 | a release in place equals the specified one, destruction at zero included |
| `FileClass.OpenFiles.FdFind` | libsysio/src/file.c:193-200 | the record a descriptor names, and none out of range |
| `FileClass.OpenFiles.FindFreeFd` | libsysio/src/file.c:166-188 | the search loop finds the specified slot |
| `FileClass.OpenFiles.FdPlace` | libsysio/src/file.c:232-247 | the choice of a slot in place equals the specified one |
| `FileClass.OpenFiles.FdClose` | libsysio/src/file.c:205-219 | in-place close equals the specified one |
| `FileClass.OpenFiles.FdTake` | libsysio/src/file.c:249-260 | the slot takes the record and releases what was there |
| `FileClass.OpenFiles.FdDup` | libsysio/src/file.c:271-288 | in-place dup equals the specified one |
| `FileClass.OpenFiles.FdOpen` | libsysio/src/open.c:191-206 | open in place equals the specified one |
| `FileClass.OpenFiles.FdCloseAll` | libsysio/src/file.c:290-306 | the closing loop equals the specified one |
| `Prng.NextExact` | libcfs/libcfs/prng.c:83-89 | a step never overflows 32 bits, never reaches zero from a nonzero seed, and times 65536 is the old seed plus a multiple of a * 65536 - 1 |
| `Prng.Invariant` | libcfs/libcfs/prng.c:83-89 | for all n, 65536^n times the n-th seed is congruent to the first modulo a * 65536 - 1, and stays nonzero |
| `Prng.Settles` | libcfs/libcfs/prng.c:83-89 | from the second step on the seed is below a * 65536 |
| `Prng.Generator.constructor` | libcfs/libcfs/prng.c:72-73 | the seeds start at their fixed values |
| `Prng.Generator.Rand` | libcfs/libcfs/prng.c:83-89 | both seeds advance one step; the result is the low halves of both |
| `Prng.Generator.Seed` | libcfs/libcfs/prng.c:100-106 | a zero keeps the seed it would replace |

## Left out

- Hash table: the rehash worker called directly instead of by the scheduler, together with cancellation; only safety is claimed, not that the wait for a cancelled worker ends.
- Hash table: re-keying an item in place, the relaxed, unlocked and emptying iterations, per-bucket version numbers, depth warnings, debug output, item reference counts and the flag that demands an empty table at destruction.
- Hash table: the hash function is any function of the key and the mask.
- Work items: waking and sleeping of threads, and thread creation; the user-space variant.
- Name space: automounting, deferred initialisation of the working directory, reclaiming of inodes and path nodes, permission checks, intents and path hints handed to drivers.
- Name space: the hash chains of the names table are modelled by searching the parent's child list.
- Name space: a driver answers a validation with any inode or error; the printed-path round trip supposes that a node with an inode is confirmed with the same inode.
- PathNamed.PrintedPath: does not decide whether a directory that entries lead to and that is not visible is returned; that depends on the text of the links met (`PathDetour.BackByLink`).
- SysioClass.Sysio.DoMount: without a node to cover, only the mount that establishes the name space is modelled, on a nameless root; a further graph beside an established name space, as the native and yod drivers keep one for themselves, is not. One memory test stands for the mount record and the alias of its root.
- MountFirst.FirstExact: supposes, like the mount it is about, that there is no name space yet.
- Nid text: host name lookup, the ring of string buffers, the printing of process ids, and conversions of numbers past 64 bits; numbers are read as the C standard says, modulo 2^32.
- Nid lists: white space before the upper bound of a range can leave the parser with a null cursor, which the source then reads; the model reports a parse failure there. What the matcher does with a stride of zero.
- Upcall cache: the optional comparison callbacks of a cache; the put that ends a downcall is one step, although the source counts down, tests and frees there without the lock; no claim is made that every entry is eventually freed.
- Reconcile.DoIo: does not model overflow of the byte counts, which are unbounded here; with empty memory pieces the transfer can stop early, so the total is stated for non-empty pieces.
- Reconciliation: the validation of vectors ahead of a transfer.
- Health poll: sending the traps, the timer, and lines longer than the line buffer, which arrive as several lines.
- File table: reading and writing through a record, the release of the working directory when all files are closed, and the alternative table of libsysio/src/file_hack.c.
- Random numbers: filling a buffer with random bytes.
- Watchdog timers, bit operations in user space, sockets, the acceptor, ioctl, proc and tracing.
