# Models of Linux system-programming programs

A Dafny project about the programs of this repository that hold an algorithm or a protocol. Programs that change state
are classes, arrays and loops proved against functions on values; concurrent programs are step relations, and what is
proved about them holds in every run. One module stands for one source file or one part of it.

| modules | program |
|---|---|
| `Paths`, `WatchCache`, `InotifyEvents`, `InotifyEffects`, `InotifyReactions`, `InotifyDtree` | `inotify_dtree.c`: the cache of watch descriptors and pathnames, and the event loop |
| `WatchedTree`, `LaggingReplay`, `CreationRace`, `QuietPhases` | the directory tree and the kernel's event queue that `inotify_dtree.c` mirrors |
| `Backlog`, `BacklogDeeds`, `BacklogTakes`, `BacklogRuns`, `BacklogReports`, `BacklogExamples` | the program behind a tree that keeps changing: which watches exist when, what a late walk finds, and when the cache stays right |
| `NamespaceForest`, `NamespaceDisplay`, `NamespaceLaws`, `WrapText` | `namespaces_of.go`: building and displaying the forest, wrapping text |
| `NsCapable` | `ns_capable.c`: the walk to an ancestor user namespace |
| `MessageQueue`, `MqNotifyViaThread`, `MqNotifyViaSignal`, `MqNotifySig` | three ways to be notified of messages |
| `MultiSigchld` | reaping children when SIGCHLD is coalesced |
| `ThreadMultijoin`, `ThreadIncr`, `ThreadIncrMutex` | joining threads as they end; the shared counter |
| `AclParse`, `AclGrammar`, `AclUpdate`, `AclEntries` | `acl_update.c`: parsing, and updating an ACL entry by entry |
| `Environment` | `setenv.c` and `exercise_3.c` |
| `SparseCopy` | `cp.c` |
| `Basics`, `Tally` | what several modules need; counting in sequences |

`dafny verify dfyconfig.toml` checks everything.

## How the main results fit together

**The directory-tree mirror.** `Cache` keeps a slot array in place; `RunRefines` shows that the array stands for a map over
every sequence of operations. `Process` says what one event does and `Replay` what a stream does;
`InotifyReactions` tells for each kind of event, from the event alone, what becomes of the map and of the root list.
`Monitor.ProcessInotifyEvents` is the program's read loop over a byte buffer, and its contract is that the events it took
are replayed, in order, each once. `WatchedTree` gives directories an identity, so that a rename changes one entry, and
`LaggingReplay` shows that consuming the events of the first k changes of any history leaves the cache as the directories
were after k changes. `CreationRace` interleaves other processes' `mkdir()` with the steps of a walk and with the event
queue.

**The program behind a changing tree.** In `Backlog` other processes make, rename and remove directories anywhere and at
any time. The kernel queues what the watches of that moment report, and may lose it by an overflow; a watch begins when a
walk adds it and ends when its directory is removed or zapped; the two halves of a rename may be taken apart by a timeout
or by another process's events. The program takes the queued events however late, and its walks find what is there by
then. A state is `Right` if every entry ends up, once the queue is used up, under the present pathname of the directory
whose watch it is, or if the program is bound to rebuild. `RightIffHarmless`: in every run all states are right if and only
if no walk is stale and no move is silent. `HistoryThenProgram` says the same of a history followed by the program alone,
with the cache at the end; `CachedIffFound` is the condition for one directory, and `LostIff` says what takes its watch
away; `DefeatLeadsToRebuild` and `RebuildComplete` are about rebuilds. `QuietPhases` puts races and such runs one after the
other.

**Texts, lists and trees.** What is parsed, updated, wrapped or built is also described from the outside: `AclGrammar` has
the grammar of ACL texts, `AclEntries` the ACL after an update, entry by entry, `NamespaceLaws` the list and the display in
terms of what the kernel reports, and `WrapText.LinesFit` and `WrapText.TextPieces` the lines as they are printed.

**Protocols.** For each there is an invariant that every step keeps, a lemma that says exactly when no step is left, and
a measure that bounds every run, so that "never stuck" and "comes to its end" are both theorems.

**Where the code does less than its documentation says.** The code was kept as it is, and the exact condition is proved:

- `mq_notify_sig.c` waits before it first drains: `NothingForgottenIffEmptyAtFirst`.
- `thread_multijoin.c` gives every thread a pointer to the loop variable. Once all threads have read it by the end of the
  creation loop, `main()` can still finish with every thread joined if and only if each read its own index:
  `CanFinishIffOwn`. It can always do so if and only if there are no threads, `AlwaysFinishesIffNoThreads`, or, where no
  thread reads past the array, at most one: `FinishesInRangeIff`. `SharedIndexHangs` is a run with two threads that spins.
  Whenever threads read, two that have read the same index are too many: `SameIndexCannotFinish`.
- `setenv.c` removes the old entries before it asks for memory: `FailureKeepsIff`. POSIX.1-2017, chapter 3 of System
  Interfaces, asks that a failed `setenv()` leave the environment unchanged.
- `cp.c` loses zeros at the end of a file: `CopyLacksZeros`, `EqualHoweverReadIff`.
- `acl_update.c` with `-n`, or asked to remove a required entry, stops half-way: `ModifyWithoutMaskIff`,
  `RemoveCompletesIff`, `RemoveWithoutMaskIff`.
- `namespaces_of.go` displays each namespace once if and only if one topmost namespace was found: `DisplayCompleteIff`.
- `inotify_dtree.c` files a watch under the pathname at which its walk finds the directory, which may be late. The cache
  stays right if and only if (`RightIffHarmless`) no walk caches a directory whose pathname a queued notice still carries
  elsewhere (`StaleWalk`), and no rename moves a cached directory, unreported, out of one that is not watched
  (`SilentMove`). `PathnameReused` is a run of `mkdir a; mv a b; mkdir a` after which the second directory is cached as
  `b`, and nothing is rebuilt. While the directory that an event reports is still in the trees, what stands at its pathname
  strays if and only if it is another directory (`StrayIffAnother`); if the reported one was removed, another one there
  need not stray, and `StaleWalk` decides.
- A directory is cached in the end if and only if it kept its watch, or it was at or below the pathname walked when some
  walk started and has kept its watch since (`CachedIffFound`, `LostIff`). Taking a rename apart, with which the comment in
  the source is concerned, keeps the state right (`SplitKeeps`).
- In the follow-up `read()` of `inotify_dtree.c` the test `errno != -1` always holds, so the -1 of an interrupted call is
  added to the byte count; `Monitor.ReadMore` does the same, and the contract of `Monitor.ProcessInotifyEvents` shows that
  this is harmless.

## Model

| member | source | states |
|---|---|---|
| Paths.AtOrBelowIsSubtree | tlpi-book/inotify/inotify_dtree.c:565-592 | the prefix comparison of two pathnames decides the subtree relation on their components; siblings that share only a string prefix are not below each other |
| Paths.RebaseMovesSubtree | tlpi-book/inotify/inotify_dtree.c:565-592 | rewriting the string moves a subtree on component lists and leaves every other path as it is |
| Paths.RebaseKeepsPathsDistinct | tlpi-book/inotify/inotify_dtree.c:565-592 | if nothing was at or below the target, different paths stay different |
| Paths.RebaseUndone | tlpi-book/inotify/inotify_dtree.c:565-592 | a rewritten path is at or below the new prefix, and rewriting back restores it |
| WatchCache.Cache.FindWatch | tlpi-book/inotify/inotify_dtree.c:202-209 | finds the first slot with the descriptor, which is lookup in the map the slots stand for; -1 if and only if there is none |
| WatchCache.Cache.MarkCacheSlotEmpty | tlpi-book/inotify/inotify_dtree.c:242-250 | removes exactly that slot's descriptor from the map |
| WatchCache.Cache.FindEmptyCacheSlot | tlpi-book/inotify/inotify_dtree.c:255-276 | gives the first free slot, growing the array by 200 free slots if there is none |
| WatchCache.Cache.AddWatchToCache | tlpi-book/inotify/inotify_dtree.c:281-289 | extends the map by one entry and gives the slot it is in |
| WatchCache.Cache.PathnameInCache | tlpi-book/inotify/inotify_dtree.c:295-310 | whether some used slot has the pathname |
| WatchCache.Cache.RewriteCachedPaths | tlpi-book/inotify/inotify_dtree.c:565-592 | every path is rebased by the prefixes as they were before the call, although they are slots of the array being rewritten |
| WatchCache.Cache.ZapSubtree | tlpi-book/inotify/inotify_dtree.c:599-645 | frees the entries at or below the path, in order, up to the first watch that cannot be removed, and returns their number or -1, also when the path is one of those freed |
| WatchCache.AddDisturbsNothing | tlpi-book/inotify/inotify_dtree.c:255-289 | adding, even with growth, leaves every used slot where it was |
| WatchCache.RewriteRefines | tlpi-book/inotify/inotify_dtree.c:565-592 | descriptors and their number are kept and each path in the map is rebased |
| WatchCache.ZapRefines | tlpi-book/inotify/inotify_dtree.c:599-645 | a zap removes from the map exactly the hits in the slots it went over |
| WatchCache.HitListLists | tlpi-book/inotify/inotify_dtree.c:599-645 | the watches removed are listed once each, so the number returned is the number of entries removed |
| WatchCache.AllHits | tlpi-book/inotify/inotify_dtree.c:599-645 | the hits of a successful zap are exactly the map's entries at or below the path |
| WatchCache.RunRefines | tlpi-book/inotify/inotify_dtree.c:202-289 | after any sequence of add, empty, rewrite, zap and rebuild the slots stand for the map so updated and no descriptor is in two slots |
| InotifyEvents.NextDecided | tlpi-book/inotify/inotify_dtree.c:866-927 | what the program decides from the events at hand is what it would decide with any continuation of the stream |
| InotifyEvents.ReplayConcat | tlpi-book/inotify/inotify_dtree.c:1043-1113 | replaying two streams one after the other is replaying their concatenation, unless the first ends in a directory move-from |
| InotifyEvents.CuttingDoesNotMatter | tlpi-book/inotify/inotify_dtree.c:1043-1113 | however a stream is cut, each event is used once, in order, with the same result, up to a rebuild or exit |
| InotifyEffects.WalkFinds | tlpi-book/inotify/inotify_dtree.c:469-556 | a walk caches exactly the directories it could watch, each under the path it was first visited by, and changes no other entry |
| InotifyEffects.RebuildFinds | tlpi-book/inotify/inotify_dtree.c:656-693 | after a rebuild the cache holds exactly what the walks of the remaining roots found, each directory under the path by which it was found first |
| InotifyEffects.ZapForgets | tlpi-book/inotify/inotify_dtree.c:911-923 | zapping leaves exactly the entries outside the subtree; it is replaced by a rebuild if and only if a watch in the subtree cannot be removed |
| InotifyEffects.MovedOutForgets | tlpi-book/inotify/inotify_dtree.c:900-923 | a directory that moves out of the trees is forgotten with everything below it, and nothing else is |
| InotifyEffects.RootMovedForgets | tlpi-book/inotify/inotify_dtree.c:960-985 | a root that moves away leaves the root list and takes its subtree out of the cache; the program exits if and only if it was the last |
| InotifyEffects.RebuildCauses | tlpi-book/inotify/inotify_dtree.c:703-994 | the program rebuilds if and only if there was an overflow, an event of an unknown watch, a rename into an unknown directory, or a move with a watch that cannot be removed |
| InotifyReactions.RootMoves | tlpi-book/inotify/inotify_dtree.c:960-985 | a root that moves is struck from the root list; the program exits if and only if it was the last, else its subtree is zapped, or all rebuilt if a watch cannot be removed; another directory that moves changes nothing |
| InotifyReactions.Unmounted | tlpi-book/inotify/inotify_dtree.c:947-958 | an unmount takes exactly the one watch out of the cache |
| InotifyReactions.DirectoryGone | tlpi-book/inotify/inotify_dtree.c:777-789 | a removed directory's watch leaves the cache, and a root the root list; the program exits if and only if no root is left |
| InotifyReactions.DirectoryAppears | tlpi-book/inotify/inotify_dtree.c:736-776 | a directory made or moved in has its subtree walked, each directory found being cached under the pathname it was first visited by, unless its own pathname is cached |
| InotifyReactions.DirectoryLeaves | tlpi-book/inotify/inotify_dtree.c:791-927 | a directory renamed away: pathnames rewritten, all rebuilt, subtree zapped or event kept waiting, each in exactly its case |
| InotifyReactions.NothingToDo | tlpi-book/inotify/inotify_dtree.c:703-994 | events about files and the note that a watch is gone change nothing |
| InotifyReactions.MustRebuild | tlpi-book/inotify/inotify_dtree.c:718-730 | an overflow or an event of an unknown watch leaves the cache that the walks of the roots give |
| InotifyDtree.Monitor.TraverseTree | tlpi-book/inotify/inotify_dtree.c:469-519 | caches a directory's new watch, and ignores files, vanished paths and watches already cached |
| InotifyDtree.Monitor.WatchSubtree | tlpi-book/inotify/inotify_dtree.c:527-556 | applies that to every visit of a tree walk |
| InotifyDtree.Monitor.Reinitialize | tlpi-book/inotify/inotify_dtree.c:656-693 | the cache is emptied and refilled by walking the remaining roots, and the old stream is dropped |
| InotifyDtree.Monitor.ZapRootDirPath | tlpi-book/inotify/inotify_dtree.c:436-452 | forgets the root path, and asks for exit if and only if none is left |
| InotifyDtree.Monitor.DirectoryMovedFrom | tlpi-book/inotify/inotify_dtree.c:866-927 | a matching move-to makes one rename of two events; another next event, or a second try, makes a move-out; otherwise the event is put back |
| InotifyDtree.Monitor.ProcessNextInotifyEvent | tlpi-book/inotify/inotify_dtree.c:703-994 | the new cache and root list, and the number of bytes to skip, are those of the event's meaning |
| InotifyDtree.Monitor.ReadMore | tlpi-book/inotify/inotify_dtree.c:1065-1111 | what was left is at the start of the buffer and what arrived follows it, or the lone event is left with a byte count that is one short |
| InotifyDtree.Monitor.ProcessInotifyEvents | tlpi-book/inotify/inotify_dtree.c:1008-1114 | the events taken are a prefix of the stream and are replayed in order and once; a move-from is alone at the end exactly when the follow-up read timed out; each follow-up read is for another move-from, so none is put back twice |
| WatchedTree.PathInjective | tlpi-book/inotify/inotify_dtree.c:469-519 | different directories have different pathnames, so a path is cached for one directory only |
| WatchedTree.AtOrBelowIsBelow | tlpi-book/inotify/inotify_dtree.c:565-645 | the program's string test decides whether one directory lies below the other |
| WatchedTree.PathAfterRename | tlpi-book/inotify/inotify_dtree.c:565-592 | moving one directory rebases the pathnames of everything below it and no other |
| LaggingReplay.ChangeReplayed | tlpi-book/inotify/inotify_dtree.c:777-898 | consuming the events of one rename, removal or file event keeps the cache and root list in step with the directories |
| LaggingReplay.RootsAfterRemove | tlpi-book/inotify/inotify_dtree.c:436-452 | only removing a root takes a path off the root list, and the others stay |
| LaggingReplay.HistorySplits | tlpi-book/inotify/inotify_dtree.c:777-898 | a history cut after k changes has its events cut in the same place |
| LaggingReplay.HistoryReplayed | tlpi-book/inotify/inotify_dtree.c:777-898 | after the events of any history every directory is cached once, under the path it then has, and nothing else is |
| LaggingReplay.LaggingReplay | tlpi-book/inotify/inotify_dtree.c:777-898 | with events queued arbitrarily far ahead and read in any chunks, consuming those of the first k changes leaves the cache as the directories were after k changes |
| LaggingReplay.MadeThenRenamedIsMissed | tlpi-book/inotify/inotify_dtree.c:736-775 | the three events of a directory made and renamed leave the cache as it was when the walk finds nothing |
| Backlog.AheadWith | tlpi-book/inotify/inotify_dtree.c:703-994 | entries added by a walk leave the fate of all others as it was, and the queue carries each along by itself |
| BacklogDeeds.PathChanges | tlpi-book/inotify/inotify_dtree.c:565-592 | a rename changes the pathnames of the directory and of those below it, and no other |
| BacklogDeeds.DeedRightIff | tlpi-book/inotify/inotify_dtree.c:777-927 | a mkdir, rename, removal or file event anywhere, reported or lost, keeps the state right if and only if it is not a silent move |
| BacklogTakes.WalkAdds | tlpi-book/inotify/inotify_dtree.c:469-556 | a walk adds exactly the directories now at or below the pathname that had no watch, each under its present pathname |
| BacklogTakes.RebuildMirrors | tlpi-book/inotify/inotify_dtree.c:656-693 | a rebuild caches every directory it watches, under its pathname, and nothing else |
| BacklogTakes.TakeRightIff | tlpi-book/inotify/inotify_dtree.c:703-994 | taking the next notice keeps the state right if and only if it starts no stale walk |
| BacklogRuns.SplitKeeps | tlpi-book/inotify/inotify_dtree.c:833-852 | taking the two halves of a rename apart keeps the state right: in the end the entries are right or there is a rebuild |
| BacklogRuns.RightIffHarmless | tlpi-book/inotify/inotify_dtree.c:703-994 | in every run all states are right if and only if there is no stale walk and no silent move |
| BacklogRuns.DrainedIsFaithful | tlpi-book/inotify/inotify_dtree.c:703-994 | with nothing queued, right means that each watched directory is cached once, under its present pathname, and nothing else is |
| BacklogRuns.CaughtUpIff | tlpi-book/inotify/inotify_dtree.c:1008-1114 | when the program works through the queue undisturbed, the cache ends up right if and only if none of its walks is stale |
| BacklogRuns.HistoryThenProgram | tlpi-book/inotify/inotify_dtree.c:1008-1114 | from a complete cache, after any history of mkdirs, renames and removals and then the program alone, the cache is right if and only if no walk was stale |
| BacklogRuns.DefeatLeadsToRebuild | tlpi-book/inotify/inotify_dtree.c:841-847 | a queue with a notice of a watch that will be unknown is not used up without a rebuild |
| BacklogRuns.CachedIffFound | tlpi-book/inotify/inotify_dtree.c:736-775 | in a run without harm a directory is cached in the end, under its present pathname, if and only if it kept its first watch, or some walk started while it was at or below the pathname walked and its watch stayed |
| BacklogRuns.LostIff | tlpi-book/inotify/inotify_dtree.c:599-693 | a step takes a watch away if and only if the directory is removed, or its entry is at or below a pathname moved out, or a rebuild does not come to it |
| BacklogRuns.RebuildComplete | tlpi-book/inotify/inotify_dtree.c:656-693 | after a rebuild every directory is cached once, under its pathname, whatever the cache was before, if the roots are on the root list |
| BacklogRuns.RunIsReplay | tlpi-book/inotify/inotify_dtree.c:1043-1113 | what the program does in a run is its replay of the events it takes |
| BacklogReports.HarmlessTracks | tlpi-book/inotify/inotify_dtree.c:736-775 | in every run without harm, what a queued event reports ends up as the pathname of the directory it is about, unless that is removed or moved out |
| BacklogReports.StrayIffAnother | tlpi-book/inotify/inotify_dtree.c:736-775 | then the directory that stands at the pathname reported is about to be filed wrongly if and only if it is not the one reported |
| BacklogExamples.PathnameReused | tlpi-book/inotify/inotify_dtree.c:736-898 | a run of mkdir a, mv a b, mkdir a after which the new directory is cached under the pathname of the old one, which is not watched |
| CreationRace.StepKeeps | tlpi-book/inotify/inotify_dtree.c:469-519 | every mkdir, file event, step of the walk and event taken keeps the invariant of the race |
| CreationRace.UncachedIsPending | tlpi-book/inotify/inotify_dtree.c:736-775 | in every reachable state the topmost uncached directory above an uncached one is ahead of the walk or its creation event is queued |
| CreationRace.DrainedIsComplete | tlpi-book/inotify/inotify_dtree.c:736-775 | when the walk is over and the queue is empty, every directory is cached exactly once, under its path |
| CreationRace.DrainedIsInStep | tlpi-book/inotify/inotify_dtree.c:656-693 | the drained cache is in step with the directories, so histories of renames and removals can be replayed from it |
| CreationRace.MadeBehindTheWalk | tlpi-book/inotify/inotify_dtree.c:736-775 | a run in which the walk misses a directory and its creation event brings it in |
| CreationRace.StepsKeep | tlpi-book/inotify/inotify_dtree.c:469-519 | so does every sequence of steps, from any state in which the invariant holds |
| QuietPhases.PhasesKeep | tlpi-book/inotify/inotify_dtree.c:703-994 | however many races and harmless runs in which every directory is found follow each other, the cache is complete and right after each of them |
| CreationRace.RunIsProcessing | tlpi-book/inotify/inotify_dtree.c:736-775 | the steps of a run are the program's processing of the event last taken |
| NamespaceForest.LineagePresent | tlpi-book/namespaces/namespaces_of.go:642-729 | a key in the list has all its visible ancestors in the list |
| NamespaceForest.NamespaceInfo.AddNamespace | tlpi-book/namespaces/namespaces_of.go:603-622 | adds exactly the namespace and what is above it, each linked once under its own parent, and one member process; the recursion ends because nesting is bounded |
| NamespaceForest.NamespaceInfo.AddNamespaceToList | tlpi-book/namespaces/namespaces_of.go:642-729 | the node goes in before its ancestors and is linked afterwards, and the list is a forest again when the call returns |
| NamespaceForest.NamespaceInfo.LinkUnderInvisible | tlpi-book/namespaces/namespaces_of.go:642-729 | an entry whose owner is not visible is linked under the invisible entry, which is made once |
| NamespaceForest.ScanAll | tlpi-book/namespaces/namespaces_of.go:603-729 | after any sequence of scanned namespaces the keys are those namespaces and what is above them, children lists hold each key once, and the recorded pids are those scanned |
| NamespaceForest.ScanOrderDoesNotMatter | tlpi-book/namespaces/namespaces_of.go:603-729 | two scans of the same namespaces and processes in any order give the same keys, types, children and members |
| NamespaceLaws.EntryMeans | tlpi-book/namespaces/namespaces_of.go:642-729 | each namespace has the type and creator that the kernel reports and is once a child of the parent or owner reported; without one it is once under the invisible entry, or topmost |
| NamespaceLaws.OnlyEntriesAreChildren | tlpi-book/namespaces/namespaces_of.go:642-729 | nothing else is a child |
| NamespaceLaws.WhyThere | tlpi-book/namespaces/namespaces_of.go:603-729 | every entry was scanned or is reported above another entry; the invisible one is there because some owner is not visible |
| NamespaceLaws.MembersMean | tlpi-book/namespaces/namespaces_of.go:615-619 | a namespace has exactly the processes it was scanned for as members |
| NamespaceLaws.RootMeans | tlpi-book/namespaces/namespaces_of.go:680-690 | the root is a topmost namespace that was found, and has its zero value if there is none |
| NamespaceDisplay.CountPreorder | tlpi-book/namespaces/namespaces_of.go:1193-1210 | displaying from a key visits every key below it exactly once and no other |
| NamespaceDisplay.PreorderLevels | tlpi-book/namespaces/namespaces_of.go:1193-1210 | the level passed is the start level plus the node's depth below the start |
| NamespaceDisplay.ParentsPrecede | tlpi-book/namespaces/namespaces_of.go:1193-1210 | every visit but the first comes after its parent's, with only the parent's subtree between |
| NamespaceDisplay.DisplayNamespaceTree | tlpi-book/namespaces/namespaces_of.go:1193-1210 | the recursion ends and displays the preorder, restricted to the types asked for |
| NamespaceDisplay.DisplayNamespaceHierarchies | tlpi-book/namespaces/namespaces_of.go:1143-1171 | displays from the root and then from the invisible entry; without an entry for the root there is nothing to display from |
| NamespaceLaws.LevelsMean | tlpi-book/namespaces/namespaces_of.go:1148-1208 | levels start at zero for topmost namespaces and the invisible entry, and each namespace is one level deeper than the one the kernel reports above it |
| NamespaceLaws.ShownMeans | tlpi-book/namespaces/namespaces_of.go:1199-1204 | of the visits, those of user namespaces and of the types asked for are displayed, each as often as it occurs |
| NamespaceLaws.ShownInOrder | tlpi-book/namespaces/namespaces_of.go:1193-1210 | and in the order of the visits |
| NamespaceLaws.AllShown | tlpi-book/namespaces/namespaces_of.go:1143-1171 | what is displayed in all is that selection of all the visits |
| NamespaceDisplay.SameRoot | tlpi-book/namespaces/namespaces_of.go:642-729 | with at most one topmost namespace the root does not depend on scan order either |
| NamespaceDisplay.TwoTopsFail | tlpi-book/namespaces/namespaces_of.go:1143-1171 | a scan of the PID hierarchy that finds two namespaces without visible parents, of which one is not displayed |
| NamespaceDisplay.DisplayCompleteIff | tlpi-book/namespaces/namespaces_of.go:1143-1171 | every key of a forest so built is visited exactly once if and only if the scan found exactly one topmost namespace |
| WrapText.Wrap | tlpi-book/namespaces/namespaces_of.go:1434-1459 | the text built is that of the greedy lines |
| WrapText.WrappedFits | tlpi-book/namespaces/namespaces_of.go:1434-1459 | the words are kept in order, and no line of more than one word exceeds the width in bytes |
| WrapText.WrappedIsOptimal | tlpi-book/namespaces/namespaces_of.go:1434-1459 | no breaking of the words that respects the width has fewer lines |
| WrapText.WrappingKeepsWords | tlpi-book/namespaces/namespaces_of.go:1434-1459 | splitting the wrapped text at white space gives the words of the text |
| WrapText.WidthIsLen | tlpi-book/namespaces/namespaces_of.go:1434-1459 | the column counted for a line is the length of its text |
| WrapText.LenBounds | tlpi-book/namespaces/namespaces_of.go:1448-1456 | a text is as long in bytes as in characters if and only if it is ASCII, and at most four times as long |
| WrapText.LinesFit | tlpi-book/namespaces/namespaces_of.go:1446-1456 | the text of a line of several words has at most width bytes, and a line ends only where the next word would make it longer than that |
| WrapText.TextPieces | tlpi-book/namespaces/namespaces_of.go:1434-1459 | between its newlines the result has the lines in order, each the indent and its words with single blanks |
| NsCapable.LinkIsUnique | tlpi-book/namespaces/ns_capable.c:169-223 | there is at most one link right below a namespace on a parent chain, and only below a proper ancestor |
| NsCapable.LinkExists | tlpi-book/namespaces/ns_capable.c:169-223 | below every proper ancestor there is such a link |
| NsCapable.Descriptors.IsAncestorUserns | tlpi-book/namespaces/ns_capable.c:169-223 | returns the link below source if and only if source is a proper ancestor; afterwards the open descriptors are those before and at most the one returned, and nothing is closed twice |
| NsCapable.Descriptors.OpenTarget | tlpi-book/namespaces/ns_capable.c:246-276 | one descriptor is opened, for the user namespace the argument stands for or that owns it |
| NsCapable.Descriptors.Check | tlpi-book/namespaces/ns_capable.c:278-366 | the verdict is right in all cases and every descriptor opened is closed again |
| MessageQueue.ReceiveConserves | tlpi-book/pmsg/mq_notify_via_thread.c:31-33 | receiving loses, invents and repeats no message |
| MqNotifyViaThread.StepKeeps | tlpi-book/pmsg/mq_notify_via_thread.c:21-82 | exactly one of the registration and a thread about to register exists, so mq_notify() never finds a registration; waiting messages have a drainer or one about to drain |
| MqNotifyViaThread.RunKeeps | tlpi-book/pmsg/mq_notify_via_thread.c:21-82 | that holds in every run, whatever the queue holds at first |
| MqNotifyViaThread.NotDoneCanStep | tlpi-book/pmsg/mq_notify_via_thread.c:21-82 | the program is at rest if and only if every message was received and it is registered |
| MqNotifyViaThread.ProgramRunIsShort | tlpi-book/pmsg/mq_notify_via_thread.c:21-82 | once senders stop, the program comes to rest within the work left |
| MqNotifyViaSignal.StepKeeps | tlpi-book/pmsg/mq_notify_via_signal.c:55-77 | the notification is in exactly one place, so mq_notify() never finds a registration and a notification never finds its signal pending |
| MqNotifyViaSignal.RunKeeps | tlpi-book/pmsg/mq_notify_via_signal.c:55-77 | that holds in every run, whatever the queue holds at first and whenever signals arrive |
| MqNotifyViaSignal.NotDoneCanStep | tlpi-book/pmsg/mq_notify_via_signal.c:55-77 | nothing is left to do if and only if every message was received and the program sleeps registered |
| MqNotifyViaSignal.WorkRunIsShort | tlpi-book/pmsg/mq_notify_via_signal.c:55-77 | once senders stop, the work is done after so many steps |
| MqNotifySig.RunKeeps | tlpi-book/pmsg/mq_notify_sig.c:62-80 | the notification is in exactly one place in every run |
| MqNotifySig.ForgottenForEver | tlpi-book/pmsg/mq_notify_sig.c:62-80 | after the first mq_notify(), messages are forgotten at the end of a run just when they were at its start, and then none is ever received |
| MqNotifySig.NothingForgottenIffEmptyAtFirst | tlpi-book/pmsg/mq_notify_sig.c:62-80 | no run forgets a message if and only if the queue is empty at the first mq_notify() |
| MqNotifySig.SleepsIff | tlpi-book/pmsg/mq_notify_sig.c:62-80 | the program sleeps on if and only if every message was received or messages are forgotten |
| MqNotifySig.ProgramRunIsShort | tlpi-book/pmsg/mq_notify_sig.c:62-80 | once senders stop, the program comes to rest |
| MultiSigchld.StepKeeps | chapter26/multi_SIGCHLD.c:11-105 | numLiveChildren is the number not yet reaped, and a zombie always has SIGCHLD pending or the reaping loop running |
| MultiSigchld.NeverSleepsForEver | chapter26/multi_SIGCHLD.c:90-101 | short of the exit some step is possible: in sigsuspend() the signal is pending or a child still runs |
| MultiSigchld.RunKeeps | chapter26/multi_SIGCHLD.c:11-105 | the invariant holds in every run, and each step uses up work that only stops and continues add to |
| MultiSigchld.SigCntIsTimesCaught | chapter26/multi_SIGCHLD.c:90-105 | in every run sigCnt is the number of times the handler was started, less the one that has not returned |
| MultiSigchld.EveryRunEnds | chapter26/multi_SIGCHLD.c:57-105 | the program can step until it comes to its exit, within so many steps; then every child was reaped, and the count printed is how often SIGCHLD was caught, at least once and at most once for each exit, stop or continue |
| ThreadMultijoin.StepKeeps | chapter30/thread_multijoin.c:31-125 | with each thread on its own index, every step keeps the mutual exclusion, the thread states and the counters |
| ThreadMultijoin.CountersRight | chapter30/thread_multijoin.c:31-125 | whenever the mutex is free numUnjoined counts the terminated threads and numLive those not joined |
| ThreadMultijoin.NeverStuck | chapter30/thread_multijoin.c:92-125 | short of the exit some step other than a spurious wake-up is possible: no signal is lost, and joining with the mutex held does not deadlock |
| ThreadMultijoin.EveryRunEnds | chapter30/thread_multijoin.c:77-125 | main() comes to its exit within so many steps, with each thread joined by one pthread_join() |
| ThreadMultijoin.OwnIndexRun | chapter30/thread_multijoin.c:77-84 | a run of the program itself in which each thread read idx in time is a run with own indexes |
| ThreadMultijoin.OwnIndexesIffNoThreads | chapter30/thread_multijoin.c:77-84 | every run is such a run if and only if there are no threads |
| ThreadMultijoin.Finishes | chapter30/thread_multijoin.c:92-125 | from every state with own indexes some continuation takes main() to its exit with every thread joined |
| ThreadMultijoin.CanFinishIffOwn | chapter30/thread_multijoin.c:77-125 | when every thread has read the shared variable by the end of the creation loop, the program can still finish with every thread joined if and only if each read its own index |
| ThreadMultijoin.AlwaysFinishesIffNoThreads | chapter30/thread_multijoin.c:77-125 | every run of the program as written can go on to that end if and only if there are no threads |
| ThreadMultijoin.FinishesInRangeIff | chapter30/thread_multijoin.c:77-125 | where no thread reads past the array, if and only if there is at most one thread |
| ThreadMultijoin.UnreadCannotFinish | chapter30/thread_multijoin.c:31-84 | once every thread has read an index, an index that none read is never marked, so its thread is never joined |
| ThreadMultijoin.SameIndexCannotFinish | chapter30/thread_multijoin.c:31-125 | whenever the threads read, once two have read the same index, or one has read past the array, main() cannot come to its exit with every thread joined |
| ThreadMultijoin.SharedIndexHangs | chapter30/thread_multijoin.c:31-84 | a run with two threads that read the same index, after which main() spins for ever |
| ThreadIncr.RunKeeps | chapter30/thread_incr.c:6-17 | in every run the counter is at most the number of increments made, and at the end it is at least the lesser of 2 and loops |
| ThreadIncr.FinalValues | chapter30/thread_incr.c:6-17 | the possible final values are exactly those from the lesser of 2 and loops up to 2 * loops |
| ThreadIncrMutex.NotDoneCanStep | chapter30/thread_incr_mutex.c:7-26 | a thread can step if and only if some thread is not done |
| ThreadIncrMutex.NothingLost | chapter30/thread_incr_mutex.c:7-26 | with the mutex free the counter is the number of completed critical sections, and at the end it is 2 * loops |
| AclParse.ParsePerms | tlpi-book/acl/acl_update.c:141-161 | the letters r, w and x set their bit in any order and number, and any other letter but - is refused |
| AclParse.ParseEntrySpec | tlpi-book/acl/acl_update.c:75-164 | the entry read from the buffer is the meaning of the text, and only characters of the text are overwritten |
| AclParse.ParseACL | tlpi-book/acl/acl_update.c:170-198 | the array holds the entries of the text in order and their number is returned, or -1 for a bad entry or more than 10000 of them |
| AclParse.EntryRoundTrip | tlpi-book/acl/acl_update.c:75-164 | an entry written out is parsed back, and refused if it has permissions where there may be none or lacks them where they are required |
| AclParse.AclRoundTrip | tlpi-book/acl/acl_update.c:170-198 | a list of entries written out is parsed back |
| AclGrammar.PermsMean | tlpi-book/acl/acl_update.c:141-161 | a text gives permissions if and only if all its letters are among r, w, x and -, and each permission is given if and only if its letter is there |
| AclGrammar.TagsMean | tlpi-book/acl/acl_update.c:105-118 | the tag of each of the eight names, with and without a qualifier, and of no other text |
| AclGrammar.ParseEntryIff | tlpi-book/acl/acl_update.c:75-164 | a text is accepted as an entry if and only if it is tag:[qualifier][:[permissions]] and its parts mean that entry |
| AclGrammar.EitherName | tlpi-book/acl/acl_update.c:75-164 | an entry written with the short or the long name of its tag is parsed back |
| AclGrammar.PartsAreParsed | tlpi-book/acl/acl_update.c:170-198 | a text is accepted as a list if and only if each part between commas is accepted as an entry, in the order of the text |
| AclUpdate.Acl.FindEntry | tlpi-book/acl/acl_update.c:204-255 | finds an entry by tag and, for named users and groups, by qualifier, if and only if there is one |
| AclUpdate.Acl.SetPerms | tlpi-book/acl/acl_update.c:259-282 | sets the permissions of that key and no other |
| AclUpdate.Acl.CalcMask | tlpi-book/acl/acl_update.c:328-330 | sets or adds the mask entry, as the union of the group class |
| AclUpdate.Acl.IsValid | tlpi-book/acl/acl_update.c:334-335 | the required entries are there, and a mask if a user or group is named |
| AclUpdate.UpdateACL | tlpi-book/acl/acl_update.c:286-343 | the file's ACL and whether the program gets to its end are those of the update of the map; the file is written once for each entry, each time with a valid ACL in which the entries so far are applied |
| AclUpdate.ModifiedAt | tlpi-book/acl/acl_update.c:307-324 | modification is last-writer-wins for each key named and leaves every other entry but the mask; with recalculation the mask is the union of the group class |
| AclUpdate.RemovedAt | tlpi-book/acl/acl_update.c:302-305 | removal deletes exactly the keys named |
| AclUpdate.LastPermsIs | tlpi-book/acl/acl_update.c:299-339 | the winner is the last entry of the list that has the key |
| AclEntries.LastWordCounts | tlpi-book/acl/acl_update.c:307-324 | the last element of the list about a user, a group or another tag has exactly its permissions in the file, but for a mask that is recalculated |
| AclEntries.OthersKeep | tlpi-book/acl/acl_update.c:299-339 | whoever the list does not name keeps its permissions, or stays without an entry |
| AclEntries.RemovalKeeps | tlpi-book/acl/acl_update.c:302-305 | removal keeps exactly the entries of those that the list does not name |
| AclEntries.MaskIsUnion | tlpi-book/acl/acl_update.c:328-330 | a recalculated mask has a permission if and only if an entry of a user, the owning group or a group has it |
| AclEntries.ValidIff | tlpi-book/acl/acl_update.c:334-335 | an ACL is valid if and only if it has entries for the owner, the owning group and the others, and a mask if it has any for a user or a group |
| AclEntries.EachWritten | tlpi-book/acl/acl_update.c:299-339 | every ACL that is ever written is valid and has the elements of the list so far applied |
| AclUpdate.CompletesIff | tlpi-book/acl/acl_update.c:299-339 | the program completes if and only if every intermediate ACL is valid, and never leaves an invalid one it made |
| AclUpdate.ModifyAlwaysCompletes | tlpi-book/acl/acl_update.c:307-339 | with recalculation, modifying a valid ACL keeps every intermediate ACL valid |
| AclUpdate.ModifyWithoutMaskIff | tlpi-book/acl/acl_update.c:307-339 | without it, the program completes if and only if there is a mask or the list gives one before it names a user or group |
| AclUpdate.RemoveCompletesIff | tlpi-book/acl/acl_update.c:302-339 | with recalculation, removal completes if and only if no required entry is named |
| AclUpdate.RemoveWithoutMaskIff | tlpi-book/acl/acl_update.c:302-339 | without it, also the mask may be removed only once no named user or group is left |
| Environment.ComparisonFindsName | tlpi-book/proc/setenv.c:31-31 | the strncmp() test and the '=' after it hold exactly for entries whose part before the first '=' is the name |
| Environment.WithoutAll | tlpi-book/proc/setenv.c:18-46 | after removal the name is not found, and every other name has the value and the number of entries it had |
| Environment.Splits | tlpi-book/proc/setenv.c:30-43 | removal is an order-preserving filter: it works on the parts of a list one by one |
| Environment.Environ.ShiftBack | tlpi-book/proc/setenv.c:33-37 | the inner loop ends and drops exactly one entry |
| Environment.Environ.Unsetenv | tlpi-book/proc/setenv.c:18-46 | the shifting loops end and leave the filtered list in place; a bad name is refused |
| Environment.Environ.MyUnsetenv | chapter6/exercise_3.c:50-78 | the two-pointer compaction leaves the same filtered list |
| Environment.Environ.Setenv | tlpi-book/proc/setenv.c:48-72 | the result and the list in every case: bad arguments, kept value, success, and memory missing after the removal |
| Environment.SetAll | tlpi-book/proc/setenv.c:48-72 | after an overwriting setenv() the new value is found, it is the only entry of the name, other names keep their values, and unsetenv() takes it away |
| Environment.FailureKeepsIff | tlpi-book/proc/setenv.c:60-65 | a failure after the removal leaves the environment unchanged if and only if the name was not set |
| Environment.Environ.MySetenv | chapter6/exercise_3.c:16-42 | the result and the list in every case; a failed call leaves the list unchanged |
| Environment.PutAll | chapter6/exercise_3.c:16-42 | the new value is found and other names keep theirs, but as many entries of the name remain as there were |
| SparseCopy.IsAllZeros | chapter4/cp.c:75-84 | whether the block is all zeros |
| SparseCopy.Copy | chapter4/cp.c:72-102 | for every pattern of short reads the two offsets move together and the destination is the source up to the last block that is not all zeros |
| SparseCopy.CopyLacksZeros | chapter4/cp.c:72-102 | what the destination lacks is zeros, and it lacks nothing if and only if the source is empty or the last block read was not all zeros |
| SparseCopy.EqualHoweverReadIff | chapter4/cp.c:72-102 | the copy equals the source for every pattern of reads if and only if the source does not end in a zero |

## Left out

- Output, logging, usage texts, colours and the interactive commands of `inotify_dtree.c`, among them the cache dump and
  the optional consistency check after each event.
- System calls as code: fork, waitpid, sigsuspend, ioctl, nftw, inotify, mq_*, pthread_*, libacl, malloc and file I/O are
  small state models, parameters or step relations. Failures on which a program only exits are not modelled, unless a
  state is left behind.
- `inotify_dtree.c`: root paths are assumed to have no trailing slash and not to be nested, and pathnames to be shorter
  than PATH_MAX, as the file's own comment declares. The read buffer has whole events at byte positions, not byte contents.
- CreationRace.StepKeeps: other processes only make directories and touch files while a walk goes on; a walk that races
  with renames or removals can abort in nftw(), and the program then relies on a rebuild.
- LaggingReplay.LaggingReplay: the two events of a rename are adjacent in the queue and nothing is made; Backlog has both.
- BacklogTakes.TakeRightIff: a walk sees the directories as they are at one moment; walks that other processes overtake
  are in CreationRace, with directories being made only.
- BacklogDeeds.DeedRightIff: the target of a rename is absent, the last root is not removed, and roots are not renamed;
  InotifyEffects.RootMovedForgets says what the program does then.
- BacklogReports.HarmlessTracks: for runs in which renames are dealt with in one piece.
- QuietPhases.PhasesKeep: during a race, with its walks step by step, nothing is renamed or removed.
- `namespaces_of.go`: descriptors, the uid and gid maps, the collection of the namespaces to scan, and the display of one
  namespace's line (sorting and formatting of member processes, the subtree option). `pid_namespaces.go` and
  `userns_overview.go` are smaller copies of the same builder, and `view_v2_cgroups.go` of the same wrapping.
- Message queues: priorities (any message may be received next), the limit on queued messages, and registrations by other
  processes.
- MultiSigchld.EveryRunEnds: a failing fork(), on which the program exits.
- ThreadMultijoin.AlwaysFinishesIffNoThreads: what a write past the end of thread[] does is undefined in C; here a thread
  that has read such an index stops before it.
- ThreadMultijoin.CanFinishIffOwn: a thread that first reads its index while main() scans may read a smaller one, and whether
  the program can still finish then also depends on who holds the mutex; SameIndexCannotFinish is what holds in all states.
- ThreadMultijoin.EveryRunEnds: fairness is not modelled; the bound on the length of runs grows with each spurious wake-up.
- ThreadIncr.FinalValues: weak memory and the overflow of a 32-bit counter when 2 * loops exceeds its range; single loads
  and stores are atomic and sequentially consistent.
- AclParse.ParseACL: the names of users and groups are looked up by uninterpreted partial functions, and the permissions
  of an entry without a permission text, which the C code leaves unset, are None; modifying with such an entry, which the
  parser never gives when permissions are required, is taken to set none.
- AclUpdate.UpdateACL: acl_get_file() and acl_set_file() succeed, the order of entries inside the library's object does not
  matter, and the ACL read has no duplicate entries. Removal of a whole default ACL is one call and not modelled.
- Environment.Environ.MySetenv: a NULL value is undefined behaviour in the C code and not an argument of the model.
- SparseCopy.Copy: write() writes the whole block, as the program demands, and the variable lastOffset, which it never
  reads, is dropped.
- `comptToLL`, `filePermStr`, `printWaitStatus`, `become_daemon` and the functions of `lib/`: single checks and wrappers.
