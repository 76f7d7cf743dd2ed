# Models of the EL32 systems-programming code

Dafny models, with proofs, of the parts of this repository that carry real invariants: a directory
cache fed by inotify, protocols built on semaphores, signals and notifications, a table of
hot-plugged controllers, and some sequential algorithms. `dafny verify dfyconfig.toml` checks the
whole project.

**The inotify directory cache** (`inotify_dtree.c`). `Paths` relates pathnames to lists of names.
`DirTree` is the kernel's side: the directories, the watch table, and the queue of events that every
change appends to. `CacheProtocol` is the program's side as a state machine over a map from watch
descriptors to paths; any run interleaves changes to the tree with the handling of single events.
The heart of it is an invariant on what the events waiting in the queue will still do to the cache,
read off the queue in advance: the cache they leave (`Final`), the pathnames that will be traversed
(`Pending`), the watches that will be removed (`Zapped`), and the traversals that come before the
program learns of a move already made (`Overtaken`). In the end every directory watched now is cached
under its present pathname, and every other live directory lies at or below a pathname that will be
traversed. `CacheReplay` is about reading the queue ahead, `TreeChanges` and `CacheChanges` about the
steps of other processes, `CacheMoves` about moves, `CacheConvergence` and `CacheHandling` about the
program's own step; `CacheTheorems` puts them together: the cache converges. Files and removals may
come at any time, and moves and arrivals may overtake announcements of other directories, as long as
what is not watched yet comes to lie where the program will find it, and not where an overtaken
announcement makes it find it too early. `CacheSanity` is what holds of runs without any such restriction.

The other inotify modules show where the program's own promise ends. `CacheLimits` proves exactly when
handling the waiting events brings the cache in sync, and draws from it the conditions for arrivals and
renames; `CacheLosses` is about directories renamed into unwatched ones, `CacheRaces` about several
changes made before the first event is handled, and `CacheExamples` has two concrete runs.
`SplitTraversal` takes the traversal apart into its single steps. `WatchCache` is the program itself, on
an array of slots with strings, proved to compute the steps of the state machine; `EventLoop` is the
read loop with its second, timed read, among other processes that may do anything.

**Processes and semaphores.** `BoundedBuffer` (`baproducer.c`, `baconsumer.c`) lets any number of
producers and consumers interleave, between groups of accesses to shared memory or a semaphore: the
update of a slot, and that of a producer's two counters, are one step each. `Rendezvous` (`rendez.c`)
is the turnstile barrier for any number of participants, with the four-participant byte of flags as a
refinement.

**Signals.** `SigChild` (`multi_SIGCHLD.c`) and `QueueNotify` (`mq_notify_via_signal.c`) are step
machines in which the order of the program's operations is the whole argument, each with the program
as a class whose steps keep the machine's invariant under any script of outside events.

**Controllers.** `Devices` (`devices.c`) reconciles a table of four slots with each scan of the USB:
`DeviceScan` is the loop over libusb's list with its 8-bit index, `DevicePolls` what one poll does to
the table and which handles it loses, `DeviceSlots` which slot each controller gets, `DeviceRuns` whole
runs, and `DeviceDaemon` the program on its arrays.

**Sequential algorithms.** `LineReader` (`read_line.c`, `read_line_buf.c`), `Environ` (`setenv.c`),
`PathSearch` (`execlp.c`), `Commands` (`commands.c`) and `CommaPrint` (`clocks.c`); `CStrings` holds
the few functions of string.h that they call, and `Prelude` what several models share.

Where the code does not do what one would expect, the model follows the code, and the exact condition
is proved:

- a directory moved in over an existing watched one is not watched, unless a traversal still to come includes it (`CacheLimits.MoveInConvergesIff`);
- a rename that comes before the IN_CREATE of the same directory is handled loses it (`CacheRaces.RaceConverges`, `CacheLimits.RenameConvergesIff`), and so does one of watched directories into one that is not watched yet (`CacheLosses.RenameAwayConvergesIff`);
- an announcement that has become stale can give new directories a wrong pathname while a rename waits to be handled (`CacheRaces.StaleAnnouncementConvergesIff`, and for any one waiting rename `CacheRaces.ArrivalConvergesIff` and `CacheRaces.CreationConvergesIff`);
- the index of the ring buffer wraps at 2^64, which keeps values in order only if the size divides 2^64 (`BoundedBuffer.InOrderForeverIff`);
- the 8-bit index over libusb's list wraps before the end of a list of 256 entries or more: such a list may be read for ever (`DeviceScan.ScanEndsIff`), or a controller counted and opened more than once (`DeviceScan.SeenDistinctIff`, `DeviceRuns.TooManyLoses`), and handles are lost (`DevicePolls.LosesNoneIff`);
- when the list of devices cannot be had, all controllers are taken for unplugged (`DeviceSlots.FailedListEmpties`);
- a controller on bus 255 never leaves the table (`DeviceRuns.UnpluggedLeavesIff`, `DeviceRuns.StuckForever`), and takes a slot from others (`DeviceRuns.StuckCost`);
- the terminator that `retreiveCommand` writes one place too far lets a digit of a long id into the value (`Commands.RoundTripIff`);
- `readLineBuf` is described as a faster version of `readLine`; unlike that, it adds no null byte and does not restart an interrupted read (`LineReader.ReadLineBuf.Read`);
- when `setenv` fails after `unsetenv`, the old definitions are gone (`Environ.Process.Setenv`).

Assumptions. Root paths have no trailing slash and are not nested, pathnames fit in PATH_MAX
and names in NAME_MAX.
Watch descriptors and rename cookies are never reused. A rename is one step of the kernel, with its
events next to each other in the queue. The message queue has a single reader and nobody else
registers with it. USB addresses are 1 to 127 and (bus, address) pairs are distinct. The separator of
the locale is not a digit. Strings passed in contain no null character.

## Model

| member | source | states |
|---|---|---|
| `Paths.BelowIsPrefix` | el32/examples/tlpi-dist/inotify/inotify_dtree.c:639-641 | on rendered pathnames, the test "equal, or followed by / or the end" holds exactly when one path is a component-wise prefix of the other: a/b is never taken for an ancestor of a/bc |
| `Paths.RenderChild` | el32/examples/tlpi-dist/inotify/inotify_dtree.c:811-812 | the pathname of an entry is that of its directory, a slash, and its name |
| `Paths.RenderInjective` | el32/examples/tlpi-dist/inotify/inotify_dtree.c:334-344 | two paths below the roots with the same pathname are the same path, so looking a pathname up is looking a path up |
| `Paths.SpliceIsRebase` | el32/examples/tlpi-dist/inotify/inotify_dtree.c:632-645 | cutting the old prefix off a cached string and putting the new one in front is moving the path from one directory to the other, and leaves every other path alone |
| `Paths.RebaseThereAndBack` | el32/examples/tlpi-dist/inotify/inotify_dtree.c:623-651 | renaming old to new and new to old restores a path if and only if the path was not below new (or was below old as well) |
| `CacheMoves.RenameBackRestoresIff` | el32/examples/tlpi-dist/inotify/inotify_dtree.c:623-651 | the same for the whole cache: it is restored exactly when no cached directory was at or below the target without being at or below the source |
| `CacheMoves.RenameIsOutAndIn` | el32/examples/tlpi-dist/inotify/inotify_dtree.c:862-943 | a rename leaves the same tree and watches as moving the subtree out and back in at the new place |
| `DirTree.RebasedApart` | el32/examples/tlpi-dist/inotify/inotify_dtree.c:862-943 | a rename keeps directories apart: no two land on the same path, provided nothing is below the target |
| `DirTree.Tree.AncestorsLive` | el32/examples/tlpi-dist/inotify/inotify_dtree.c:521-575 | every path between a live directory and a live ancestor is live |
| `DirTree.Tree.TargetEmpty` | el32/examples/tlpi-dist/inotify/inotify_dtree.c:862-943 | only an empty directory can be the target of a rename |
| `CacheConvergence.VisitEffect` | el32/examples/tlpi-dist/inotify/inotify_dtree.c:521-575 | traverseTree on a directory adds its watch and its cache entry if it has none, and touches no other |
| `CacheConvergence.WalkEffect` | el32/examples/tlpi-dist/inotify/inotify_dtree.c:582-600 | a traversal watches and caches exactly the live directories it reports, in whatever order |
| `CacheHandling.RebuildSynced` | el32/examples/tlpi-dist/inotify/inotify_dtree.c:719-759 | reinitialize() leaves the cache equal to the live directories |
| `CacheHandling.NoRebuild` | el32/examples/tlpi-dist/inotify/inotify_dtree.c:768-800 | with no overflow in the queue, whatever is watched or announced, the event at the head finds its descriptor, a matching IN_MOVED_TO finds its own, and every inotify_rm_watch() succeeds |
| `CacheHandling.HandleLogged` | el32/examples/tlpi-dist/inotify/inotify_dtree.c:848-1011 | handling an IN_DELETE_SELF, an IN_MOVED_FROM or a rename pair keeps what the queue will still do to the cache, and with it which directories will be known in the end |
| `CacheHandling.HandleConsistent` | el32/examples/tlpi-dist/inotify/inotify_dtree.c:768-1082 | handling any event, a traversal included, keeps the cache consistent with the queue behind it; in the end it knows no directory more and no directory less than was foreseen |
| `CacheReplay.Split` | el32/examples/tlpi-dist/inotify/inotify_dtree.c:948-981 | the queue is handled as its first part is and then its rest: what is moved, removed, traversed, and which traversals come before a move already made |
| `CacheReplay.NextAppend` | el32/examples/tlpi-dist/inotify/inotify_dtree.c:948-981 | handling the head of the queue does not depend on what comes later, a matching IN_MOVED_TO apart |
| `CacheReplay.Added` | el32/examples/tlpi-dist/inotify/inotify_dtree.c:817-846 | entries that a traversal adds, at pathnames that no move still in the queue takes along, are there in the end, and save only the traversals of their own pathnames |
| `CacheTheorems.StepInv` | el32/examples/tlpi-dist/inotify/inotify_dtree.c:768-1082 | every orderly step keeps the invariant: mkdir, rmdir, touching a file, moving in, renaming, moving out, losing events, and handling the next event |
| `CacheTheorems.Converges` | el32/examples/tlpi-dist/inotify/inotify_dtree.c:768-1082 | over every run of orderly steps: with no event left, the cache is exactly the set of live directories under their own pathnames, each under its own descriptor; without overflow no event ever finds a descriptor missing, so the cache is never rebuilt. rmdir, creating files and handling events interleave in any way; directories are created, arrive and move within and out of the tree while announcements of others wait, so long as what is not watched yet comes to lie where it will be found, and not where an announcement that a move has overtaken makes the program find it too early |
| `CacheTheorems.QuiescentSynced` | el32/examples/tlpi-dist/inotify/inotify_dtree.c:768-1082 | the invariant and an empty queue make the cache equal to the tree |
| `CacheTheorems.ResyncsIff` | el32/examples/tlpi-dist/inotify/inotify_dtree.c:768-800 | from every state, in step with the tree or not: an event whose descriptor is not cached, a rename whose second descriptor is not, a move out of a directory whose watch is gone, or an overflow leaves the cache equal to the tree with no event left; any other event is taken off the queue, with its IN_MOVED_TO if it is half of a rename, and the rest stays |
| `CacheTheorems.StepKeepsDescriptors` | el32/examples/tlpi-dist/inotify/inotify_dtree.c:623-651 | a directory that stays in the tree keeps its watch descriptor, also when it is renamed |
| `CacheTheorems.PostMkdir` | el32/examples/tlpi-dist/inotify/inotify_dtree.c:804-846 | a new directory is covered by the event about it (which may have merged with the last one), so the cache still converges |
| `CacheTheorems.PostRmdir` | el32/examples/tlpi-dist/inotify/inotify_dtree.c:848-860 | a removed directory is covered by its IN_DELETE_SELF |
| `CacheTheorems.PostRename` | el32/examples/tlpi-dist/inotify/inotify_dtree.c:950-980 | a rename between watched directories, also onto an empty directory, keeps the invariant whatever announcements still wait, if each directory moved is watched or will be traversed under its new pathname (and not too early) |
| `CacheTheorems.PostUnseenRename` | el32/examples/tlpi-dist/inotify/inotify_dtree.c:804-846 | a rename of directories of which none is watched, out of one that is not, is covered like their creation at the new place |
| `CacheTheorems.PostRenameAway` | el32/examples/tlpi-dist/inotify/inotify_dtree.c:981-1005 | a rename of directories that are not watched, from a watched directory into one that is not, keeps the invariant: the program takes it for a move out, and finds them where they are now |
| `CacheTheorems.PostMoveOut` | el32/examples/tlpi-dist/inotify/inotify_dtree.c:981-1005 | moving a directory, watched or not, out of a watched one is covered by its lone IN_MOVED_FROM, whatever is below it and whatever announcements still wait; a subtree of which nothing is watched leaves unnoticed |
| `CacheTheorems.PostMoveIn` | el32/examples/tlpi-dist/inotify/inotify_dtree.c:804-846 | moving a subtree in keeps the invariant, also over an empty directory, if that is not watched or will be traversed |
| `CacheLimits.EventsEnd` | el32/examples/tlpi-dist/inotify/inotify_dtree.c:768-1082 | with nobody else at work, handling the queued events comes to an end from every state, and from a state of a run it ends with the cache equal to the tree |
| `CacheLimits.DrainsSyncedIff` | el32/examples/tlpi-dist/inotify/inotify_dtree.c:768-1082 | from any state in which the cache is consistent with the queue, handling the queued events ends with the cache equal to the tree if and only if every live directory is watched or will be traversed |
| `CacheLimits.MoveInConvergesIff` | el32/examples/tlpi-dist/inotify/inotify_dtree.c:817-846 | a directory moved in from outside while events wait, at a pathname that no overtaken announcement finds too early: in the end the cache equals the tree if and only if there was no watched directory of that name, or some waiting event sends a traversal there or above |
| `CacheLimits.MoveInConvergesIffFresh` | el32/examples/tlpi-dist/inotify/inotify_dtree.c:817-846 | with no event waiting, a directory moved in from outside ends up watched if and only if there was no directory of that name: the entry of a replaced directory makes pathnameInCache() skip the new one |
| `CacheLimits.RenameConvergesIff` | el32/examples/tlpi-dist/inotify/inotify_dtree.c:950-980 | a rename between two watched directories while events wait, nothing unwatched landing where an overtaken announcement finds it too early: in the end the cache equals the tree if and only if every directory that moved is watched or will be traversed under its new pathname |
| `CacheLosses.RenameIntoUnwatchedLoses` | el32/examples/tlpi-dist/inotify/inotify_dtree.c:981-1005 | watched directories renamed into one that is not watched are lost, whatever else waits: they look moved out, their watches are removed, and no traversal comes later |
| `CacheLosses.RenameAwayConvergesIff` | el32/examples/tlpi-dist/inotify/inotify_dtree.c:981-1005 | a rename from a watched directory into one that is not, while events wait, nothing landing where an overtaken announcement finds it too early: in the end the cache equals the tree if and only if nothing that moved is watched |
| `CacheRaces.ArrivalConvergesIff` | el32/examples/tlpi-dist/inotify/inotify_dtree.c:804-980 | a directory arrives from outside while one rename waits to be handled: in the end the cache equals the tree if and only if none of what arrived lies both at or below the source of the rename and at or below a pathname traversed before the rename is handled |
| `CacheRaces.CreationConvergesIff` | el32/examples/tlpi-dist/inotify/inotify_dtree.c:804-980 | the same for mkdir |
| `CacheRaces.StaleAnnouncementConvergesIff` | el32/examples/tlpi-dist/inotify/inotify_dtree.c:804-980 | mkdir p/n, rmdir p/n, rename src to dst, and a directory arriving at m/l, all before the first event is handled, from any state of a run with no event waiting: in the end the cache equals the tree if and only if nothing that arrived lies both at or below p/n and at or below src |
| `CacheRaces.RaceConverges` | el32/examples/tlpi-dist/inotify/inotify_dtree.c:804-1011 | mkdir p/n, then rename src to dst before the first event is handled: after all events the cache equals the tree if and only if src is neither p/n nor above it and dst is not inside p/n |
| `CacheRaces.CreatedThenGone` | el32/examples/tlpi-dist/inotify/inotify_dtree.c:804-846 | handling the IN_CREATE of a directory that has gone by the time nftw() looks leaves tree, watches and cache exactly as they were before the mkdir |
| `CacheExamples.RenameLosesDirectory` | el32/examples/tlpi-dist/inotify/inotify_dtree.c:804-1011 | the concrete case: mkdir r/x and rename r/x to r/y before the IN_CREATE is handled leave r/y in the tree but not in the cache |
| `CacheExamples.StaleAnnouncementSpoilsRename` | el32/examples/tlpi-dist/inotify/inotify_dtree.c:804-980 | the concrete case: after a rename of directories that are all watched, into a watched one, new directories at the old pathname end up under a wrong pathname in the cache, because the IN_CREATE of a directory that has gone again was still waiting |
| `SplitTraversal.StepInv` | el32/examples/tlpi-dist/inotify/inotify_dtree.c:521-600 | with the traversal taken apart into watching a directory, reading its entries one by one with visits to them in between, and closing it, each of these steps and each mkdir or arrival from outside between them keeps every directory watched, announced, or still to be reached |
| `SplitTraversal.NeverRebuilds` | el32/examples/tlpi-dist/inotify/inotify_dtree.c:780-800 | no event finds its descriptor missing while directories are created and arrive during traversals |
| `SplitTraversal.Converges` | el32/examples/tlpi-dist/inotify/inotify_dtree.c:521-600 | however new directories and arrivals interleave with the steps of traversals, once nothing is left to handle the cache is exactly the tree |
| `WatchCache.Monitor.FindWatch` | el32/examples/tlpi-dist/inotify/inotify_dtree.c:233-243 | the slot of a descriptor, or -1 exactly when it is not cached |
| `WatchCache.Monitor.MarkCacheSlotEmpty` | el32/examples/tlpi-dist/inotify/inotify_dtree.c:278-287 | takes one descriptor out of the cache and leaves all other slots as they were |
| `WatchCache.Monitor.FindEmptyCacheSlot` | el32/examples/tlpi-dist/inotify/inotify_dtree.c:291-314 | an unused slot, growing the array by 200 when there is none, with the cache unchanged |
| `WatchCache.Monitor.AddWatchToCache` | el32/examples/tlpi-dist/inotify/inotify_dtree.c:318-329 | adds one entry, in a slot that was free |
| `WatchCache.Monitor.PathnameToCacheSlot` | el32/examples/tlpi-dist/inotify/inotify_dtree.c:334-344 | a slot holding the pathname, or -1 exactly when no cached path renders to it |
| `WatchCache.Monitor.TraverseTree` | el32/examples/tlpi-dist/inotify/inotify_dtree.c:521-575 | the visit of one directory, on the slots and the kernel's watches, is the step Visit of the state machine |
| `WatchCache.Monitor.WatchSubtree` | el32/examples/tlpi-dist/inotify/inotify_dtree.c:582-614 | watches and caches every directory at or below the given pathname that is still there |
| `WatchCache.Monitor.RewriteCachedPaths` | el32/examples/tlpi-dist/inotify/inotify_dtree.c:623-651 | every string is spliced, and the cache it represents is the renamed one; unused slots stay unused |
| `WatchCache.Monitor.ZapSubtree` | el32/examples/tlpi-dist/inotify/inotify_dtree.c:657-709 | removes watch and entry of every cached directory at or below the path and no other, one IN_IGNORED each; -1 if and only if some watch is already gone |
| `WatchCache.Monitor.Reinitialize` | el32/examples/tlpi-dist/inotify/inotify_dtree.c:719-759 | a new instance without events, and a cache built from the current tree |
| `WatchCache.Monitor.HandleAnnounced` | el32/examples/tlpi-dist/inotify/inotify_dtree.c:804-846 | the creation branch on slots is the creation step of the state machine |
| `WatchCache.Monitor.HandleRenamed` | el32/examples/tlpi-dist/inotify/inotify_dtree.c:950-980 | the rename branch: both events consumed, or a rebuild when the second descriptor is unknown |
| `WatchCache.Monitor.HandleMovedOut` | el32/examples/tlpi-dist/inotify/inotify_dtree.c:981-1005 | the move-out branch: the subtree zapped, or a rebuild when a watch cannot be removed |
| `WatchCache.Monitor.ProcessNextInotifyEvent` | el32/examples/tlpi-dist/inotify/inotify_dtree.c:768-1082 | on any buffer of events the program's branches compute the step Process of the state machine, return the number of events consumed, and return -1 exactly for a hanging IN_MOVED_FROM on the first try |
| `WatchCache.SlotsRewritten` | el32/examples/tlpi-dist/inotify/inotify_dtree.c:638-650 | splicing all strings of a slot array that represents a cache gives one that represents the rewritten cache |
| `WatchCache.SlotCleared` | el32/examples/tlpi-dist/inotify/inotify_dtree.c:278-287 | emptying a slot represents removing its descriptor; no descriptor is ever in two slots |
| `WatchCache.SlotFilled` | el32/examples/tlpi-dist/inotify/inotify_dtree.c:318-329 | filling an unused slot represents adding an entry |
| `CacheSanity.StepSane` | el32/examples/tlpi-dist/inotify/inotify_dtree.c:768-1082 | whatever other processes, the kernel and the program do, with renames, moves and overflows at any moment, the tree stays a tree, events stay well formed, and no descriptor is cached that was never issued |
| `EventLoop.OtherIsStep` | el32/examples/tlpi-dist/inotify/inotify_dtree.c:1188-1206 | what other processes do while events wait in the buffer, any rename, move or overflow of the queue included, is a step of the state machine whose queue is buffer and kernel queue together |
| `EventLoop.Consumed` | el32/examples/tlpi-dist/inotify/inotify_dtree.c:1137-1143 | from any state, in step with the tree or not, one call of processNextInotifyEvent is exactly one event-handling step, a matching pair taken together, and a rebuild discards the rest |
| `EventLoop.TimedRead` | el32/examples/tlpi-dist/inotify/inotify_dtree.c:1163-1217 | the second read for a hanging IN_MOVED_FROM keeps that event first in the buffer, with what has arrived behind it; on a timeout the -1 of read() is added to the count |
| `EventLoop.HandleNext` | el32/examples/tlpi-dist/inotify/inotify_dtree.c:1137-1143 | each handled event is taken off the buffer in order, and a hanging one is left |
| `EventLoop.ProcessInotifyEvents` | el32/examples/tlpi-dist/inotify/inotify_dtree.c:1095-1220 | from every valid kernel and cache, whatever the reads return and whatever other processes do before each event and during the timed read: each event read is handled exactly once and in order, or discarded by a rebuild (an explicit run of the state machine leads to the final state, with as many handling steps as events handled), and the loop ends; it gives up only when the first event does not fit the size of the first read. If all steps of that run are orderly, the convergence invariant is kept too |
| `EventLoop.LeadsInv` | el32/examples/tlpi-dist/inotify/inotify_dtree.c:1095-1220 | a run of orderly steps keeps the convergence invariant |
| `EventLoop.RoomForOne` | el32/examples/tlpi-dist/inotify/inotify_dtree.c:1190-1191 | the rest of the buffer always has room for the event that follows a hanging one |
| `EventLoop.SizeFits` | el32/examples/tlpi-dist/inotify/inotify_dtree.c:802 | an event takes a multiple of 16 bytes, with room for its name and a null byte |
| `BoundedBuffer.Memory.Append` | el32/opdracht.2/IPC32_ipc/baproducer.c:139-167 | the shared memory becomes Appended of it, and a nonzero slot is reported |
| `BoundedBuffer.Memory.Take` | el32/opdracht.2/IPC32_ipc/baconsumer.c:86-105 | the shared memory becomes Taken of it, and the value is the one in the slot read |
| `BoundedBuffer.AppendInSteps` | el32/opdracht.2/IPC32_ipc/baproducer.c:139-167 | the steps of a producer inside the lock amount to append() |
| `BoundedBuffer.TakeInSteps` | el32/opdracht.2/IPC32_ipc/baconsumer.c:86-105 | the steps of a consumer inside the lock amount to take() |
| `BoundedBuffer.StepAccounting` | el32/opdracht.2/IPC32_ipc/baproducer.c:169-187 | every step keeps the books of the three semaphores |
| `BoundedBuffer.StepCounters` | el32/opdracht.2/IPC32_ipc/baproducer.c:139-167 | every step keeps what the holder of the lock knows and how far the shared counters have come |
| `BoundedBuffer.StepContents` | el32/opdracht.2/IPC32_ipc/baproducer.c:139-167 | every step keeps the ring: slots of values not taken hold them, all others are zero |
| `BoundedBuffer.StepInv` | el32/opdracht.2/IPC32_ipc/baproducer.c:169-187 | the whole invariant is kept by every step of every producer and consumer |
| `BoundedBuffer.FirstInFirstOut` | el32/opdracht.2/IPC32_ipc/baconsumer.c:86-125 | for any number of processes and any size, in every run, the k-th value taken is k, append never meets a nonzero slot, and exactly the slots of values not taken are nonzero (up to the wrap of the counters, and for ever if the size divides their range) |
| `BoundedBuffer.OccupiedAreOutToIn` | el32/opdracht.2/IPC32_ipc/baproducer.c:144-161 | with the lock free the nonzero slots are out, ..., in-1 modulo size |
| `BoundedBuffer.SlotsNeverClashIff` | el32/opdracht.2/IPC32_ipc/baproducer.c:153-160 | consecutive appends use distinct slots through all wraps of the 64-bit index exactly when the size divides 2^64 |
| `BoundedBuffer.Overtaken` | el32/opdracht.2/IPC32_ipc/baproducer.c:153-160 | otherwise a run exists in which a value is overwritten before it is taken |
| `BoundedBuffer.InOrderForeverIff` | el32/opdracht.2/IPC32_ipc/baproducer.c:139-167 | values come out in order in every run, for ever, if and only if the size divides 2^64 |
| `BoundedBuffer.SemaphoresAccount` | el32/opdracht.2/IPC32_ipc/baproducer.c:257-260 | in every reachable state e + n + the processes between wait(e) and post(n) + those between wait(n) and post(e) is the size, and at most one process is between wait(s) and post(s) |
| `BoundedBuffer.NoDeadlock` | el32/opdracht.2/IPC32_ipc/baproducer.c:169-187 | with a producer and a consumer about, some process can always go on |
| `SigChild.NoLostWakeup` | el32/examples/tlpi-dist/procexec/multi_SIGCHLD.c:43-48 | in every reachable state a zombie means that SIGCHLD is pending or the handler has a waitpid() to do; numLiveChildren counts unforked, running and zombie children; a suspended parent has a signal pending or a child that will send one; wakeups never outnumber exits |
| `SigChild.EveryRunEnds` | el32/examples/tlpi-dist/procexec/multi_SIGCHLD.c:69-118 | every run has at most 9 n + 3 steps, and one that cannot go on has reached the exit with every child reaped and sigCnt equal to the number of signals delivered in the run, 1 to n (or fork() has failed) |
| `SigChild.CountsDeliveries` | el32/examples/tlpi-dist/procexec/multi_SIGCHLD.c:109-116 | in every state of every run sigCnt, and one more while the handler is at work, is the number of times SIGCHLD has been delivered so far |
| `SigChild.SuspendedIsLive` | el32/examples/tlpi-dist/procexec/multi_SIGCHLD.c:109-113 | the parent is in sigsuspend() only with live children |
| `SigChild.StepProgress` | el32/examples/tlpi-dist/procexec/multi_SIGCHLD.c:69-113 | every step of parent or child uses up some of a bounded measure |
| `SigChild.Parent.SigchldHandler` | el32/examples/tlpi-dist/procexec/multi_SIGCHLD.c:28-57 | the handler reaps at least every child that had exited when it was entered and counts each once |
| `SigChild.Parent.Waitpid` | el32/examples/tlpi-dist/procexec/multi_SIGCHLD.c:43-48 | reaps one zombie if there is one, and reports none only when there is none |
| `SigChild.Parent.SigSuspend` | el32/examples/tlpi-dist/procexec/multi_SIGCHLD.c:109-113 | one wakeup and one run of the handler; the parent never sleeps without a child that will wake it; what the handler reaps is recorded once for the wakeup |
| `SigChild.Parent.Run` | el32/examples/tlpi-dist/procexec/multi_SIGCHLD.c:59-119 | the program ends with every child reaped, however the children are scheduled, unless a fork() fails; sigCnt is the number of returns of sigsuspend(), 1 to n, and the children reaped at each of them add up to n |
| `QueueNotify.EnqueueInOrder` | el32/examples/tlpi-dist/pmsg/mq_notify_via_signal.c:96-98 | the kernel keeps the queue ordered by priority |
| `QueueNotify.EnqueueIsFifo` | el32/examples/tlpi-dist/pmsg/mq_notify_via_signal.c:96-98 | a new message goes behind those of its own priority |
| `QueueNotify.StepOneToken` | el32/examples/tlpi-dist/pmsg/mq_notify_via_signal.c:29-94 | every step keeps exactly one of registered, pending, gotSig, none only between clearing and registering |
| `QueueNotify.StepConserved` | el32/examples/tlpi-dist/pmsg/mq_notify_via_signal.c:96-104 | every step keeps received + queued = sent, per priority and in order |
| `QueueNotify.ReceivesNext` | el32/examples/tlpi-dist/pmsg/mq_notify_via_signal.c:96-104 | in every run, what is received is at that moment the oldest message of the highest priority queued, and the drain receives as long as there is one |
| `QueueNotify.SignalIff` | el32/examples/tlpi-dist/pmsg/mq_notify_via_signal.c:83-92 | in every run, a signal comes exactly when a message arrives at an empty queue with the reader registered, and uses up the registration |
| `QueueNotify.NoMessageStranded` | el32/examples/tlpi-dist/pmsg/mq_notify_via_signal.c:29-108 | in every run mq_notify() never meets a registration; outside the drain a message in the queue means that the signal is pending or gotSig set; nothing is lost, repeated or reordered within a priority |
| `QueueNotify.AllReceived` | el32/examples/tlpi-dist/pmsg/mq_notify_via_signal.c:83-108 | once no more messages are sent, length of the queue + 8 steps later at the latest the queue is empty and everything sent has been received |
| `QueueNotify.Reader.SignalHandler` | el32/examples/tlpi-dist/pmsg/mq_notify_via_signal.c:33-37 | the handler is the delivery step |
| `QueueNotify.Reader.MqNotify` | el32/examples/tlpi-dist/pmsg/mq_notify_via_signal.c:87-92 | registering succeeds |
| `QueueNotify.Reader.Drain` | el32/examples/tlpi-dist/pmsg/mq_notify_via_signal.c:94-104 | receives until EAGAIN, whatever arrives meanwhile |
| `QueueNotify.Reader.Rounds` | el32/examples/tlpi-dist/pmsg/mq_notify_via_signal.c:83-108 | any number of rounds of the loop, with any script of arrivals and deliveries, keeps the invariant and leaves no message stranded; two rounds after the script has ended the queue is empty and everything sent has been received |
| `Rendezvous.StepLocking` | el32/opdracht.2/IPC32_ipc/rendez.c:206-224 | every step keeps the shared flags equal to the set of those that have set theirs |
| `Rendezvous.StepComplete` | el32/opdracht.2/IPC32_ipc/rendez.c:209-228 | every step keeps: nobody has seen the full set before it is full, and exactly one has or will afterwards |
| `Rendezvous.StepTurnstile` | el32/opdracht.2/IPC32_ipc/rendez.c:226-232 | every step keeps the turnstile: closed until the full set was seen, then sem_sync plus those inside it is 2 |
| `Rendezvous.NonePassesEarly` | el32/opdracht.2/IPC32_ipc/rendez.c:206-233 | for any number of participants, in every interleaving, none is at statement_2 before all have set their flag, and exactly one sees the full set once it is full |
| `Rendezvous.EveryoneGetsThrough` | el32/opdracht.2/IPC32_ipc/rendez.c:206-233 | every run has at most 8 n steps; one that cannot go on has taken everyone to statement_2, and leaves sem_sync at 2 and sem_flags at 1 |
| `Rendezvous.FairTurnsSuffice` | el32/opdracht.2/IPC32_ipc/rendez.c:206-233 | whatever the order of the turns, rounds in which everyone gets one take everyone to statement_2, 8 n of them at the latest |
| `Rendezvous.MaskIsBit` | el32/opdracht.2/IPC32_ipc/rendez.c:147-164 | participant i has bit i of the byte |
| `Rendezvous.ByteIsSet` | el32/opdracht.2/IPC32_ipc/rendez.c:147-164 | the byte of flags and the four masks represent a set of participants, and 0x0F is the full set |
| `Rendezvous.Rendez.Step` | el32/opdracht.2/IPC32_ipc/rendez.c:206-232 | on bytes, every step of the four-participant program is the step on sets |
| `Rendezvous.Rendez.Run` | el32/opdracht.2/IPC32_ipc/rendez.c:206-232 | the program on bytes ends where the machine on sets does under the same schedule, and when all are through sem_sync is 2 and the byte 0x0F |
| `Devices.Int8Wraps` | el32/eindopdracht/xbc/xbcdaemon/devices.c:297-298 | bus and address keep their value modulo 256, as an int8_t |
| `Devices.ScannedAreSeen` | el32/eindopdracht/xbc/xbcdaemon/devices.c:263-315 | the temporary list is the sequence of matching devices read, at most four, a handle opened exactly for those not in the table whose open succeeds |
| `Devices.SeenAre` | el32/eindopdracht/xbc/xbcdaemon/devices.c:285-313 | a scan counts all the controllers up to the first descriptor that cannot be read, the end of the list, or the fourth controller |
| `Devices.ScannedHandles` | el32/eindopdracht/xbc/xbcdaemon/devices.c:300-303 | each handle issued during the scan is in the list once |
| `Devices.CleanedSlots` | el32/eindopdracht/xbc/xbcdaemon/devices.c:191-209 | cleaning empties exactly the slots whose controller was not found |
| `Devices.CleanedHandles` | el32/eindopdracht/xbc/xbcdaemon/devices.c:161-189 | a handle taken out of the table is closed, once |
| `Devices.IssuedOnce` | el32/eindopdracht/xbc/xbcdaemon/devices.c:300-303 | libusb issues a handle once |
| `Devices.MissingIff` | el32/eindopdracht/xbc/xbcdaemon/devices.c:161-249 | a table misses no handle exactly when every handle issued is in one slot or closed |
| `DeviceScan.ScanEndsIff` | el32/eindopdracht/xbc/xbcdaemon/devices.c:268-313 | with its 8-bit index, getDevices() comes to the end of its loop if and only if the list has at most 255 entries or, among the first 256, a controller or an unreadable descriptor |
| `DeviceScan.ReadsOnceIff` | el32/eindopdracht/xbc/xbcdaemon/devices.c:268-313 | it ends within 256 reads, and so reads no entry twice, if and only if the list has at most 255 entries, or an unreadable descriptor or the fourth controller is among the first 256 |
| `DeviceScan.SeenDistinctIff` | el32/eindopdracht/xbc/xbcdaemon/devices.c:268-313 | a scan that ends counts no controller twice if and only if it reads its list once |
| `DevicePolls.UpdatedAdds` | el32/eindopdracht/xbc/xbcdaemon/devices.c:211-261 | adding keeps all occupied slots and fills the free ones with the first device opened of each key, one slot a key, as long as there is room; of the handles found it stores no more than there are |
| `DevicePolls.PollLoses` | el32/eindopdracht/xbc/xbcdaemon/devices.c:191-315 | after any poll the handles neither in a slot nor closed are those that were missing before, and: one for each time a controller was opened again, and one for each controller without a free slot |
| `DevicePolls.LosesNoneIff` | el32/eindopdracht/xbc/xbcdaemon/devices.c:211-315 | a poll loses no handle if and only if it opens no controller twice and the slots that stay occupied and the controllers it opens are at most four together |
| `DevicePolls.PollTable` | el32/eindopdracht/xbc/xbcdaemon/devices.c:191-315 | after any poll the table holds only controllers scanned (or stuck on bus 255), a controller found again keeps its slot and handle, and as long as there is room the new ones are held exactly if their open succeeded |
| `DeviceSlots.UpdatedInPlace` | el32/eindopdracht/xbc/xbcdaemon/devices.c:211-261 | adding puts the devices opened, the first of each key, into the free slots from the first slot on, in the order found, as far as there are slots |
| `DeviceSlots.ScannedExactly` | el32/eindopdracht/xbc/xbcdaemon/devices.c:285-313 | the scan lists the controllers seen with exactly these handles: the next one for each that is new and opens, in the order scanned |
| `DeviceSlots.PollPlaces` | el32/eindopdracht/xbc/xbcdaemon/devices.c:191-315 | the whole table after any poll, slot by slot (the slot is the id): what stays keeps its slot, the controllers newly opened stand in the slots that are then free, from the first on, in the order scanned and with the handles given out in that order, and all other slots are empty |
| `DeviceSlots.FailedListEmpties` | el32/eindopdracht/xbc/xbcdaemon/devices.c:274-283 | when the list of devices cannot be had, the poll empties the table, slots on bus 255 apart |
| `DevicePolls.Pigeonhole` | el32/eindopdracht/xbc/xbcdaemon/devices.c:224-248 | with no slot stuck, the slots that stay and the new controllers are together no more than the controllers scanned |
| `DevicePolls.AttachedLosesNone` | el32/eindopdracht/xbc/xbcdaemon/devices.c:191-315 | a poll whose list is read once, with no controller on bus 255, loses no handle |
| `DeviceRuns.PollValid` | el32/eindopdracht/xbc/xbcdaemon/devices.c:317-329 | every such poll keeps: occupied slots distinct, handle NULL if and only if (bus, address) is (-1, -1), every handle issued in one slot or closed once |
| `DeviceRuns.StuckFreeIff` | el32/eindopdracht/xbc/xbcdaemon/devices.c:198-208 | after any poll no slot is stuck if and only if none was and no controller on bus 255 could be opened |
| `DeviceRuns.UnpluggedLeavesIff` | el32/eindopdracht/xbc/xbcdaemon/devices.c:198-208 | any table, after any poll and then one with everything unplugged, is empty if and only if no slot was stuck and no controller counted on bus 255 could be opened: an int8_t holds 255 as -1, the mark of an empty slot |
| `DeviceRuns.StuckForever` | el32/eindopdracht/xbc/xbcdaemon/devices.c:198-208 | a slot on bus 255 is the same after any sequence of polls |
| `DeviceRuns.StuckCost` | el32/eindopdracht/xbc/xbcdaemon/devices.c:224-248 | beside n stuck slots there is room for 4 - n new controllers, and every further one costs a handle |
| `DeviceRuns.EveryHandleClosedOnceIff` | el32/eindopdracht/xbc/xbcdaemon/devices.c:93-117 | over any sequence of polls followed by closeDevices() no handle is closed twice, the handles left open are as many as the polls lost, and every handle issued is closed if and only if no poll lost one |
| `DeviceRuns.EveryHandleClosedOnce` | el32/eindopdracht/xbc/xbcdaemon/devices.c:93-117 | with lists read once and no controller on bus 255 every handle issued is closed exactly once |
| `DeviceRuns.TooManyLoses` | el32/eindopdracht/xbc/xbcdaemon/devices.c:285-313 | the concrete case: of 256 devices the first is a controller; it is opened four times, and three of the handles are lost |
| `DeviceDaemon.Daemon.ListContains` | el32/eindopdracht/xbc/xbcdaemon/devices.c:146-159 | whether some slot has the bus and address |
| `DeviceDaemon.Daemon.ListTryRemove` | el32/eindopdracht/xbc/xbcdaemon/devices.c:162-189 | closes the handle and empties the first slot with that bus and address |
| `DeviceDaemon.Daemon.ListClean` | el32/eindopdracht/xbc/xbcdaemon/devices.c:191-209 | the loop over the array is Cleaned |
| `DeviceDaemon.Daemon.ListTryAdd` | el32/eindopdracht/xbc/xbcdaemon/devices.c:211-249 | a slot changes only if it was free and all before it were occupied, and then holds the device; none does if the device is known or has no handle, or no slot is free; the array becomes Added |
| `DeviceDaemon.Daemon.ScanList` | el32/eindopdracht/xbc/xbcdaemon/devices.c:285-313 | the loop with the wrapping index ends, and finds what a scan of the entries in the order read finds |
| `DeviceDaemon.Daemon.GetDevices` | el32/eindopdracht/xbc/xbcdaemon/devices.c:263-315 | fills the temporary array with the controllers found, then empty slots |
| `DeviceDaemon.Daemon.Poll` | el32/eindopdracht/xbc/xbcdaemon/devices.c:322-328 | one round on the arrays is Polled, keeps the table sound, and leaves in every slot what PlacedBy says |
| `DeviceDaemon.Daemon.Serve` | el32/eindopdracht/xbc/xbcdaemon/devices.c:93-117 | the daemon from start to closeDevices() closes no handle twice, and leaves none open exactly when no poll lost one, which is so when every list is read once and no controller is on bus 255 |
| `LineReader.LineEndIff` | el32/examples/tlpi-dist/lib/read_line_buf.c:71-72 | the end of a line is the one place after the first newline, or the end of the input |
| `LineReader.NothingLost` | el32/examples/tlpi-dist/lib/read_line_buf.c:34-76 | with buffers large enough, the lines returned and the input left make up the whole input |
| `LineReader.ReadLine` | el32/examples/tlpi-dist/lib/read_line.c:29-73 | the first line cut to n - 1 bytes, null-terminated unless nothing was stored before the end of the file, the rest of the buffer untouched; the stream moves past the line; it fails exactly when one of its reads fails other than by EINTR, with that error, and that read is its last; EINVAL for n = 0 or a NULL buffer |
| `LineReader.ReadLineBuf.Fill` | el32/examples/tlpi-dist/lib/read_line_buf.c:54-64 | reads once, and only if the buffer is used up; fails exactly when that read does; loses nothing, whatever count read() delivers |
| `LineReader.ReadLineBuf.Read` | el32/examples/tlpi-dist/lib/read_line_buf.c:34-76 | the first line of buffer and file together, cut to n bytes, however read() splits the input, and no byte beyond it is written to the caller's buffer; it fails exactly when one of its reads fails, EINTR included, with that error, and then loses only part of that line; it does not read while the buffer holds the end of a line |
| `LineReader.ReadAllBuffered` | el32/examples/tlpi-dist/lib/read_line_buf.c:34-76 | any sequence of calls without read errors returns Lines of the input, in spite of chunking and left-over bytes |
| `LineReader.ReadAll` | el32/examples/tlpi-dist/lib/read_line.c:29-73 | readLine() with n + 1 returns the same Lines and leaves the same input |
| `Environ.Process.RemoveAt` | el32/examples/tlpi-dist/proc/setenv.c:43-44 | shifting the array in place removes one entry and keeps the order of the others |
| `Environ.Process.Unsetenv` | el32/examples/tlpi-dist/proc/setenv.c:23-53 | the environment becomes the order-preserving filter without the entries of the name, in the same array; EINVAL changes nothing |
| `Environ.Process.Setenv` | el32/examples/tlpi-dist/proc/setenv.c:55-81 | all outcomes: invalid arguments, kept with overwrite 0, replaced, and removed but not added when malloc() or putenv() fails; errno in each |
| `Environ.Process.Getenv` | el32/examples/tlpi-dist/proc/setenv.c:66 | the value in the first entry that defines the name; none exactly if no entry does |
| `Environ.WithoutMeaning` | el32/examples/tlpi-dist/proc/setenv.c:37-50 | after unsetenv() no entry defines the name and every other lookup is unchanged |
| `Environ.SetMeaning` | el32/examples/tlpi-dist/proc/setenv.c:69-80 | after setenv() there is exactly one definition, looking the name up gives the value, every other lookup is unchanged |
| `Environ.DefinesIff` | el32/examples/tlpi-dist/proc/setenv.c:38 | an entry defines a name when it is the name, =, and a value |
| `Environ.DefinesOne` | el32/examples/tlpi-dist/proc/setenv.c:38 | an entry defines at most one name without = |
| `PathSearch.SplitIff` | el32/examples/tlpi-dist/procexec/execlp.c:142-165 | the prefixes are the one list of colon-free pieces whose join is PATH |
| `PathSearch.UnsetIsDot` | el32/examples/tlpi-dist/procexec/execlp.c:130-133 | an unset or empty PATH is searched as the current directory alone |
| `PathSearch.CandidatesAre` | el32/examples/tlpi-dist/procexec/execlp.c:113-160 | a filename with a slash is tried alone, as it is; otherwise the pathnames are prefix/filename for every prefix, and ./filename for an empty one |
| `PathSearch.TriesIff` | el32/examples/tlpi-dist/procexec/execlp.c:142-179 | the events are those of the search if and only if the shell is called after every execve() that fails with ENOEXEC and never else, the answers come one by one, the pathnames are tried in order and all of them if none succeeds, and nothing is tried after a success |
| `PathSearch.TriedInOrder` | el32/examples/tlpi-dist/procexec/execlp.c:142-179 | the search stops at the first program that runs; if every execve() fails, the pathnames tried are exactly the candidates in order |
| `PathSearch.NextPrefix` | el32/examples/tlpi-dist/procexec/execlp.c:144-165 | the prefix cut out between two colons, and what is left after it, continue the list of candidates |
| `PathSearch.BuildPathname` | el32/examples/tlpi-dist/procexec/execlp.c:150-160 | the pathname is prefix/filename, or ./filename for an empty prefix, and fills its allocation exactly |
| `PathSearch.Kernel.Attempt` | el32/examples/tlpi-dist/procexec/execlp.c:167-174 | one execve(), and the shell exactly after ENOEXEC |
| `PathSearch.Kernel.SearchPath` | el32/examples/tlpi-dist/procexec/execlp.c:128-182 | the loop makes exactly the attempts of a search, and returns EACCES if some attempt gave it, otherwise the error of the last execve() of a candidate |
| `PathSearch.Kernel.Execlp` | el32/examples/tlpi-dist/procexec/execlp.c:113-196 | the attempts are a search of the candidates; it returns only if all fail, with EACCES if some execve() gave that and otherwise with the error of the last execve() |
| `PathSearch.Failure` | el32/examples/tlpi-dist/procexec/execlp.c:169-195 | errno is saved before the shell is tried, so the shell never changes what is returned |
| `Commands.AtoiDecimal` | el32/eindopdracht/xbc/common/commands.c:26-27 | atoi() undoes %d for every number, and a digit that follows shifts the number by one place |
| `Commands.DecimalIff` | el32/eindopdracht/xbc/common/commands.c:26-27 | what %d prints is the one decimal form of the number: no leading zero, a sign exactly for negative numbers |
| `Commands.AtoiReads` | el32/eindopdracht/xbc/common/commands.c:122-137 | atoi() on any text: it skips blanks, takes a sign, and reads as many digits as follow |
| `Commands.ConversionsWrap` | el32/eindopdracht/xbc/common/commands.c:122-137 | the conversions to uint8_t and int16_t drop whole multiples of the range of the type |
| `Commands.RoundTripIff` | el32/eindopdracht/xbc/common/commands.c:115-142 | id and text always arrive; the value arrives if and only if the id has no more characters than the value, or the value is 0 and a 0 follows the first digit of the id |
| `Commands.SmallIdsRoundTrip` | el32/eindopdracht/xbc/common/commands.c:115-142 | with an id below 10 every command arrives unchanged, commas in the text included |
| `Commands.LongIdSpoilsValue` | el32/eindopdracht/xbc/common/commands.c:130-137 | "255,led,1" is read as the value 15 |
| `Commands.MakeCommand` | el32/eindopdracht/xbc/common/commands.c:20-35 | the buffer holds id, text and value, separated by commas and null-terminated, within 50 bytes |
| `Commands.RetrieveCommand` | el32/eindopdracht/xbc/common/commands.c:115-142 | on the reused buffer, with the terminator one place too far, the fields become those of Decoded |
| `CommaPrint.FormIsForm` | el32/opdracht.6/code/clocks.c:28-34 | the digits and separators produced denote n, with a separator exactly before each full group of three digits from the right, and no leading zero or separator |
| `CommaPrint.FormIsUnique` | el32/opdracht.6/code/clocks.c:28-34 | there is only one such string |
| `CommaPrint.DigitsLeft` | el32/opdracht.6/code/clocks.c:28-34 | an unsigned long has at most 20 digits |
| `CommaPrint.CommaPrint` | el32/opdracht.6/code/clocks.c:9-36 | for every n below 2^64 the output has that form, with a comma if the locale has no separator and else with the first character of its separator; it is null-terminated, takes at most 27 of the 30 bytes, and what is before it in the buffer is untouched |

## Left out

- inotify: root directories that are moved or deleted, IN_UNMOUNT, the stop file, commands, logging and the consistency check.
- inotify: a subtree that has been moved out is forgotten by the kernel model, so changes inside it before its watches are removed are not modelled; directories moved in carry no watches of this instance.
- inotify: rmdir or rename in the middle of a traversal; a traversal is one step except in `SplitTraversal`, which admits mkdir and arrivals from outside between its steps.
- inotify: the loss of events by overflow is a step to any tree with IN_Q_OVERFLOW in the queue; of the cache nothing more is claimed until the rebuild.
- inotify: the option that sets the size of the first read above the size of the buffer, errors of nftw() and of inotify_add_watch() other than a directory that has gone.
- inotify: a rename whose two events other events come between in the queue (the kernel model appends both at once).
- CacheTheorems.Converges: leaves out the steps after which it is false: moves and arrivals without the conditions of `CacheLimits.RenameConvergesIff`, `CacheLosses.RenameAwayConvergesIff` and `CacheLimits.MoveInConvergesIff`, and new directories where an announcement overtaken by a move finds them too early (`CacheRaces.ArrivalConvergesIff`; with more than one move waiting that condition is only sufficient). Also left out are moves of watched directories out of an unwatched one, of which the program is not told.
- CacheTheorems.PostUnseenRename: leaves out a target that is watched.
- CacheTheorems.PostMoveOut: leaves out a subtree with watched directories in an unwatched one; nothing tells of its departure.
- CacheLimits.MoveInConvergesIff: does not cover arrivals that an overtaken announcement finds too early; with one rename waiting, and no watched directory of the name, CacheRaces.ArrivalConvergesIff does.
- CacheLimits.RenameConvergesIff: does not cover unwatched directories that land where an overtaken announcement finds them too early.
- CacheLosses.RenameAwayConvergesIff: the same restriction, and the target is not a watched directory.
- CacheRaces.ArrivalConvergesIff: exactly one rename within the tree waits to be handled; with several moves, one may take an entry to a wrong pathname and the next one back.
- CacheRaces.CreationConvergesIff: the same restriction.
- EventLoop.ProcessInotifyEvents: other processes act before each event is handled and during the timed read, with a budget of actions (the loop's end is proved for every budget), not in the middle of one call of processNextInotifyEvent.
- EventLoop.TimedRead: an alarm that goes off before read() is entered, after which the program would block.
- Bounded buffer: resetAll(), the menu, and the single-producer pair of programs.
- BoundedBuffer.FirstInFirstOut: the clause about nonzero slots stops at the wrap of the counters, because there the value itself becomes 0.
- SIGCHLD: errors of sigsuspend() and waitpid() other than having no child; children stop only by exiting.
- QueueNotify.Reader.Rounds: the program's loop is endless, so the method runs any given number of rounds.
- Message queue: a full queue that makes senders wait, and errors of mq_receive() other than EAGAIN.
- Rendezvous: creation and removal of the semaphores and the shared memory; Rendezvous.Rendez covers the four participants the masks allow.
- Devices: claiming the interface, getDeviceHandle(), the mutex and what other threads see between closing a handle and clearing its slot.
- Devices: a list that getDevices() reads for ever (`DeviceScan.ScanEndsIff`); a controller opened again in a later round of the same list is taken to open again or fail as it did before, and the list does not change during a scan.
- execlp: building the argument and environment vectors; running the shell is an event, and memory allocation does not fail.
- setenv: the array is never NULL, and names looked up have no =.
- Commands: the queue itself; numbers too long for atoi() in messages not made by makeCommand.
- commaprint: the static buffer is a parameter, and so is the locale's separator, which the program settles on in its first call.
- Everything else in the repository: the remaining TLPI demonstrations, socket and web programs, bit-flag parsers, ACL tools, `lamport.c` (its functions are empty), `dekker_p0.c`, `dekker_p1.c`, `semseq.c`, `thread_incr_psem.c` and `fifo_seqnum_server.c`, which would add only easy members.
