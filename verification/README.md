# Verified core of the media server

MediaTomb watches directories with inotify, streams transcoded media through a ring
buffer, keeps a numbered list of autoscan directories, rewrites an item's resource list
before it is rendered, and completes its configuration tree with default values. This
project models those five components in Dafny and proves what they keep over every run.

Each component has a *specification* (datatypes and functions on values, with the lemmas
about them) and, because the program works by updating objects, a *class* whose methods
carry the code out on its fields and are proved to compute the specification.

| files | component |
|---|---|
| `InotifyKernel`, `WatchTable`, `WatchSweep`, `WatchInvariant`, `WatchEffects`, `WatchLinks`, `WatchCleanup`, `WatchMoves`, `WatchRecheck`, `TreeSteps`, `WatchKin`, `WatchPersistence`, `PersistentRuns`, `WatchEvents`, `WatchSteps`, `WatchRuns`, `SkipRuns`, `NestedRun`, `AutoscanInotify` | the inotify watch manager and the kernel it talks to |
| `RingProtocol`, `RingSteps`, `RingSafety`, `RingIndices`, `RingWrap`, `RingGate`, `RingRuns`, `BufferedIOHandler`, `BufferConfig` | the ring buffer with its two threads, and the sizes the configuration lets through |
| `SlotTable`, `AutoscanList` | the list that gives autoscan directories their scan IDs |
| `ResourceList` | insertion of transcoded resources and rendering of the list |
| `ConfigOptions` | lookup of an option that creates what it does not find |

`Wrappers` holds the option type they share. `dafny verify dfyconfig.toml` checks everything.

## The watch manager

A state is the kernel (directory tree, live descriptors, event queue) and the manager's
table. A run interleaves, in any order, arbitrary changes of the tree (renames included),
monitor requests, unmonitor requests and the handling of the event at the head of the queue.

Assumptions on the kernel, from inotify(7): adding a watch for a directory that is watched
returns its descriptor, otherwise a descriptor never used before; removing a live watch,
or deleting its directory, queues IN_IGNORED; removing a dead one does nothing; the queue
does not overflow; directories on one path have different descriptors. Further
assumptions: adding a watch succeeds on every directory that exists; the tree does not
change while one event or request is handled; an event carries one kind. Paths are
sequences of names, so the trailing slashes and the string prefixes of the program are
not modelled. An autoscan directory's location does not change, which
`AutoscanDirectory.SetLocation` establishes for the code.

What the code does that one would not expect:

- Removal with `removeUnordered` inside a loop that then advances skips the element that
  was swapped in. Two loops do this.
  - For the move watches, `WatchSweep.SweepComplete` gives the exact condition under which
    all those for a descriptor go. `SkipRuns.MoveWatchOutlives` is a run, with two requests
    for one location and another between them, after which one is left for a descriptor
    that is gone.
  - For the watches on missing paths, `WatchRecheck.RecheckReaches` says exactly which ones
    a pass looks at: each recheck costs one at the end of the list, unless the one before it
    put a watch back. Of several paths that keep waiting on one directory the last is never
    looked at (`WatchRecheck.LastOfSeveralMissed`). `SkipRuns.SecondOfTwoForgotten` is a run
    in which a persistent directory is created, its event handled, and nothing watches it,
    because another one was waiting in the same entry.
- A descendant loses its descriptor even when another location needs it;
  `WatchCleanup.IgnoredCleanup` says exactly which descriptors are lost.
  `NestedRun.DescendantTakenFromAnother` is a run, with `mv /m/p /q` and `rmdir /m`, in which
  the start point of another location is lost that way, and `NestedRun.ReleaseForgets` one in
  which giving up a location makes a persistent one inside it be forgotten.
- When the whole of a missing path has come to exist, the directory there may already hold
  a regular watch for the location, as a descendant that was renamed to it does. No start
  point is installed then: `WatchCleanup.RecheckSelectsDeepest` gives the exact condition,
  and `WatchRuns.RenamesForget` a run, with `mv /m /z` and `mv /z/x /m`, after which a
  persistent directory that exists is watched by nobody.
- Apart from these, persistent directories are never forgotten. Take any history without
  renames: directories created and deleted, any directories requested and given up, nested or
  not, with whatever flags, and events handled in order. A location is *covered* if a live
  entry watches it, or waits for it above it, or a deleted entry will still be told of its
  deletion; once the queue is drained that is the same as being watched, or waited for at its
  deepest existing ancestor (`WatchPersistence.CoveredIsWatched`).
  - `PersistentRuns.CoveredExactly`: from its request on, a location held by persistent
    directories stays covered exactly as long as every event is noticed. When an event is
    noticed can be told before it is handled (`WatchPersistence.HandleCoversExactly`): another
    guard is left, or the pass over the event's entry reaches a watch that waits for the
    location, or the event is the deletion of the location's own directory.
  - `PersistentRuns.NeverForgotten`: so it is enough that every recheck of an entry that waits
    for the location reaches such a watch, and that no recursive location around it is ever
    given up. An entry that waits for no other location always reaches it.
    `SkipRuns.SecondOfTwoForgotten` and `NestedRun.ReleaseForgets` are histories that fail one
    of the two conditions and meet everything else.
  - `PersistentRuns.AloneNeverForgotten`: a location that no other is requested besides is
    never forgotten, with no condition on the events at all.
- A directory is picked up when it is created below a recursive location and not hidden from
  it. One that is moved in, or closed after writing, is picked up whatever the flags
  (`WatchEvents.NewDirectoryWatched`).
- The test `if (IN_MOVE_SELF)` at `src/autoscan_inotify.cc:298` is a constant, so the
  watch is removed for all three event kinds. The model does so.

## The ring buffer

The buffer thread and the reading thread are state machines over one shared state; a step
is a critical section, a byte stored by the underlying handler while the lock is released,
or a byte copied by the reader while the lock is released. `cond->signal` wakes a sleeping
thread, and a sleeping thread may wake without it. Runs contain every interleaving of
these steps, with seeks, end of file, read errors, CHECK_SOCKET and shutdown. `seek` is
modelled as if `seekEnabled` were set; the constructor leaves it off, which only removes
steps. The buffer is at most INT_MAX bytes, as every configured one is, and `size_t` has
64 bits.

What the code does that one would not expect:

- A SEEK_SET of distance 0 on a full ring empties it, and a backward SEEK_SET takes the
  in-buffer path. `RingSafety.SkipLandsExactly` says exactly when the ring then holds the
  stream from the new position on: for every forward distance, for 0 unless the ring is
  full, and for a backward distance that neither underruns the buffer nor reaches `b`, if
  the bytes gone back over are still there. They always are while the unread bytes do not
  wrap (`RingSafety.BehindIsIntact`), and in every run when they wrap and the new position
  stays a chunk away from `b` (`RingWrap.BackwardSeekLands`). Closer to `b` the underlying
  handler may have stored there: `RingRuns.BackwardSeekFindsOthers`. Runs go on with every
  seek that is right in this sense (`SoundSeek`); that the filled region stays off the unread
  bytes holds for all other seeks too, except those that underrun the buffer
  (`RingIndices.FillAvoidsUnread`).
- An underlying seek that throws closes the initial-fill gate without emptying the ring.
  The FIFO and overlap theorems hold all the same. That the ring is never full behind a
  closed gate needs it not to throw on a full ring (`ThrowsGently`);
  `RingGate.TopKeepsGate` shows that this is exact, and `RingRuns.ThrowDeadlocksInARun` is
  a run in which both threads end up asleep. That a closed gate means a fill below the
  initial one also fails when a backward in-buffer seek adds to the fill:
  `RingGate.TopKeepsBelow` has the exact condition.
- The sign test for the fill size looks at the loop counter (`src/config_manager.cc:3001`).
  The comparison in `size_t` makes up for it: `BufferConfig.AcceptedSizes`.

## The other components

- `remove(id)` on a hole dereferences nil (`src/autoscan.cc:203-204`):
  `SlotTable.CrashesExactlyAtAHole` says which histories crash, and
  `SlotTable.RemovedTwiceCrashes` is one from the empty list.
- `addList` shares the directories between two lists. The list that takes them, up to the
  first whose location it had before, stays numbered; the other one does exactly if every
  shared directory has the same slot in both (`AutoscanLists.AutoscanList.AddList`).
- A copy made by `removeIfSubdir` shares the original's timer parameter, which ends up with
  the invalid ID although the copy itself keeps the old scan ID.
- A transcoded resource put in front becomes resource 0, so later profiles find no fourcc:
  `ResourceList.FourccForgotten` says exactly which profiles change their answer, and
  `ResourceList.SecondProfileDropped` gives an example.
- `getOption` with an axis other than `attribute` on a path that does not exist creates the
  elements and then throws; `setText` throws on an element that has element children:
  `ConfigOptions.WhenGetOptionThrows`, `ConfigOptions.ThrowingCallKeepsTree`. A default with
  white space at an end is returned as it is once and trimmed from then on:
  `ConfigOptions.RepeatsExactly`.

Transcoding and album art are compiled in. Directories in the autoscan list have a location.

## Model

| member | source | states |
|---|---|---|
| InotifyKernel.AddWatchKeeps | src/mt_inotify.cc:111-127 | an existing directory gets its live descriptor, old or never used before; a missing one gets -1 and nothing changes; every live descriptor stays live |
| InotifyKernel.RemoveWatchKeeps | src/mt_inotify.cc:129-135 | the descriptor is dead, its IN_IGNORED queued if it was live, no other descriptor changes |
| InotifyKernel.RemoveWatchesKeeps | src/autoscan_inotify.cc:903-907 | of a list of removals: exactly listed descriptors die and each that was live is announced |
| WatchTable.Deepest | src/autoscan_inotify.cc:430-449 | the longest prefix of the path that exists |
| WatchTable.FirstIndex | src/autoscan_inotify.cc:717-737 | the first watch that matches, and that none before it does |
| WatchTable.BestMatch | src/autoscan_inotify.cc:739-776 | a regular watch whose location is a prefix of the path, the longest such; none exactly when there is none |
| WatchTable.Ancestors | src/autoscan_inotify.cc:785-818 | the entries above a descriptor, without the descriptor itself |
| WatchSweep.RemoveUnorderedContents | src/zmmf/array.cc:111-119 | one occurrence of the element goes and nothing else |
| WatchSweep.SweepKeepsPassed | src/autoscan_inotify.cc:799-814 | what the removal loop has passed stays in place |
| WatchSweep.SweepDropsOnlyTarget | src/autoscan_inotify.cc:799-814 | only move watches for the descriptor are dropped, counted with multiplicity |
| WatchSweep.SweepRegular | src/autoscan_inotify.cc:799-814 | at most one regular watch per location remains so |
| WatchSweep.SweepNeverEmpties | src/autoscan_inotify.cc:808-811 | a list that is more than one matching watch never becomes empty |
| WatchSweep.SweepComplete | src/autoscan_inotify.cc:799-814 | with m matches, all go if and only if none is among the last m - 1 elements |
| WatchSweep.SweepOnce | src/autoscan_inotify.cc:799-814 | a single match always goes |
| WatchSweep.SweepSkipsSwappedIn | src/autoscan_inotify.cc:811 | a list on which the loop leaves a match behind |
| WatchInvariant.Reparent | src/autoscan_inotify.cc:382-418 | a parent link may be rewritten to a freshly rewritten ancestor without making a cycle |
| WatchInvariant.WatchPathWalks | src/autoscan_inotify.cc:365-380 | the root-first rewriting of all proper ancestors keeps the links acyclic, the stale ones included |
| WatchInvariant.MonitorExistingInv | src/autoscan_inotify.cc:627-671 | monitorDirectory keeps the invariant: coherent with the kernel, entries non-empty, one regular watch per location, links acyclic |
| WatchInvariant.RecheckNonexistingMonitorInv | src/autoscan_inotify.cc:427-466 | recheckNonexistingMonitor keeps the invariant |
| WatchInvariant.CheckMovesInv | src/autoscan_inotify.cc:468-516 | checkMoveWatches keeps the invariant, after any number of iterations |
| WatchInvariant.ForgetInv | src/autoscan_inotify.cc:325-330 | the clean-up for IN_IGNORED restores the invariant after the event has left the queue |
| WatchInvariant.UnmonitorDirectoryInv | src/autoscan_inotify.cc:674-715 | unmonitorDirectory keeps the invariant |
| WatchInvariant.HandleEventInv | src/autoscan_inotify.cc:214-331 | handling any event on any queue keeps the invariant |
| WatchInvariant.StepInv | src/autoscan_inotify.cc:155-331 | every step of a run keeps the invariant |
| WatchInvariant.RunsKeepInv | src/autoscan_inotify.cc:155-331 | every state of every run meets the invariant |
| WatchInvariant.TableMatchesKernel | src/autoscan_inotify.cc:219-331 | in every run a descriptor in the table is live or its IN_IGNORED is queued, and live once the queue is drained; its entry is non-empty with one regular watch per location |
| WatchInvariant.UpwardWalkEnds | src/autoscan_inotify.cc:778-819 | in every run the walk up the parent links meets each entry once, never returns to its start, and ends |
| WatchInvariant.AncestorsClose | src/autoscan_inotify.cc:785-818 | the ancestors are distinct and closed under parent links |
| WatchEffects.WatchPathAt | src/autoscan_inotify.cc:365-380 | entry by entry, what the move watches of a new start point change |
| WatchEffects.MonitorExistingAt | src/autoscan_inotify.cc:615-672 | entry by entry, what monitorDirectory changes: paths kept, move watches on the proper ancestors only, the new watch on the directory itself |
| WatchLinks.WatchPathLinks | src/autoscan_inotify.cc:365-418 | setting the move watches links each entry to the one above it and changes no other link |
| WatchLinks.MonitorLinksExactly | src/autoscan_inotify.cc:619-671 | the link of the directory monitored: a known one is never replaced, an unknown one only by the directory above a start point; no other link changes but those above a start point |
| WatchLinks.StartPointLinked | src/autoscan_inotify.cc:627-651 | the ancestors of a new start point are exactly the entries of all directories above it, from the nearest to the root |
| WatchCleanup.DescendantsExactly | src/autoscan_inotify.cc:883-909 | the descendants given up with an entry are those registered with any of its watches, under that watch's id |
| WatchCleanup.IgnoredCleanup | src/autoscan_inotify.cc:325-330 | the descriptor alone leaves the table; exactly the registered descendants and the ancestors whose sole watch was a move watch for it lose their descriptors; entries off the ancestor chain are untouched; on the chain only its move watches go, all of them if and only if none is among the last m - 1 |
| WatchCleanup.OneMoveWatchGoes | src/autoscan_inotify.cc:778-819 | an ancestor that held one move watch is rid of it, or held nothing else and is let go |
| WatchCleanup.UnmonitorAt | src/autoscan_inotify.cc:674-715 | what unmonitorDirectory does to each entry |
| WatchCleanup.MonitorThenUnmonitor | src/autoscan_inotify.cc:568-613 | for any finite tree and any order of traversal, recursive monitor then unmonitor leaves no live entry with a regular watch for the location if and only if every live entry that held one before watched a directory of the tree |
| WatchCleanup.UnmonitorDropsOnlyLocation | src/autoscan_inotify.cc:568-613 | the traversal drops no move watch, no missing-path watch and no watch of another location, nor the descriptor under one |
| WatchCleanup.RecheckSelectsDeepest | src/autoscan_inotify.cc:427-466 | the longest existing prefix is watched by a live entry; if it is part of the path only, with a missing-path watch and no new start point anywhere; if it is the whole path, with a regular watch for the location, which is a start point if and only if the entry had no regular watch for it or had one that was |
| WatchCleanup.MonitorStarts | src/autoscan_inotify.cc:639-658 | monitoring a start point adds the start-point watch if and only if the entry has no regular watch for the location, and nothing otherwise |
| WatchCleanup.RecheckNeverGrows | src/autoscan_inotify.cc:518-536 | an iteration never lengthens the list it runs over, so the loop ends |
| WatchRecheck.RecheckReaches | src/autoscan_inotify.cc:518-536 | a pass looks at exactly the first m watches of the list, m told from the list and the tree beforehand, and then at most at one, which is what the last recheck has put back: the same missing path, the start point, or the move watch for the directory |
| WatchRecheck.LookedExactly | src/autoscan_inotify.cc:518-536 | for every location, the pass looks at a watch that waits for it if and only if one of the first m watches does |
| WatchRecheck.RecheckLeaves | src/autoscan_inotify.cc:538-566 | a watch stays in the list unless the pass looks at a missing-path watch with its own path array |
| WatchRecheck.FirstMissingReached | src/autoscan_inotify.cc:523-535 | the first missing-path watch of an entry is always looked at |
| WatchRecheck.LastOfSeveralMissed | src/autoscan_inotify.cc:523-535 | of several paths whose rechecks all put a watch back, the pass reaches all but the last |
| TreeSteps.TreeStepIsEnvironment | src/autoscan_inotify.cc:219-331 | creation and deletion of directories are steps of the general runs |
| WatchKin.MonitorKin | src/autoscan_inotify.cc:615-672 | monitoring a directory keeps watch ids and path arrays unique and registers the directory below the location it belongs to; as long as no recursive location around a chosen one is given up, a registered descendant outlives its location's descriptor only if the chosen location is not at or below it |
| WatchKin.MonitorNumbers | src/autoscan_inotify.cc:655-671 | a directory that gains a watch is registered as a descendant if and only if it is no start point and the start point's entry has a regular watch for the location |
| WatchKin.ForgetMourned | src/autoscan_inotify.cc:883-911 | the descriptors given up as descendants of a dead entry are of no use to the chosen location, nor are their own descendants |
| WatchPersistence.RecheckCovers | src/autoscan_inotify.cc:427-466 | rechecking one missing path leaves its location covered, whatever was known before |
| WatchPersistence.RecheckAllCovers | src/autoscan_inotify.cc:518-536 | after a pass over an entry a location is covered if and only if it was covered before or a watch that waits for it is within reach |
| WatchPersistence.MonitorRequestCovers | src/autoscan_inotify.cc:185-209 | a request for a persistent directory covers its location, and any request keeps every location covered |
| WatchPersistence.UnmonitorRequestCovers | src/autoscan_inotify.cc:160-183 | giving up a location ends the coverage of no other |
| WatchPersistence.HandleCoversExactly | src/autoscan_inotify.cc:219-331 | after any event a location held by persistent directories is covered if and only if a guard is left that neither waited for this event nor is taken along by the clean-up, or the pass reaches a watch for the location, or the location's own directory was deleted |
| WatchPersistence.ReachedIsNoticed | src/autoscan_inotify.cc:219-331 | if no recursive location around it was given up, a covered location stays covered whenever a recheck of an entry that waits for it reaches a watch that does |
| WatchPersistence.AloneIsReached | src/autoscan_inotify.cc:518-536 | an entry that waits for no other location always reaches it |
| WatchPersistence.CoveredIsWatched | src/autoscan_inotify.cc:427-466 | with the queue drained a location is covered if and only if its directory carries the live start-point watch, or its deepest existing ancestor's live entry a missing-path watch for it |
| PersistentRuns.HistoryFits | src/autoscan_inotify.cc:155-331 | every state of every history without renames meets the invariants, and the start point of a location is that of a persistent directory once all others requested for it have been given up |
| PersistentRuns.CoveredExactly | src/autoscan_inotify.cc:155-331 | for every history and every location, from its request on while it is held by persistent directories, it is covered throughout if and only if every event handled is noticed |
| PersistentRuns.NeverForgotten | src/autoscan_inotify.cc:155-331 | in every history whose rechecks reach the location and in which no recursive location around it is given up, it is watched or waited for whenever the queue is drained |
| PersistentRuns.AloneNeverForgotten | src/autoscan_inotify.cc:155-331 | so it is in every history that requests no other location, without conditions on the events |
| WatchEvents.TreeIsWatched | src/autoscan_inotify.cc:568-613 | monitoring a tree gives the directory and every one inside it a live entry with a regular watch for the location |
| WatchEvents.TreeOnlyNew | src/autoscan_inotify.cc:568-613 | monitoring a tree gives no directory outside it a regular watch |
| WatchEvents.RequestWatches | src/autoscan_inotify.cc:185-209 | a request watches every directory it is about for the location, and the location itself as a start point unless it had a regular watch for it before |
| WatchEvents.ReleaseUnwatches | src/autoscan_inotify.cc:160-183 | a release leaves none of the directories it is about, the ones inside a recursive location included, with a live regular watch for the location |
| WatchEvents.ComingHandled | src/autoscan_inotify.cc:255-322 | an event that is not about the watched directory itself leads to a recheck if a directory was created or moved in, and to the monitoring of the tree it brings, and to nothing else |
| WatchEvents.NewDirectoryWatched | src/autoscan_inotify.cc:255-322 | a directory created below a recursive location and not hidden from it, moved in, or closed after writing is watched afterwards, with every directory inside it, for the location its path belongs to; in all other cases no regular watch is added but by the recheck |
| WatchEvents.MovedGivenUp | src/autoscan_inotify.cc:487-512 | a descriptor named by a move watch is removed and announced; its path is settled again, watched or waited for at its deepest existing directory, if its first start point is persistent, and otherwise nothing else changes |
| WatchEvents.AllMovesReleased | src/autoscan_inotify.cc:468-516 | every descriptor with an entry that the loop comes across in a move watch is gone for good and announced when the loop is done |
| WatchEvents.SelfGivenUp | src/autoscan_inotify.cc:251-308 | when a watched directory is moved, deleted or unmounted, its descriptor is removed and announced if a location's watch is found, its path settled again for a persistent one with a start point, and otherwise nothing happens but the rechecks |
| WatchEvents.UnknownReleased | src/autoscan_inotify.cc:229-234 | an event for a descriptor without an entry asks for its removal and changes nothing else |
| WatchRuns.RenamesForget | src/autoscan_inotify.cc:255-308 | a run with two renames in which a persistent directory that exists throughout first has a watch but no start point and, once the queue is drained, is in nobody's list |
| SkipRuns.SecondOfTwoForgotten | src/autoscan_inotify.cc:518-566 | a history in which two persistent directories wait in one entry, the second is created, its event handled, and nothing watches it |
| SkipRuns.MoveWatchOutlives | src/autoscan_inotify.cc:799-814 | a run after which the root holds a move watch for a descriptor that is neither live nor in the table |
| NestedRun.DescendantTakenFromAnother | src/autoscan_inotify.cc:883-911 | a run with a rename and a deletion in which handling IN_IGNORED for one location takes the descriptor of another one's start point, which exists and is no ancestor |
| NestedRun.ReleaseForgets | src/autoscan_inotify.cc:883-911 | a history in which every recheck reaches the location, but giving up another one takes the descriptor under the watch that waits for it, and nothing is left in the table |
| WatchMoves.RunsKeepPlain | src/autoscan_inotify.cc:448-460 | in every run no missing-path watch is a start point |
| WatchMoves.MonitorWeight | src/autoscan_inotify.cc:615-672 | monitoring one directory raises by at most one the sum of a list's length and the missing-path watches in all other entries |
| WatchMoves.RecheckFromWeight | src/autoscan_inotify.cc:518-536 | rechecking an entry with several watches does not raise it |
| WatchMoves.GiveUpWeight | src/autoscan_inotify.cc:487-512 | giving up a moved descriptor raises it by at most one |
| WatchMoves.CheckMoveWeight | src/autoscan_inotify.cc:473-515 | an iteration of checkMoveWatches does not raise it, or has passed the end of the list |
| WatchMoves.CheckMovesEnds | src/autoscan_inotify.cc:468-516 | in every run the loop, whose body can extend the list it runs over, ends within as many iterations as the entry has watches and the others have missing-path watches |
| AutoscanManager.AutoscanInotify.AddWatch | src/mt_inotify.cc:111-127 | the kernel step, keeping the invariant |
| AutoscanManager.AutoscanInotify.RemoveWatch | src/mt_inotify.cc:129-135 | the kernel step, keeping the invariant |
| AutoscanManager.AutoscanInotify.GetAppropriateAutoscan | src/autoscan_inotify.cc:717-737 | the first regular watch for the location |
| AutoscanManager.AutoscanInotify.GetAppropriateAutoscanForPath | src/autoscan_inotify.cc:739-776 | the loop computes the best match |
| AutoscanManager.AutoscanInotify.GetStartPoint | src/autoscan_inotify.cc:851-868 | the first start-point watch |
| AutoscanManager.AutoscanInotify.RemoveFromWdObj | src/autoscan_inotify.cc:821-838 | the watch is dropped or, as the last one, its descriptor removed |
| AutoscanManager.AutoscanInotify.AddMoveWatch | src/autoscan_inotify.cc:382-418 | new state as specified by WatchTable.AddMoveWatch |
| AutoscanManager.AutoscanInotify.WatchPathForMoves | src/autoscan_inotify.cc:365-380 | the loop computes WatchTable.WatchPathForMoves |
| AutoscanManager.AutoscanInotify.SweepMoves | src/autoscan_inotify.cc:797-815 | the removal loop on one entry, the last watch never taken out |
| AutoscanManager.AutoscanInotify.RemoveWatchMoves | src/autoscan_inotify.cc:778-819 | the upward walk terminates and sweeps exactly the ancestors |
| AutoscanManager.AutoscanInotify.RemoveDescendants | src/autoscan_inotify.cc:883-911 | the two loops request the removal of every registered descendant, in order |
| AutoscanManager.AutoscanInotify.AddDescendant | src/autoscan_inotify.cc:870-881 | the descriptor is registered with the start point's watch for the location, if there is one |
| AutoscanManager.AutoscanInotify.MonitorDirectory | src/autoscan_inotify.cc:615-672 | new state as specified, the recursion through monitorNonexisting terminating; the invariant is kept |
| AutoscanManager.AutoscanInotify.InstallWatch | src/autoscan_inotify.cc:633-669 | entry, watch and descendant registration as specified |
| AutoscanManager.AutoscanInotify.MonitorNonexisting | src/autoscan_inotify.cc:420-425 | new state as specified |
| AutoscanManager.AutoscanInotify.RecheckNonexistingMonitor | src/autoscan_inotify.cc:427-466 | the loop from the longest prefix down computes the specified state |
| AutoscanManager.AutoscanInotify.RemoveNonexistingMonitor | src/autoscan_inotify.cc:538-566 | the watch with that path array is dropped, or its descriptor removed |
| AutoscanManager.AutoscanInotify.RecheckNonexistingMonitors | src/autoscan_inotify.cc:518-536 | the loop over the changing list terminates and computes the specified state |
| AutoscanManager.AutoscanInotify.CheckMoveWatches | src/autoscan_inotify.cc:468-516 | the loop terminates with its index past the end of the list, in the specified state |
| AutoscanManager.AutoscanInotify.UnmonitorDirectory | src/autoscan_inotify.cc:674-715 | new state as specified |
| AutoscanManager.AutoscanInotify.MonitorRecursive | src/autoscan_inotify.cc:568-613 | whatever order the directories are read in, the traversal terminates, visits exactly the tree, and computes the specified state |
| AutoscanManager.AutoscanInotify.UnmonitorRecursive | src/autoscan_inotify.cc:568-613 | the unmonitor traversal terminates, visits exactly the tree, and computes the specified state |
| AutoscanManager.AutoscanInotify.HandleEvent | src/autoscan_inotify.cc:214-331 | one event, handled in place, is WatchTable.HandleEvent with every directory visited lying below the event's path, and keeps the invariant |
| AutoscanManager.AutoscanInotify.TakeMonitorRequest | src/autoscan_inotify.cc:185-209 | the request, carried out in place, is a step of the general runs and a request of the histories of PersistentRuns, and the invariants are kept |
| AutoscanManager.AutoscanInotify.TakeUnmonitorRequest | src/autoscan_inotify.cc:160-183 | the request, carried out in place, is a step of the general runs and a release of the histories of PersistentRuns, and the invariants are kept; whether the release is one that NeverForgotten allows is left to the caller |
| AutoscanManager.AutoscanInotify.TakeEvent | src/autoscan_inotify.cc:214-331 | the event, handled in place, is a step of the general runs and of the histories of PersistentRuns, and the invariants are kept; whether its recheck reaches a location, as NeverForgotten asks, is left to the caller |
| RingSafety.AppendContents | src/buffered_io_handler.cc:171-181 | committing bytes at b appends them to the unread ones, wherever the ring wraps |
| RingSafety.AdvanceContents | src/io_handler_buffer_helper.cc:142-152 | moving a drops as many bytes from the front; the indices meet exactly when the ring is empty |
| RingSafety.StoreKeepsContents | src/buffered_io_handler.cc:167-170 | a store into the chunk changes no unread byte |
| RingSafety.WaitsExactlyWhenFull | src/buffered_io_handler.cc:160-164 | there is nothing to write exactly when the ring is full; otherwise the chunk lies inside the buffer and off the unread bytes |
| RingSafety.SkipIsReadAndDiscard | src/buffered_io_handler.cc:117-128 | an in-buffer seek is a read of that many bytes and a reset of the emptied ring |
| RingSafety.SkipDiscards | src/buffered_io_handler.cc:117-128 | the remaining bytes are those from the distance on, for every wrap position and the whole of a full ring |
| RingSafety.SkipLandsExactly | src/buffered_io_handler.cc:113-128 | after an in-buffer seek the ring holds the stream from the new position on if and only if the distance is forward, or 0 on a ring that is not full, or backward without underrun or reaching b over bytes that are still there |
| RingSafety.SkipReturns | src/buffered_io_handler.cc:119-122 | going back over intact bytes puts them in front of the unread ones |
| RingSafety.BehindIsIntact | src/buffered_io_handler.cc:119-122 | while the unread bytes do not wrap, every backward distance inside the buffer goes over intact bytes |
| RingWrap.FarIsIntact | src/buffered_io_handler.cc:119-122 | when they wrap, a backward distance that stays a chunk away from b does |
| RingWrap.RunsKeepWrap | src/buffered_io_handler.cc:78-212 | in every state of every interleaving the bytes from a chunk past b up to a are the ones last read |
| RingWrap.BackwardSeekLands | src/buffered_io_handler.cc:113-128 | in every run a pending backward seek lands if it stays inside the buffer and, when the unread bytes wrap, a chunk away from b |
| RingSafety.SkipKeepsEnd | src/buffered_io_handler.cc:113-128 | the indices alone: they stay in range with posRead + fill the same if and only if the distance is forward (not 0 on a full ring) or backward without underrun or reaching b |
| RingSafety.RelSeekExact | src/buffered_io_handler.cc:113-115 | the distance computed in int is the one asked for if and only if that one fits an int |
| RingSafety.SeekLands | src/buffered_io_handler.cc:102-134 | a seek into the unread bytes drops exactly those before it, moves posRead by the distance and keeps the end of the ring |
| RingSafety.ZeroSeekEmptiesFullRing | src/buffered_io_handler.cc:119-127 | distance 0 empties every full ring |
| RingSafety.BackwardSeekUnderruns | src/buffered_io_handler.cc:119-122 | a distance before the start of the buffer leaves the index outside it |
| RingSafety.ReadTakes | src/io_handler_buffer_helper.cc:116-130 | the two copies together take what is asked for and there, within the buffer |
| RingSafety.CommitKeeps | src/buffered_io_handler.cc:170-211 | the section after the underlying read keeps the invariant, for every result |
| RingSafety.TopKeeps | src/buffered_io_handler.cc:99-167 | the section before the underlying read keeps the invariant, with every seek that lands, whether or not the underlying seek throws |
| RingSafety.EndReadKeeps | src/io_handler_buffer_helper.cc:132-153 | the end of a read keeps the invariant, with the buffer thread filling meanwhile |
| RingSafety.RunsKeepRing | src/buffered_io_handler.cc:78-212 | every state of every interleaving meets the invariant |
| RingSafety.RingIsFifo | src/buffered_io_handler.cc:99-181 | in every run the stream up to the read position followed by the ring's contents is what the underlying handler delivered since it was last repositioned; a read in progress holds the front |
| RingIndices.RunsKeepIndices | src/buffered_io_handler.cc:78-212 | the indices stay in range over every interleaving, whatever the seeks, as long as none underruns the buffer |
| RingIndices.FillAvoidsUnread | src/buffered_io_handler.cc:160-181 | in all those runs the region filled without the lock lies inside the buffer and off every unread byte |
| RingIndices.HandledStaysInside | src/buffered_io_handler.cc:113-122 | the runs of RingSafety.RingIsFifo are among them |
| RingGate.TopKeepsGate | src/buffered_io_handler.cc:139-158 | the section with the seek keeps room behind a closed gate if and only if an underlying seek does not throw on a full ring with an initial fill set |
| RingGate.TopKeepsBelow | src/buffered_io_handler.cc:113-158 | it keeps a closed gate's ring below the initial fill if and only if a throwing seek finds it below and a backward in-buffer seek does not reach it |
| RingGate.RunsKeepGate | src/buffered_io_handler.cc:182-193 | in every run whose throwing seeks find room, a closed gate means room |
| RingGate.GateMeansBelow | src/buffered_io_handler.cc:154-193 | in every run whose seeks stay below the initial fill, a closed gate means a fill below it |
| RingGate.NobodyStuck | src/buffered_io_handler.cc:160-164 | in every run whose throwing seeks find room no wake-up is lost: the threads never both sleep, a sleeping reader leaves the buffer thread able to move, a sleeping buffer thread means a full ring that can be read |
| RingGate.GateCannotBlock | src/buffered_io_handler.cc:154-193 | in those runs the ring is never full while the gate is closed |
| RingGate.ThrowDeadlocks | src/buffered_io_handler.cc:147-163 | a seek that throws on a full ring makes both threads sleep at the next read |
| RingSteps.CommitGate | src/buffered_io_handler.cc:170-193 | after a commit the gate is closed if and only if it was closed and the ring holds less than the initial fill; no reader is left asleep when it opens |
| RingSteps.GateChanges | src/buffered_io_handler.cc:154-193 | in any step the gate opens only when the initial fill is reached, or with a seek passed on if there is none, and closes only with a seek passed on |
| RingSteps.GateOpens | src/buffered_io_handler.cc:182-193 | in every run, whatever the seeks, the gate goes from closed to open only when the ring holds the initial fill or there is none |
| RingSteps.OutcomeExactly | src/io_handler_buffer_helper.cc:94-108 | each code of read(), waiting, and handing out data, each if and only if by the flags, the ring and the gate |
| RingSteps.ReadExactly | src/io_handler_buffer_helper.cc:94-125 | read() changes the reader alone and the socket flag with its code, and copies as much as is asked for and there |
| RingSteps.ReadEnds | src/io_handler_buffer_helper.cc:132-153 | the end of a read moves the read position and the front of the ring by the bytes copied, and wakes the buffer thread of a full ring |
| RingSteps.SeekAsks | src/io_handler_buffer_helper.cc:169-187 | a seek is left for the buffer thread, which is woken, and waited for, except for a relative one of distance 0 |
| RingSteps.ServedExactly | src/buffered_io_handler.cc:102-117 | which seeks are served from the buffer |
| RingSteps.ServedKeeps | src/buffered_io_handler.cc:119-133 | such a seek moves the read position by its distance, leaves gate, flags and bytes, and wakes the reader |
| RingSteps.PassedOnExactly | src/buffered_io_handler.cc:139-158 | a seek passed on empties the ring unless it throws, closes the gate exactly if there is an initial fill, and leaves the read position |
| RingSteps.ChunkIsLargest | src/buffered_io_handler.cc:160-168 | the thread sleeps exactly on a full ring and otherwise reads a whole chunk or up to the next obstacle |
| RingSteps.CommitFlags | src/buffered_io_handler.cc:194-209 | end of stream, error and socket code each set their own flag, the first two not during a shutdown |
| RingSteps.CommitEnds | src/buffered_io_handler.cc:202-212 | the thread ends with the end of the stream, an error or a shutdown, and then leaves no reader asleep |
| RingSteps.ShutdownSeen | src/io_handler_buffer_helper.cc:211-216 | a shutdown wakes the buffer thread, which then ends |
| RingRuns.ThrowDeadlocksInARun | src/buffered_io_handler.cc:147-163 | a run that gets there |
| RingRuns.BackwardSeekFindsOthers | src/buffered_io_handler.cc:113-128 | a run in which a backward seek is served from bytes the underlying handler has overwritten |
| BufferedIO.Open | src/buffered_io_handler.cc:41-52 | the constructors throw if and only if a size is 0 that must not be or the initial fill exceeds the buffer; otherwise the object starts in the initial state of the protocol |
| BufferedIO.BufferedIOHandler.TopOfLoop | src/buffered_io_handler.cc:99-168 | the locked section computes the step for every pending seek, and keeps the invariant if the seek lands |
| BufferedIO.BufferedIOHandler.SeekSection | src/buffered_io_handler.cc:102-158 | the two seek paths, for every offset |
| BufferedIO.BufferedIOHandler.StoreByte | src/buffered_io_handler.cc:169-169 | the store is inside the array and keeps the invariant |
| BufferedIO.BufferedIOHandler.AfterRead | src/buffered_io_handler.cc:170-211 | commit, gate check, CHECK_SOCKET, end of file and error as specified |
| BufferedIO.BufferedIOHandler.BeginRead | src/io_handler_buffer_helper.cc:94-113 | the wait, the codes -1, 0 and CHECK_SOCKET, and the sizes of a read as specified |
| BufferedIO.BufferedIOHandler.CopyByte | src/io_handler_buffer_helper.cc:126-128 | the byte copied is the next unread one, inside the array |
| BufferedIO.BufferedIOHandler.EndRead | src/io_handler_buffer_helper.cc:132-153 | the caller gets a non-empty front of what was unread |
| BufferedIO.BufferedIOHandler.BeginSeek | src/io_handler_buffer_helper.cc:169-187 | the request and the wait as specified |
| BufferConfig.AcceptedSizes | src/config_manager.cc:2968-3013 | a buffer element is accepted if and only if all sizes are non-negative and chunk and fill fit the buffer |
| BufferConfig.AcceptedProfileRuns | src/io_handler_buffer_helper.cc:42-67 | the constructors take an accepted profile if and only if its chunk is positive, and it then starts the protocol |
| SlotTable.SelectedIds | src/autoscan.cc:274-286 | exactly the selected slots, in increasing order |
| SlotTable.Perform | src/autoscan.cc:193-216 | an operation crashes if and only if it removes the ID of a hole |
| SlotTable.CrashesExactlyAtAHole | src/autoscan.cc:193-216 | a history crashes if and only if at some point of it the ID of a hole is removed, and otherwise ends in the slots of the run |
| SlotTable.RemovedTwiceCrashes | src/autoscan.cc:203-204 | a history from the empty list that crashes |
| SlotTable.ApplyDistinct | src/autoscan.cc:102-134 | every operation keeps the locations pairwise distinct |
| SlotTable.ApplyKeepsId | src/autoscan.cc:193-300 | an entry keeps its slot through every operation that does not remove it, and is gone after one that does |
| SlotTable.AddedExactly | src/autoscan.cc:102-134 | a known location changes nothing; any other entry goes to the last hole, or behind all slots if there is none |
| SlotTable.RemovedExactly | src/autoscan.cc:193-264 | the first entry named goes, the last slot being taken off and another one becoming a hole; if none is named nothing changes |
| SlotTable.IdIsStable | src/autoscan.cc:96-300 | over any history an entry's ID is the same until its own removal |
| SlotTable.RunDistinct | src/autoscan.cc:96-300 | locations stay distinct over any history |
| SlotTable.GrowsOnlyWhenFull | src/autoscan.cc:122-131 | the list grows only when no slot is free |
| SlotTable.SlotBound | src/autoscan.cc:102-264 | over any history the number of slots is at most the larger of the first number and the largest number of entries alive at once |
| SlotTable.SlotBoundFromEmpty | src/autoscan.cc:102-264 | for a list that starts empty, at most the largest number of entries alive at once |
| SlotTable.SubdirPartition | src/autoscan.cc:266-300 | an entry is in the result or survives in its slot, never both, and in the result exactly when its location has the prefix and it may be removed |
| AutoscanLists.AutoscanDirectory.SetLocation | src/autoscan.cc:364-371 | a location once set never changes |
| AutoscanLists.AutoscanDirectory.SetScanID | src/autoscan.cc:373-377 | the directory and its timer parameter get the ID |
| AutoscanLists.AutoscanDirectory.CopyTo | src/autoscan.cc:426-442 | the properties are copied and the timer parameter is shared |
| AutoscanLists.AutoscanList.Add | src/autoscan.cc:102-134 | a known location is rejected and nothing changes; otherwise the last hole or a new slot, with the ID set, whoever shares the objects |
| AutoscanLists.AutoscanList.AddOwned | src/autoscan.cc:102-134 | a list that alone owns its directories stays so, each slot's directory and timer parameter carrying its index |
| SlotTable.AddAllLocations | src/autoscan.cc:136-147 | a directory clashes with what the list held before, never with the directories taken along with it |
| AutoscanLists.AutoscanList.AddList | src/autoscan.cc:136-147 | the directories are taken in order, each into the slot an add gives it, up to the first whose location was known before, and the call is rejected exactly if there is one; this list stays numbered, the other one if and only if every directory it shares has the same slot in both |
| AutoscanLists.AutoscanList.RemoveId | src/autoscan.cc:193-216 | crashes if and only if the ID is a hole; otherwise the specified slots, the ownership and the numbering kept |
| AutoscanLists.AutoscanList.RemoveByObjectID | src/autoscan.cc:218-240 | the first entry with the object ID goes and its ID is returned; the invalid ID exactly when there is none |
| AutoscanLists.AutoscanList.RemoveLocation | src/autoscan.cc:242-264 | the first entry with the location goes and its ID is returned; the invalid ID exactly when there is none |
| AutoscanLists.AutoscanList.AddCopy | src/autoscan.cc:283-286 | the inner add never throws; the copy keeps the ID, in the next slot of the result |
| AutoscanLists.AutoscanList.TakeOut | src/autoscan.cc:283-295 | the copy with the old ID joins the result, the original gets the invalid ID and leaves |
| AutoscanLists.AutoscanList.RemoveIfSubdir | src/autoscan.cc:266-300 | survivors as specified; the result holds new copies of all others in slot order with their IDs; originals and timer parameters have the invalid ID; the list shrinking under the loop skips nothing |
| ResourceList.CdsItem.AddTranscoded | src/cds_resource_manager.cc:146-283 | the profile loop leaves the front profiles reversed, the stored resources, the other profiles, and counts the front ones; on an item without resources it reads past the list if and only if a profile needs resource 0 |
| ResourceList.CdsItem.Test | src/cds_resource_manager.cc:154-207 | the tests with the fourcc loop |
| ResourceList.AppliesExactly | src/cds_resource_manager.cc:154-207 | a profile is accepted if and only if nothing hinders it: another codec than the Ogg item's, a fourcc that is not in the list to process or is in the list to ignore, or a DVD image that the item is not |
| ResourceList.AcceptedExactly | src/cds_resource_manager.cc:146-211 | one profile after the other: it adds a resource if and only if nothing hinders it, judged without a fourcc once a profile before it has put a resource in front |
| ResourceList.AddedResources | src/cds_resource_manager.cc:210-283 | every added resource is a plain transcoded one under the name of an accepted profile, each of these has one, and without profiles the list stays |
| ResourceList.ReadsFirstExactly | src/cds_resource_manager.cc:154-220 | which profiles read past the list of an item without resources |
| ResourceList.CdsItem.RenderAll | src/cds_resource_manager.cc:291-493 | the running count gives each URL its ID; an exception exactly when an external thumbnail has no URL |
| ResourceList.CdsItem.AddResources | src/cds_resource_manager.cc:81-494 | list and output for any profiles, thumbnail included |
| ResourceList.OneMore | src/cds_resource_manager.cc:273-282 | an accepted profile goes in front of everything or behind everything |
| ResourceList.StoredBlock | src/cds_resource_manager.cc:276-282 | the stored resources keep their order in one block behind the front ones, and all others are transcoded |
| ResourceList.StoredCount | src/cds_resource_manager.cc:321-332 | the count at a stored resource is its count before the insertions |
| ResourceList.IdIsStoredIndex | src/cds_resource_manager.cc:310-332 | a stored resource's URL carries an ID if and only if it is not transcoded and not an external one behind the first place, and the ID is the index from before the insertions if and only if no stored resource before it is marked transcoded |
| ResourceList.HidesExactlyTheOriginal | src/cds_resource_manager.cc:488-492 | resource i is suppressed if and only if a profile hides the original and i is stored resource 0, neither rendered as album art nor marked transcoded |
| ResourceList.RenderedExactly | src/cds_resource_manager.cc:321-493 | what a resource is rendered as and under which URL, by its role and place, and when an exception is thrown |
| ResourceList.RenderFollows | src/cds_resource_manager.cc:300-493 | without hiding, one element for each resource, in the order of the list |
| ResourceList.RenderHides | src/cds_resource_manager.cc:488-492 | with hiding, the same elements without that of the original |
| ResourceList.FourccForgotten | src/cds_resource_manager.cc:173-202 | a resource in front changes the answer of exactly the profiles whose list holds the item's fourcc |
| ResourceList.SecondProfileDropped | src/cds_resource_manager.cc:175-184 | two profiles of which the second is lost that way |
| ConfigOptions.ChildIndex | src/mxml/element.cc:369-384 | the first element child with the name, none before it |
| ConfigOptions.TrimTwice | src/tools.cc:125-155 | trimming twice is trimming once |
| ConfigOptions.TrimIsMiddle | src/tools.cc:125-155 | trimming leaves the middle of the string: nothing but blanks, tabs and line ends is dropped, and none is left at an end |
| ConfigOptions.TrimmedOnce | src/tools.cc:125-155 | there is only one such middle |
| ConfigOptions.ConfigManager.TrimString | src/tools.cc:125-155 | the two loops find it |
| ConfigOptions.TextIsJoined | src/mxml/element.cc:285-302 | the text of an element is that of its text children, in order, and there is none without one |
| ConfigOptions.AttributeIsFirst | src/mxml/element.cc:61-73 | the first attribute of a name counts |
| ConfigOptions.FindGoesOn | src/config_manager.cc:2505-2516 | a path is followed from one element to the next |
| ConfigOptions.LookupReads | src/xpath.cc:58-79 | a lookup reads the text or the attribute of the element the path leads to |
| ConfigOptions.OptionIsTrimmed | src/config_manager.cc:2489-2501 | a value that is there and not empty is returned as its trimmed middle and the tree stays; otherwise the default is returned, or an exception thrown |
| ConfigOptions.AttributeAfterSet | src/mxml/element.cc:87-103 | the attribute has the new value and every other one its old value |
| ConfigOptions.PutThenLookup | src/config_manager.cc:2505-2538 | what was created is found, for any tree and path that can take it |
| ConfigOptions.PutKeepsOthers | src/config_manager.cc:2505-2538 | every other path that had a value keeps it |
| ConfigOptions.PutTwice | src/config_manager.cc:2505-2538 | storing again changes nothing |
| ConfigOptions.GetOrCreate | src/config_manager.cc:2489-2540 | for any tree, path and default: a later lookup finds the returned value trimmed, a repeated call changes nothing, every other path with a value keeps it |
| ConfigOptions.RepeatsExactly | src/config_manager.cc:2552-2563 | lookup and repeated call return the same value if and only if there was one or the default is its own trimming |
| ConfigOptions.WhenGetOptionThrows | src/config_manager.cc:2526-2537 | a call throws if and only if the axis is not supported, or the element has no text and cannot take any |
| ConfigOptions.ThrowingCallKeepsTree | src/config_manager.cc:2517-2532 | a throwing call leaves the tree alone if and only if the element was there |
| ConfigOptions.AddChildKeepsGoal | src/config_manager.cc:2518-2524 | one more element created at the cursor brings the walk closer to the same final tree |
| ConfigOptions.ConfigManager.Walk | src/config_manager.cc:2507-2516 | the walk stops at the last element of the path that exists |
| ConfigOptions.ConfigManager.Create | src/config_manager.cc:2518-2524 | the loop creates the missing elements one below the other |
| ConfigOptions.StoreAtCursor | src/config_manager.cc:2526-2537 | replacing the element at the cursor is storing along the whole path |
| ConfigOptions.ConfigManager.GetOption | src/config_manager.cc:2489-2540 | the method computes the specified tree and result |

## Left out

- WatchTable.HandleEvent: takes the number of iterations of checkMoveWatches as an argument; the results about runs hold for every number, and the method passes the one after which the loop has ended.
- InotifyKernel.AddWatchKeeps: does not model ENOSPC, EACCES or other failures on an existing directory.
- AutoscanManager.AutoscanInotify.AddWatch: does not model ENOSPC, EACCES or other failures on an existing directory.
- WatchTable.BestMatch: compares paths name by name; in the program /m is also a prefix of /mx.
- AutoscanManager.AutoscanInotify.GetAppropriateAutoscanForPath: compares paths name by name, as WatchTable.BestMatch does.
- PersistentRuns.NeverForgotten: its histories have no renames and no unmounts, and it asks that rechecks reach the location and that no recursive location around it is given up; without one of these it is false (WatchRuns.RenamesForget, SkipRuns.SecondOfTwoForgotten, NestedRun.ReleaseForgets). For unmounts nothing is claimed.
- PersistentRuns.CoveredExactly: its histories have no renames and no unmounts.
- AutoscanManager.AutoscanInotify.TakeEvent: does not promise that the event is noticed in the sense of WatchPersistence.HandleCoversExactly, which depends on the entry.
- AutoscanManager.AutoscanInotify.TakeUnmonitorRequest: does not promise that no recursive location around a persistent one is given up, because the caller may.
- RingSafety.RunsKeepRing: a run stops at an in-buffer seek that does not land, where the property fails (RingSafety.SkipLandsExactly); the method TopOfLoop has no such condition.
- RingSafety.RingIsFifo: a run stops at an in-buffer seek that does not land, where the property fails.
- RingIndices.FillAvoidsUnread: a run stops at an in-buffer seek that underruns the buffer, after which the index is outside it (RingSafety.BackwardSeekUnderruns).
- RingSafety.TopKeeps: requires that an in-buffer seek lands; RingSafety.SkipLandsExactly says which do.
- BufferedIO.Open: requires a buffer of at most INT_MAX bytes, as every configured one is, because the program computes the fill level in int.
- AutoscanLists.AutoscanList.AddOwned: requires a directory whose timer parameter no other entry has; Add covers shared objects without the numbering, and AddList states what sharing costs the other list.
- AutoscanLists.AutoscanList.AddList: requires two lists that share no directory and no timer parameter yet, because their numbering would not be independent to begin with.
- AutoscanLists.AutoscanDirectory.CopyTo: does not model scan mode, scan level, interval, task counters, storage ID and times, which are copied field by field; nor the notification of all entries.
- ConfigOptions.ConfigManager.GetOption: the tree is a value held in a field, so references into it from elsewhere are not modelled; paths are given split and with their axis, xpath parsing is not modelled.
- The position after a seek passed to the underlying handler: the code does not update posRead.
- ResourceList.CdsItem.AddResources: a URL is its kind and ID; protocolInfo, DLNA attributes, extensions and the attributes copied into a transcoded resource are not modelled.
- ResourceList.CdsItem.RenderAll: a URL is its kind and ID, as in AddResources.
- Storage, content manager, rescans, logging, thread creation, the shutdown of the watch manager, path normalisation and string prefixes of paths.
- The rest of the server: UPnP, web interface, import scripts, metadata extraction, the database layer and the generation of the default configuration.
