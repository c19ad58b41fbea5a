# A verified model of the FileZilla engine's stateful parts

This project models, in Dafny, the parts of the FileZilla engine and of its user-interface support
library that keep state without a network or a window, and proves what the rest of the program
relies on. Every algorithm is written twice: as functions on values that say what it computes, and
in the form in which it runs (a class whose methods update its fields, a loop over a buffer). The
methods are proved equal to the functions, and the promises are proved about the functions for all
inputs, all runs, or all interleavings. What the functions compute is in turn pinned down in terms
that do not name them: what a log holds, which entry of a list goes, what a text looks like, which
inequalities a number meets.

## What is modelled

| files | component |
|---|---|
| `OpLocks`, `OpLockRequests` | The advisory lock table that all control sockets share. Locking, unlocking, the later delivery of a wake-up event and the closing of a socket are steps that interleave freely. |
| `RecursiveOperation`, `RecursiveTermination`, `RecursiveOrder`, `RecursiveEntries`, `RecursiveDelete`, `RecursiveConfinement`, `RecursiveAnswers`, `RecursiveVisits`, `RecursiveReplies`, `RecursiveObject` | Recursive remote operations: a deque of directories per root, a set of visited paths, one retry, and "remove after its children" markers, driven by arbitrary replies of the server. A log records what the operation asks for. |
| `DirectoryListing`, `DirectoryCache`, `DirectoryCacheOps`, `DirectoryCacheEdits`, `DirectoryCacheObject` | The directory cache with its least-recently-used list, file count, tiered limits and "unsure" flags, and the listings with their two lazily built name indexes. |
| `ServerPaths`, `ServerPathText`, `ServerPathDrives`, `ServerPathRelative`, `ServerPathObject`, `ServerPathCommon`, `SafePaths`, `SafePathObject` | Server paths in ten syntaxes: printing and parsing, order and ancestry, common parents, and the length-prefixed form in which they are stored. |
| `LocalPaths`, `LocalPathObject`, `LocalPathTexts` | The one-pass normaliser of local paths with its output buffer and stack of segment positions. |
| `ListingLines`, `ListingRows`, `ListingParser`, `ListingTokens` | The streaming layers of the listing parser: conversion, lines, entries that span two lines, tokens on demand, numbers. |
| `ActivityLogger`, `ActivityWaits`, `TransferStatus`, `TransferReports` | Two small protocols of a mutex and atomics that are also used outside it. |
| `ChunkSize` | The size of the next part of a multi-part upload. |
| `Chmod`, `ChmodText`, `ChmodMethods` | Compiling and printing changes of permissions. |
| `Commands`, `SitePath` | Quoting of command lines, escaping of site paths. |
| `Text` | Optional values, orders on strings and lists of strings, lower-casing, searching. |

Servers are values of an equality type with one attribute (whether names are case-sensitive).
Copy-on-write wrappers are plain values, and a locked region is one step except where an atomic is
touched outside the lock. A bit mask of permissions is the set of its bits. The time of a lookup and
the time after which a listing is outdated are parameters.

## Where the code differs from what one expects

* `OpLockManager::ObtainWaiting` ignores the server, `Lock` does not: `OpLocks.ForeignServerDelays`
  reaches a state in which a lock is left waiting although nothing on its server is in its way.
* Two empty server paths of different type are neither equal nor ordered
  (`ServerPaths.EmptyPathsQuirk`); storing a listing without a path next to such a twin makes the
  cache's file count wrong by exactly its entries (`DirectoryCacheOps.StoreCounts`), and two stores
  from the empty cache suffice for that (`DirectoryCacheOps.TwinIsReached`).
* A recursive operation accepts a listing without a path as the listing of a link that the user
  named, which leaves no place for it to lie in: `RecursiveConfinement.NothingOutside` holds exactly
  but for such listings, and `RecursiveConfinement.PathlessIsUsed` shows one whose file is deleted.
* `CDirectoryCache::InvalidateFile` computes the path of the directory to invalidate, but then flags
  everything at or below the path that contains it (directorycache.cpp:300-311); the model does so too.
* On DOS, `..` can remove the drive, and what is left prints as a text that cannot be parsed
  (`ServerPathDrives.DosDriveRemoved`); `ServerPathDrives.ParsingNormalizes` says for which texts.
* `CDirectoryListing::ClearFindMap` leaves the case-insensitive index alone unless the other one
  exists; `DirectoryListings.UnpairedSearchGoesStale` shows why the two must be paired, and
  `DirectoryListings.RenameCoherent` when they may not be.
* A line that ends in blanks may yield one extra empty token, depending on which tokens were asked
  for before; no caller can tell (`ListingTokens.Line.GetToken`).
* On MVS, a path whose prefix is gone (one that may name a member) refuses every further change,
  absolute ones included (`ServerPathRelative.MvsSticks`). On Cygwin, the root, a separator and a
  relative text look like a network path, so changing from the root is the one relative change that
  is not what setting the printed path and the text comes to (`ServerPathRelative.RelativeWalksOn`).
* Renaming a file to its own name makes the cache forget it (`DirectoryCacheEdits.SelfRenameForgets`).
* A command line of nothing but gaps is no command, not an empty one (`Commands.TypedCommandReads` is
  about those with a word).
* An unquoted argument with a line break is not read back (`Commands.QuoteRoundTrip`), and a
  backslash in a site path waits for the next slash or backslash however far away it is
  (`SitePaths.PendingBackslash`).

## Model

| member | source | states |
|---|---|---|
| `OpLocks.EveryInterleavingIsSafe` | filezilla3/src/engine/oplock_manager.cpp:60-209 | in every reachable state: every waiting lock is blocked by another socket's granted lock or its socket has an undelivered wake-up; no two granted locks of different sockets clash on one server; every live handle is in range, unshared and names the lock that was asked for; a slot with a waiting lock has a socket |
| `OpLocks.StepKeeps` | filezilla3/src/engine/oplock_manager.cpp:60-193 | each of the four steps, in any order, keeps that invariant |
| `OpLocks.AcquireKeeps` | filezilla3/src/engine/oplock_manager.cpp:60-98 | locking keeps it: a new lock is granted only where nothing on its server is in the way |
| `OpLocks.ReleaseKeeps` | filezilla3/src/engine/oplock_manager.cpp:100-139 | unlocking keeps it: popping trailing locks and slots renumbers no live handle, and whoever may now go on has an event under way |
| `OpLocks.DeliverKeeps` | filezilla3/src/engine/controlsocket.cpp:604-609 | consuming a wake-up keeps it |
| `OpLocks.NoDeadlock` | filezilla3/src/engine/oplock_manager.cpp:141-193 | with no event under way and nothing granted, nothing waits and the table is empty |
| `OpLocks.DeliveryGrantsExactly` | filezilla3/src/engine/oplock_manager.cpp:153-193 | after a delivery a lock of that socket waits exactly if it waited before and some other slot's granted lock is in its way |
| `OpLocks.TestsDiffer` | filezilla3/src/engine/oplock_manager.cpp:60-193 | in every reachable state with no event under way, a waiting lock has some granted lock in its way, and nothing on its own server is in its way exactly if all of those are on other servers |
| `OpLocks.ForeignServerDelays` | filezilla3/src/engine/oplock_manager.cpp:171-193 | a reachable state in which only a lock of another server keeps a lock waiting |
| `OpLocks.LockedGrows` | filezilla3/src/engine/oplock_manager.cpp:60-98 | a new lock leaves all others where they are, and its handle names it |
| `OpLocks.UnlockedShrinks` | filezilla3/src/engine/oplock_manager.cpp:100-139 | releasing drops nothing but the lock, released locks and empty slots at the ends |
| `OpLocks.OpLockManager.GetOrCreate` | filezilla3/src/engine/oplock_manager.cpp:195-209 | finds a socket's slot or appends one |
| `OpLocks.OpLockManager.Lock` | filezilla3/src/engine/oplock_manager.cpp:60-98 | the loop computes the specified table and handle |
| `OpLocks.OpLockManager.Unlock` | filezilla3/src/engine/oplock_manager.cpp:100-139 | flags, pops and wakes as specified; a waiting lock wakes nobody |
| `OpLocks.OpLockManager.Wakeup` | filezilla3/src/engine/oplock_manager.cpp:141-151 | sends one event to the socket of each slot with a waiting lock |
| `OpLocks.OpLockManager.ObtainWaiting` | filezilla3/src/engine/oplock_manager.cpp:153-193 | grants as specified, and returns whether anything changed |
| `OpLockRequests.GrantedNeverOverlap` | filezilla3/src/engine/oplock_manager.cpp:60-193 | over every interleaving, granted locks of two sockets of one server were never asked for with the same reason and the same path, or for one reason with a path below one that was asked for inclusively |
| `OpLockRequests.NewLockWaits` | filezilla3/src/engine/oplock_manager.cpp:60-98 | a new lock waits exactly if a granted one of another socket on its server overlaps with what it asks for; its server is that of the socket's other locks, else the one given |
| `OpLockRequests.WokenLockWaits` | filezilla3/src/engine/oplock_manager.cpp:153-193 | a delivery leaves a lock of that socket waiting exactly if a granted one of another socket, on whatever server, overlaps with it, and no other socket's lock changes |
| `OpLockRequests.ReleaseWakes` | filezilla3/src/engine/oplock_manager.cpp:100-151 | giving up a granted lock adds one event for each socket with a waiting lock and none for others; giving up a waiting one adds none; no other lock starts or stops waiting |
| `RecursiveTermination.EveryOperationEnds` | filezilla3/src/commonui/remote_recursive_operation.cpp:83-375 | whatever the replies, if their paths come from a finite set the operation becomes idle with no root left after finitely many of them |
| `RecursiveTermination.StartedOperationEnds` | filezilla3/src/commonui/remote_recursive_operation.cpp:52-111 | in particular an operation just started on any roots |
| `RecursiveTermination.StepDecreases` | filezilla3/src/commonui/remote_recursive_operation.cpp:216-375 | every reply acted upon lowers the roots left, the unvisited paths, or the weights of the entries, in that order |
| `RecursiveOrder.RemovalIsPostOrder` | filezilla3/src/commonui/remote_recursive_operation.cpp:83-111 | when the removal of a directory is asked for, nothing found in or below it is still in any deque, and nothing there is asked for later |
| `RecursiveOrder.EachDirectoryOnce` | filezilla3/src/commonui/remote_recursive_operation.cpp:247-278 | the entries of one path of one root are processed at most once |
| `RecursiveEntries.EachEntryOnce` | filezilla3/src/commonui/remote_recursive_operation.cpp:83-375 | two listings that are used belong to different entries, whose removals differ |
| `RecursiveDelete.CompletedDeleteRemovesAll` | filezilla3/src/commonui/remote_recursive_operation.cpp:83-375 | after a completed delete, every named directory recursed into was asked to be listed right before its contents were processed, and was asked to be removed later, under the same parent and name |
| `RecursiveConfinement.OnlyWhatWasNamed` | filezilla3/src/commonui/remote_recursive_operation.cpp:83-375 | whatever the server replies, a directory that is listed or removed was named by the user or is a selected directory of the listing used before for its parent; the files deleted from a directory are exactly the selected non-directories of the listing used before for it, or a link named in one of these ways; what else is changed or found is selected there too |
| `RecursiveConfinement.NothingOutside` | filezilla3/src/commonui/remote_recursive_operation.cpp:113-141 | whatever the server replies, a listing that is used lies within a root the user named, or is that of a link the user named, or lies below where that link was found to lead, exactly unless it has no path and answers such a link |
| `RecursiveConfinement.PathlessIsUsed` | filezilla3/src/commonui/remote_recursive_operation.cpp:113-141 | a delete in which such a listing is used and its file deleted |
| `RecursiveAnswers.EveryEntryIsAnswered` | filezilla3/src/commonui/remote_recursive_operation.cpp:143-214 | whatever the server replies, directly behind the use of a listing stands one answer for each selected entry and no other: both transfers hand on every selected entry that is not visited, a delete asks for exactly those to be deleted, a change of permissions sets those of every selected entry of a wanted kind |
| `RecursiveAnswers.NothingElseIsHandedOn` | filezilla3/src/commonui/remote_recursive_operation.cpp:143-214 | a file is handed on, and permissions are set, only directly behind the use of a listing for the same entry |
| `RecursiveVisits.CompletedRunVisitsAll` | filezilla3/src/commonui/remote_recursive_operation.cpp:143-278 | an operation that has run to its end has asked for every selected directory of every listing it used for an entry that recurses, after it used the listing |
| `RecursiveVisits.CompletedRunVisitsChosen` | filezilla3/src/commonui/remote_recursive_operation.cpp:52-111 | and for every directory that the user chose |
| `RecursiveReplies.UsedExactly` | filezilla3/src/commonui/remote_recursive_operation.cpp:216-278 | over every run, a listing is used at once, for the entry that was asked for, exactly if it lies where it may, its path was not used for that root before, and the entry is no link to be left alone |
| `RecursiveReplies.RetriedExactly` | filezilla3/src/commonui/remote_recursive_operation.cpp:294-336 | over every run, a directory that could not be listed is asked for again, at once, exactly if the error is neither critical nor the user's and was its first |
| `RecursiveReplies.GivenUpIsHandled` | filezilla3/src/commonui/remote_recursive_operation.cpp:294-336 | a directory that is given up is all the same removed by a delete that was to recurse into it, and handed on as one that could not be listed by a listing |
| `RecursiveReplies.LinkIsHandled` | filezilla3/src/commonui/remote_recursive_operation.cpp:338-375 | over every run, a link that is no directory is not visited any more: a delete asks for it to be deleted as a file, any other operation but a listing hands it on |
| `RecursiveObject.RemoteRecursiveOperation.AddRecursionRoot` | filezilla3/src/commonui/remote_recursive_operation.cpp:45-50 | a root without directories is not added |
| `RecursiveObject.RemoteRecursiveOperation.StartRecursiveOperation` | filezilla3/src/commonui/remote_recursive_operation.cpp:52-75 | an operation starts on its roots with an empty history, unless another one runs, there is no root, or permissions are to be changed without data |
| `RecursiveObject.RemoteRecursiveOperation.SetChmodData` | filezilla3/src/commonui/remote_recursive_operation.cpp:280-283 | stores what permission changes apply to |
| `RecursiveObject.RemoteRecursiveOperation.NextOperationLoop` | filezilla3/src/commonui/remote_recursive_operation.cpp:83-111 | the loop drains markers and roots as specified |
| `RecursiveObject.RemoteRecursiveOperation.BelowRecursionRoot` | filezilla3/src/commonui/remote_recursive_operation.cpp:113-141 | whether a listing may be used, and the link target it defines |
| `RecursiveObject.RemoteRecursiveOperation.ProcessEntriesLoop` | filezilla3/src/commonui/remote_recursive_operation.cpp:143-214 | the loop pushes the selected subdirectories and asks for the rest as specified |
| `RecursiveObject.RemoteRecursiveOperation.ProcessDirectoryListing` | filezilla3/src/commonui/remote_recursive_operation.cpp:216-278 | the new state is the step for that listing |
| `RecursiveObject.RemoteRecursiveOperation.ListingFailedWith` | filezilla3/src/commonui/remote_recursive_operation.cpp:294-336 | the new state is the step for that failure: one retry unless the error is critical |
| `RecursiveObject.RemoteRecursiveOperation.LinkIsNotDirectory` | filezilla3/src/commonui/remote_recursive_operation.cpp:338-375 | the new state is the step for a link that is no directory |
| `RecursiveObject.RemoteRecursiveOperation.StopRecursiveOperation` | filezilla3/src/commonui/remote_recursive_operation.cpp:285-292 | stopping drops all roots and the data for permission changes |
| `DirectoryListings.DirectoryListing.FindFileCmpCase` | filezilla3/src/engine/directorylisting.cpp:125-161 | returns nothing exactly if no entry has the name, else an entry that has it, while the index stays one of a prefix of the entries |
| `DirectoryListings.DirectoryListing.FindFileCmpNoCase` | filezilla3/src/engine/directorylisting.cpp:163-201 | the same for lower-cased names |
| `DirectoryListings.DirectoryListing.Append` | filezilla3/src/engine/directorylisting.cpp:213-216 | adds the entry behind the others and keeps both indexes right |
| `DirectoryListings.DirectoryListing.RemoveEntry` | filezilla3/src/engine/directorylisting.cpp:95-115 | drops exactly the entry at the index, the others staying in order, keeps the indexes right and flags the listing unsure |
| `DirectoryListings.DirectoryListing.Assign` | filezilla3/src/engine/directorylisting.cpp:72-93 | sets entries and attribute flags, clears the indexes |
| `DirectoryListings.DirectoryListing.ClearFindMap` | filezilla3/src/engine/directorylisting.cpp:203-211 | clears both indexes, or none when the first does not exist |
| `DirectoryListings.RenameCoherent` | filezilla3/src/engine/directorylisting.cpp:203-211 | renaming and clearing leaves the indexes right exactly if both were cleared or no surviving key changes |
| `DirectoryListings.UnpairedSearchGoesStale` | filezilla3/src/engine/directorylisting.cpp:163-211 | a sequence of calls that leaves a stale index when the pairing is broken |
| `DirectoryListings.AttributeFlagsMean` | filezilla3/src/engine/directorylisting.cpp:72-93 | each attribute flag is set exactly if some entry has the attribute |
| `DirectoryListings.AppendSound` | filezilla3/src/engine/directorylisting.cpp:213-216 | an index of a prefix stays one when an entry is appended |
| `DirectoryCacheEdits.AssignedMeans` | filezilla3/src/engine/directorylisting.cpp:72-93 | assigning entries sets the three attribute flags exactly as the entries demand and no other flag |
| `DirectoryCaches.EditKeeps` | filezilla3/src/engine/directorycache.cpp:254-448 | each edit of a listing changes its length by what is added to the count, keeps its indexes and flags, and leaves it unsure |
| `DirectoryCaches.TouchInv` | filezilla3/src/engine/directorycache.cpp:650-661 | touching keeps the accounting and moves exactly that listing to the end |
| `DirectoryCaches.InsertInv` | filezilla3/src/engine/directorycache.cpp:29-55 | caching a new path keeps it: each cached path is in the list exactly once under its own node, and the count is the sum of all sizes |
| `DirectoryCaches.ListingInv` | filezilla3/src/engine/directorycache.cpp:40-48 | replacing a listing keeps it |
| `DirectoryCaches.DropInv` | filezilla3/src/engine/directorycache.cpp:450-472 | dropping a listing keeps it |
| `DirectoryCaches.PruneEffect` | filezilla3/src/engine/directorycache.cpp:663-682 | pruning evicts the least recently used listings, as few as the limits allow, and then all tiered limits hold |
| `DirectoryCacheOps.StoreNewEffect` | filezilla3/src/engine/directorycache.cpp:29-55 | storing a new path evicts exactly a prefix of the least-recently-used order, keeps the new listing as the most recent one, and all limits hold |
| `DirectoryCacheOps.StoredWithinLimits` | filezilla3/src/engine/directorycache.cpp:663-682 | storing a new path leaves at most 50000 listings, 1000 if they hold more than a million files, 100 beyond five million; with the last listing evicted there would be too many |
| `DirectoryCacheOps.StoreOverEffect` | filezilla3/src/engine/directorycache.cpp:40-48 | storing over a path replaces its listing and moves it to the end, without pruning |
| `DirectoryCacheOps.TwinMiscounts` | filezilla3/src/engine/directorycache.cpp:29-55 | storing a listing without path next to one of another type caches nothing and leaves, after pruning too, a count that is off by exactly its entries |
| `DirectoryCacheOps.StoreCounts` | filezilla3/src/engine/directorycache.cpp:29-55 | a store keeps the accounting exactly if there is no such twin or the listing has no entries, and caches the listing exactly if there is none |
| `DirectoryCacheOps.TwinIsReached` | filezilla3/src/engine/directorycache.cpp:29-55 | two stores lead from the empty cache to a wrong count |
| `DirectoryCacheOps.ActKeepsStale` | filezilla3/src/engine/directorycache.cpp:57-624 | no operation but a store of the same path makes a stale listing look fresh |
| `DirectoryCacheOps.StaleUntilStored` | filezilla3/src/engine/directorycache.cpp:75-97 | through every run of operations a stale listing stays stale until the next store of its path |
| `DirectoryCacheOps.UpdatedIsStale` | filezilla3/src/engine/directorycache.cpp:318-448 | an update or removal leaves every listing of that path, regardless of case, stale |
| `DirectoryCacheOps.InvalidatedIsStale` | filezilla3/src/engine/directorycache.cpp:254-316 | so does an invalidation |
| `DirectoryCacheOps.NothingBelowRemoved` | filezilla3/src/engine/directorycache.cpp:493-528 | after the removal of a directory no listing at it, or below it regardless of case, remains, and only such listings went |
| `DirectoryCacheEdits.RemoveFileEffect` | filezilla3/src/engine/directorycache.cpp:400-448 | every listing of the path loses exactly its first entry of that name, the others staying in order, or has those of that name in another case marked; no other listing changes |
| `DirectoryCacheEdits.RemovedMeans` | filezilla3/src/engine/directorycache.cpp:417-433 | so with distinct names no entry of that name is left and every other one still is |
| `DirectoryCacheEdits.UpdateFileEffect` | filezilla3/src/engine/directorycache.cpp:318-398 | every listing of the path gets one more entry, of that name, kind, size and owner, exactly if it has none of that name, the kind is known and it may be created; all other entries are at most marked |
| `DirectoryCacheEdits.EditKeepsDirs` | filezilla3/src/engine/directorycache.cpp:318-398 | a listing that says so if it holds a directory still does after each edit |
| `DirectoryCacheEdits.RenameFileEffect` | filezilla3/src/engine/directorycache.cpp:541-566 | renaming a file within a directory removes the entry of the new name and gives the file, otherwise unchanged, that name |
| `DirectoryCacheEdits.RenamedMeans` | filezilla3/src/engine/directorycache.cpp:541-566 | so with distinct names the old one is gone, the new one has the attributes of the old, and every other entry still is there |
| `DirectoryCacheEdits.MoveFileEffect` | filezilla3/src/engine/directorycache.cpp:567-586 | a file renamed into another directory is removed from the one and added to the other |
| `DirectoryCacheEdits.SelfRenameForgets` | filezilla3/src/engine/directorycache.cpp:541-566 | renaming a file to its own name removes it |
| `DirectoryCacheEdits.RemoveDirEffect` | filezilla3/src/engine/directorycache.cpp:493-528 | removing a directory removes its entry from its parent's listings and leaves other listings that remain alone |
| `DirectoryCacheEdits.RenameDirEffect` | filezilla3/src/engine/directorycache.cpp:552-556 | renaming a directory removes both names and adds the new one as a directory |
| `DirectoryCacheEdits.InvalidateFileEffect` | filezilla3/src/engine/directorycache.cpp:254-298 | marks exactly the entries of that name, by the server's rule for case, in exactly the listings of the path by that rule |
| `DirectoryCacheEdits.InvalidateDirEffect` | filezilla3/src/engine/directorycache.cpp:300-313 | if the name is that of a known directory, every listing at or below the path becomes unsure; else only those of the path do, and no other changes |
| `DirectoryCacheEdits.OwnerEffect` | filezilla3/src/engine/directorycache.cpp:592-624 | sets the owner of the first entry of that name unless it is a directory, and changes nothing else |
| `DirectoryCacheEdits.UnknownIsForgotten` | filezilla3/src/engine/directorycache.cpp:450-472 | invalidating a server, and a rename or a change of owner that concerns nothing cached, removes the server and its listings and leaves all else as it was |
| `DirectoryCacheEdits.PrunedServers` | filezilla3/src/engine/directorycache.cpp:663-682 | pruning removes a server exactly with the last of its listings |
| `DirectoryCacheEdits.LookupEffect` | filezilla3/src/engine/directorycache.cpp:57-97 | a listing is found if it is cached, and none of eight flags is set unless unsure ones will do; looking puts it behind all others in the order of use |
| `DirectoryCacheObject.DirectoryCache.Store` | filezilla3/src/engine/directorycache.cpp:29-55 | for every listing: keeps the accounting exactly if there is no such twin or the listing has no entries, caches it exactly if there is none, and all limits hold if the path is new |
| `DirectoryCacheObject.DirectoryCache.Prune` | filezilla3/src/engine/directorycache.cpp:663-682 | the loop computes the specified eviction |
| `DirectoryCacheObject.DirectoryCache.UpdateLru` | filezilla3/src/engine/directorycache.cpp:650-661 | moves or appends a node as specified |
| `DirectoryCacheObject.DirectoryCache.Lookup` | filezilla3/src/engine/directorycache.cpp:57-97 | returns the cached listing unless it is unsure and unsure ones are not allowed, and whether it is outdated |
| `DirectoryCacheObject.DirectoryCache.LookupFile` | filezilla3/src/engine/directorycache.cpp:117-161 | agrees with a plain scan of the entries, first with case and then, where wanted and only there, without; searches an outdated listing only where that is allowed |
| `DirectoryCacheObject.DirectoryCache.UpdateFile` | filezilla3/src/engine/directorycache.cpp:318-398 | keeps the accounting and edits every listing of the path |
| `DirectoryCacheObject.DirectoryCache.RemoveFile` | filezilla3/src/engine/directorycache.cpp:400-448 | likewise for a removed name |
| `DirectoryCacheObject.DirectoryCache.InvalidateFile` | filezilla3/src/engine/directorycache.cpp:254-316 | likewise for an invalidated name, and flags what lies below a directory of that name |
| `DirectoryCacheObject.DirectoryCache.InvalidateServer` | filezilla3/src/engine/directorycache.cpp:450-472 | drops exactly the listings of a server |
| `DirectoryCacheObject.DirectoryCache.RemoveDir` | filezilla3/src/engine/directorycache.cpp:493-528 | drops the listings at and below a directory and removes its name |
| `DirectoryCacheObject.DirectoryCache.Rename` | filezilla3/src/engine/directorycache.cpp:530-590 | keeps the accounting within one directory and across two |
| `DirectoryCacheObject.DirectoryCache.UpdateOwnerGroup` | filezilla3/src/engine/directorycache.cpp:592-624 | sets the owner of a file, or forgets the server when the file is not known |
| `ServerPathText.TextRoundTrip` | filezilla3/src/engine/serverpath.cpp:144-201 | for all ten types, parsing what is printed gives the path back exactly for the well-formed paths |
| `ServerPathText.ParsedGood` | filezilla3/src/engine/serverpath.cpp:554-867 | whatever text is parsed, the path is well-formed, DOS types apart |
| `ServerPathDrives.ParsingNormalizes` | filezilla3/src/engine/serverpath.cpp:554-867 | for all ten types and any text, printing the parsed path and parsing it again changes nothing, exactly unless it is a DOS text whose parts climb above its drive to something with a misplaced colon |
| `ServerPathDrives.WithDrive` | filezilla3/src/engine/serverpath.cpp:623-680 | a DOS text with a drive comes to the fold of its other parts, below the drive exactly if these never climb above it |
| `ServerPathDrives.DosDriveRemoved` | filezilla3/src/engine/serverpath.cpp:623-680 | an accepted DOS text whose path prints as a refused one |
| `ServerPathText.RoundTripDos` | filezilla3/src/engine/serverpath.cpp:623-680 | a DOS path survives exactly if its colons are where a drive has them |
| `ServerPathText.RoundTripVms` | filezilla3/src/engine/serverpath.cpp:1224-1292 | on VMS, segments with dots survive escaping |
| `ServerPathText.PathsLookLike` | filezilla3/src/engine/serverpath.cpp:19-201 | the printed text of paths of every type, with and without a prefix, written out |
| `ServerPathRelative.NameAppends` | filezilla3/src/engine/serverpath.cpp:554-867 | changing any path by a name appends exactly that segment and keeps the prefix, which on MVS has to be there and goes |
| `ServerPathRelative.DotsLeadUp` | filezilla3/src/engine/serverpath.cpp:1224-1254 | a dot changes nothing, two dots lead to the parent, or nowhere from the top |
| `ServerPathRelative.AbsoluteReplaces` | filezilla3/src/engine/serverpath.cpp:554-867 | an absolute text replaces the path; only the device of a VMS path stays unless another is named |
| `ServerPathRelative.RelativeWalksOn` | filezilla3/src/engine/serverpath.cpp:554-867 | a relative change is setting the printed path, a separator and the text, exactly unless the path is the root on Cygwin |
| `ServerPathRelative.MvsSticks` | filezilla3/src/engine/serverpath.cpp:681-765 | an MVS path without a prefix refuses every text |
| `ServerPathRelative.DriveDecides` | filezilla3/src/engine/serverpath.cpp:623-680 | a text that begins with a drive is relative if the drive is the path's and no separator follows, refused if it is another one, and else a path of its own |
| `ServerPathRelative.SeparatorKeepsDrive` | filezilla3/src/engine/serverpath.cpp:623-680 | a separator in front leads to the top of the drive the path is on |
| `ServerPathRelative.BracketsMatch` | filezilla3/src/engine/serverpath.cpp:573-621 | on VMS a closing bracket needs an opening one, and then is the last character |
| `ServerPathObject.PathObject.GetPath` | filezilla3/src/engine/serverpath.cpp:144-201 | the loop prints the specified text |
| `ServerPathObject.PathObject.ChangePath` | filezilla3/src/engine/serverpath.cpp:538-867 | changes the path as specified, and leaves the empty path on failure |
| `ServerPathObject.SegmentizeInto` | filezilla3/src/engine/serverpath.cpp:1256-1292 | the loop over separators computes the specified segments |
| `ServerPathObject.PathObject.MakeParent` | filezilla3/src/engine/serverpath.cpp:223-238 | drops the last segment in place |
| `ServerPathObject.PathObject.AddSegmentTo` | filezilla3/src/engine/serverpath.cpp:1123-1133 | appends a segment, and fails on the empty path |
| `ServerPathObject.Reparse` | filezilla3/src/engine/serverpath.cpp:113-201 | the round trip as calls on two objects, in both directions |
| `ServerPaths.CheckSubdir` | filezilla3/src/engine/serverpath.cpp:468-531 | the loop decides whether one path lies below another |
| `ServerPaths.AncestryMeans` | filezilla3/src/engine/serverpath.cpp:468-536 | one path lies below another exactly if its segments extend the other's, types and prefixes being equal; without regard to case, if that is so in lower case |
| `ServerPaths.ParentOfChild` | filezilla3/src/engine/serverpath.cpp:203-238 | the parent of a path with a segment appended is that path, the prefix on MVS and the top of a path without a root apart |
| `ServerPaths.EqualNoCaseMeans` | filezilla3/src/engine/serverpath.cpp:980-1021 | two paths are equal without regard to case exactly if both are empty or they are equal in lower case |
| `ServerPaths.PathLessMeans` | filezilla3/src/engine/serverpath.cpp:889-933 | prefixes decide the order, then the types in their order, then the segments |
| `ServerPaths.PathLessTrichotomy` | filezilla3/src/engine/serverpath.cpp:889-933 | the order is asymmetric, and leaves incomparable only equal paths and empty ones |
| `ServerPaths.PathLessTransitive` | filezilla3/src/engine/serverpath.cpp:889-933 | the order is transitive |
| `ServerPaths.EmptyPathsQuirk` | filezilla3/src/engine/serverpath.cpp:869-893 | two different paths, neither less than the other |
| `ServerPathCommon.GetCommonParent` | filezilla3/src/engine/serverpath.cpp:1135-1210 | the loop over both paths computes the specified common parent |
| `ServerPathCommon.LowestCommonAncestor` | filezilla3/src/engine/serverpath.cpp:1135-1210 | what lies at or above both paths is exactly what lies at or above their common parent |
| `SafePaths.StoredRoundTrip` | filezilla3/src/engine/serverpath.cpp:290-447 | storing and loading gives a path back exactly if its segments are not empty, its prefix is absent or not empty, and none is longer than 32767 |
| `SafePaths.LoadedStorable` | filezilla3/src/engine/serverpath.cpp:346-447 | whatever text is loaded, the result can be stored |
| `SafePaths.EmptyIsRefused` | filezilla3/src/engine/serverpath.cpp:290-344 | the empty path is stored as nothing, which is refused and leaves the path empty |
| `SafePaths.StoredIsInjective` | filezilla3/src/engine/serverpath.cpp:290-334 | no two storable paths are stored alike |
| `SafePaths.DecimalReads` | filezilla3/src/engine/serverpath.cpp:271-286 | digits taken off from the right are put together again from the left |
| `SafePaths.TextsLookLike` | filezilla3/src/engine/serverpath.cpp:290-334 | the stored text of a path with a prefix and two segments, written out |
| `SafePaths.TypesLookLike` | filezilla3/src/engine/serverpath.cpp:290-334 | the stored number of each type, written out |
| `SafePathObject.PrintNumber` | filezilla3/src/engine/serverpath.cpp:271-286 | writes the decimal digits of any 64-bit number through a scratch buffer of 20 characters |
| `SafePathObject.StoredPath.GetSafePath` | filezilla3/src/engine/serverpath.cpp:290-334 | fills a buffer of the precomputed size, terminators included, and never writes beyond it |
| `SafePathObject.StoredPath.SetSafePath` | filezilla3/src/engine/serverpath.cpp:336-344 | loads as specified and leaves the empty path on failure |
| `SafePathObject.StoredPath.DoSetSafePath` | filezilla3/src/engine/serverpath.cpp:346-447 | the index parser reads nothing behind the terminator and computes the specified path |
| `SafePathObject.Transfer` | filezilla3/src/engine/serverpath.cpp:290-447 | a path moves from one object to another unchanged exactly if it is storable |
| `LocalPathObjects.LocalPath.SetPath` | filezilla3/src/engine/local_path.cpp:25-222 | the one-pass normaliser yields the canonical path of the walk along the parts between separators, writes at most one character more than the text has, and reports a file exactly if the last part names one and it is wanted |
| `LocalPaths.SetIsCanonical` | filezilla3/src/engine/local_path.cpp:25-222 | the result consists of a root and proper segments only |
| `LocalPaths.SetIsIdempotent` | filezilla3/src/engine/local_path.cpp:25-222 | setting a path to its own text changes nothing |
| `LocalPathObjects.ParentMeansStrictPrefix` | filezilla3/src/engine/local_path.cpp:610-631 | the prefix test on texts is the strict prefix test on segment lists |
| `LocalPathObjects.LocalPath.IsParentOf` | filezilla3/src/engine/local_path.cpp:610-631 | tests for a strict prefix of the text |
| `LocalPathObjects.LocalPath.MakeParent` | filezilla3/src/engine/local_path.cpp:321-351 | drops the last segment and returns it; fails exactly at the root and on the empty path |
| `LocalPathObjects.LocalPath.HasParent` | filezilla3/src/engine/local_path.cpp:258-275 | true exactly if the path is not empty and has a segment |
| `LocalPathObjects.LocalPath.ChangePath` | filezilla3/src/engine/local_path.cpp:369-417 | absolute texts replace the path, others continue it |
| `LocalPathObjects.ChangingWalks` | filezilla3/src/engine/local_path.cpp:369-417 | a relative change walks on from where the path is |
| `LocalPathTexts.StepsMean` | filezilla3/src/engine/local_path.cpp:25-222 | from any path, what the text of a name, a name and a separator, two dots, one dot or a separator behind it is set to, and when it names a file |
| `LocalPathTexts.TextsCompose` | filezilla3/src/engine/local_path.cpp:25-222 | a text may be cut behind any separator: the rest walks on from where the front leads |
| `LocalPathTexts.RootMeans` | filezilla3/src/engine/local_path.cpp:25-222 | at the root two dots lead nowhere |
| `LocalPathTexts.NulEndsText` | filezilla3/src/engine/local_path.cpp:25-222 | what follows a NUL is ignored |
| `LocalPathObjects.AddingKeepsCanonical` | filezilla3/src/engine/local_path.cpp:353-367 | adding a name keeps a path canonical exactly if the name is neither `.` nor `..` |
| `ListingLines.ChunkingIsInvisible` | filezilla3/src/engine/directorylistingparser.cpp:1952-2024 | lines and the failure on a line of more than 10000 bytes do not depend on how the bytes were split |
| `ListingLines.AnySplitReadsAlike` | filezilla3/src/engine/directorylistingparser.cpp:1913-1925 | two splits of the same bytes cannot be told apart |
| `ListingLines.ReadingResumes` | filezilla3/src/engine/directorylistingparser.cpp:1968-2024 | what was left over is all that matters of earlier data |
| `ListingLines.EbcdicLineEnds` | filezilla3/src/engine/directorylistingparser.cpp:3230-3247 | converted bytes are printable or a newline, and just three codes become newlines |
| `ListingLines.EbcdicLettersAndDigits` | filezilla3/src/engine/directorylistingparser.cpp:3230-3247 | digits and letters of either case keep their order within their ranges, the first of each range being given |
| `ListingRows.LinesAreRows` | filezilla3/src/engine/directorylistingparser.cpp:1952-2024 | raw lines of at most 10000 bytes, with any gaps of NUL, line feed, carriage return, blank and tab that begin with a line end between them, are read as exactly their texts, in order, empty ones skipped |
| `ListingRows.LongRowFails` | filezilla3/src/engine/directorylistingparser.cpp:1973-1990 | a longer line fails, with exactly the lines before it read |
| `ListingRows.BytesAreRows` | filezilla3/src/engine/directorylistingparser.cpp:1952-2024 | any bytes at all are such lines and gaps |
| `ListingLines.EachLineOfferedOnce` | filezilla3/src/engine/directorylistingparser.cpp:414-451 | every line is offered to the line parser once on its own, in order |
| `ListingLines.RefusedTwiceIsJoined` | filezilla3/src/engine/directorylistingparser.cpp:421-442 | a line makes one call of the line parser, and a second one behind the line before and a blank exactly if that call and the one before it were refused |
| `ListingParsers.ReceiveListing` | filezilla3/src/engine/directorylistingparser.cpp:414-465 | for data in any pieces, what the line parser is asked and the outcome are those of the whole |
| `ListingParsers.ListingParser.ConvertEncoding` | filezilla3/src/engine/directorylistingparser.cpp:3249-3262 | converts each byte exactly once |
| `ListingParsers.ListingParser.GetLine` | filezilla3/src/engine/directorylistingparser.cpp:1968-2024 | takes the next line with text out of the buffer, or reports an overlong one |
| `ListingParsers.ListingParser.TrimLeadingWhitespace` | filezilla3/src/engine/directorylistingparser.cpp:1952-1965 | drops blanks, but never within a line begun before |
| `ListingParsers.ListingParser.Offer` | filezilla3/src/engine/directorylistingparser.cpp:421-442 | a refused line is tried again behind the one kept before |
| `ListingParsers.ListingParser.ParseData` | filezilla3/src/engine/directorylistingparser.cpp:414-451 | after each piece the parser is where reading all bytes so far would have taken it |
| `ListingTokens.Line.GetToken` | filezilla3/src/engine/directorylistingparser.cpp:320-352 | in any order of calls, the n-th word or an empty token |
| `ListingTokens.WordsLoseOnlyBlanks` | filezilla3/src/engine/directorylistingparser.cpp:320-352 | the words hold all characters but the blanks, in order |
| `ListingTokens.TokensMean` | filezilla3/src/engine/directorylistingparser.cpp:320-352 | the tokens are the words that gaps of blanks and tabs leave apart, counted from the left |
| `ListingTokens.PrintedIsRead` | filezilla3/src/engine/directorylistingparser.cpp:190-263 | a number printed in decimal, or in hexadecimal digits of either case, has that number as its value |
| `ListingTokens.ReadPrinted` | filezilla3/src/engine/directorylistingparser.cpp:190-263 | and is read as it if 64 bits hold it |
| `ListingTokens.GetNumber` | filezilla3/src/engine/directorylistingparser.cpp:190-263 | the value of the leading digits, decimal or hexadecimal, or -1 if there is none, if something follows where nothing may, or if 64 bits are exceeded |
| `ActivityLogging.NothingIsLost` | filezilla3/src/engine/activity_logger.cpp:3-37 | in every interleaving, what `record` was given since the counter was last cleared is what `extract_amounts` returned, is about to return or left in the counter, and one full counter for each overflow |
| `ActivityLogging.LostExactlyByOverflow` | filezilla3/src/engine/activity_logger.cpp:3-37 | so bytes are lost exactly by an overflow, and none occurs before a full counter is recorded |
| `ActivityLogging.NothingGoesUnnoticed` | filezilla3/src/engine/activity_logger.cpp:3-37 | in every interleaving, a waiting logger with something counted has a `record` on its way to the mutex, and an idle one with a notifier that was not called is waiting with nothing counted |
| `ActivityWaits.WaitingMeans` | filezilla3/src/engine/activity_logger.cpp:3-37 | in every interleaving, the logger waits exactly from when nothing could be extracted, or a notifier was set, until something was recorded, and that calls the notifier set last |
| `ActivityLogging.StepKeeps` | filezilla3/src/engine/activity_logger.cpp:3-37 | each atomic operation keeps that invariant, wrap-around included |
| `ActivityLogging.NeverStuck` | filezilla3/src/engine/activity_logger.cpp:16-37 | whoever holds the mutex can go on |
| `ActivityLogging.ActivityLogger.Record` | filezilla3/src/engine/activity_logger.cpp:3-14 | is one or two of the steps, and calls the notifier exactly if the logger stops waiting |
| `ActivityLogging.ActivityLogger.ExtractAmounts` | filezilla3/src/engine/activity_logger.cpp:16-26 | is its four steps |
| `ActivityLogging.ActivityLogger.SetNotifier` | filezilla3/src/engine/activity_logger.cpp:28-37 | is its four steps, or one |
| `TransferStatuses.EveryByteIsReported` | filezilla3/src/engine/engineprivate.cpp:803-876 | in every interleaving, a reader sees start plus all bytes counted since `Init`, and whether progress was noted since then |
| `TransferStatuses.ProgressIsAnnounced` | filezilla3/src/engine/engineprivate.cpp:830-876 | in every interleaving, unreported progress has an update, a notification or a notified reader on its way |
| `TransferReports.OwnerIsToldExactly` | filezilla3/src/engine/engineprivate.cpp:792-876 | in every interleaving, the status is the one begun last unless it was reset, a read reports a change exactly if an update arrived since the last read, and as many notifications were sent or are due as there were resets and first arrivals since an unchanged read |
| `TransferReports.AnnouncedIsCollected` | filezilla3/src/engine/engineprivate.cpp:830-854 | what is announced was collected: the counter starts anew |
| `TransferStatuses.StepKeeps` | filezilla3/src/engine/engineprivate.cpp:792-876 | each step keeps: offset plus pending is start plus updates, and unreported progress with no report due implies a pending update |
| `TransferStatuses.UpdatesAreCounted` | filezilla3/src/engine/engineprivate.cpp:803-854 | the updates of the invariant, and the flag for progress, are those of the run since its last `Init` |
| `TransferStatuses.TransferStatusManager.Update` | filezilla3/src/engine/engineprivate.cpp:830-854 | is one or two steps, and notifies when the second one does |
| `TransferStatuses.TransferStatusManager.Get` | filezilla3/src/engine/engineprivate.cpp:856-876 | collects the counter and the flag for progress, and reports a change once |
| `TransferStatuses.TransferStatusManager.Init` | filezilla3/src/engine/engineprivate.cpp:803-813 | a negative start becomes zero, and the counter and the flag for progress are cleared |
| `TransferStatuses.TransferStatusManager.SetMadeProgress` | filezilla3/src/engine/engineprivate.cpp:825-828 | notes progress, without the mutex |
| `TransferStatuses.TransferStatusManager.Reset` | filezilla3/src/engine/engineprivate.cpp:792-801 | empties the status and notifies |
| `ChunkSizes.CalculateNextChunkSize` | filezilla3/src/engine/controlsocket.cpp:1184-1227 | the stepwise computation is the specified size |
| `ChunkSizes.ChunkIsAskedFor` | filezilla3/src/engine/controlsocket.cpp:1184-1227 | the chunk is the size that inequalities ask for (thirty seconds at the reported speed or the minimum, a share of the rest, the next multiple), cut off at the maximum and the rest |
| `ChunkSizes.AskedForOnce` | filezilla3/src/engine/controlsocket.cpp:1184-1227 | these inequalities leave no choice |
| `ChunkSizes.SpeedDecides` | filezilla3/src/engine/controlsocket.cpp:1192-1197 | with nothing but a speed to go by, the chunk is the larger of the minimum and what thirty seconds take |
| `ChunkSizes.NoReportMeansMinimum` | filezilla3/src/engine/controlsocket.cpp:1192-1197 | without a usable report it is the minimum |
| `ChunkSizes.PartsSufficeExactly` | filezilla3/src/engine/controlsocket.cpp:1184-1227 | whatever sizes and durations are reported, the chunks make up the total within the number of parts exactly if there is no maximum size or the parts can hold the total at it |
| `ChunkSizes.UnlimitedPartsSuffice` | filezilla3/src/engine/controlsocket.cpp:1184-1227 | without a limit to the parts the chunks make up the total too |
| `ChunkSizes.ChunkKeepsLimits` | filezilla3/src/engine/controlsocket.cpp:1184-1227 | every chunk is at most the maximum, and every one but the last at least the minimum or the maximum, and a multiple where the maximum is none or a multiple itself |
| `ChunkSizes.QuotaKept` | filezilla3/src/engine/controlsocket.cpp:1199-1217 | what a chunk leaves fits into the parts that are left if the rest fitted before |
| `Chmods.SymbolicModeMeans` | filezilla3/src/engine/posix_chmod.cpp:276-359 | the compiled pair does to any file what the operators of a symbolic mode do in order, and nothing if any part is malformed |
| `Chmods.CompiledAllMeans` | filezilla3/src/engine/posix_chmod.cpp:337-354 | one pair stands for any number of operators |
| `Chmods.OneOperatorMeans` | filezilla3/src/engine/posix_chmod.cpp:276-359 | what one operator with one who letter and one permission letter does to any bit of a file |
| `Chmods.AllMeansEveryone` | filezilla3/src/engine/posix_chmod.cpp:276-303 | a clause for all means what one for the user, the group and the others means, and one for nobody |
| `Chmods.ThreeDigitsMean` | filezilla3/src/engine/posix_chmod.cpp:247-275 | three octal digits set what the bits of each digit say for its class, and leave the special bits alone |
| `Chmods.FourDigitsMean` | filezilla3/src/engine/posix_chmod.cpp:247-275 | a fourth digit sets the special bits unless it is zero, and a fifth one, a zero, makes it clear them |
| `ChmodTexts.PrintedChangeParses` | filezilla3/src/engine/posix_chmod.cpp:412-505 | parsing what is printed gives the change back, but for bits it does not touch |
| `ChmodTexts.PrintedChangeMeansTheSame` | filezilla3/src/engine/posix_chmod.cpp:412-510 | so it has the same effect on every file |
| `ChmodTexts.OctalParses` | filezilla3/src/engine/posix_chmod.cpp:398-410 | five octal digits set all twelve bits |
| `ChmodTexts.AlikeIsPrintedOnce` | filezilla3/src/engine/posix_chmod.cpp:412-505 | a change that is the same for the three classes is printed once, without naming any |
| `ChmodMethods.ParseChmod` | filezilla3/src/engine/posix_chmod.cpp:243-362 | the loops compute the specified pair |
| `ChmodMethods.ParseOctal` | filezilla3/src/engine/posix_chmod.cpp:247-275 | reading digits from the right gives the specified pair |
| `ChmodMethods.ParseActions` | filezilla3/src/engine/posix_chmod.cpp:304-357 | several operators after one who-list are applied one after the other |
| `ChmodMethods.PrintChmod` | filezilla3/src/engine/posix_chmod.cpp:412-505 | the printer computes the specified text |
| `Commands.QuoteRoundTrip` | filezilla3/src/commonui/file_utils.cpp:66-163 | quoting is undone exactly if the first argument is not empty and every argument with a line break also has a character that forces quotes |
| `Commands.QuotedMeans` | filezilla3/src/commonui/file_utils.cpp:66-86 | an argument is put in quotes exactly if it is empty or holds a blank, a tab or a quote of either kind |
| `Commands.TypedCommandReads` | filezilla3/src/commonui/file_utils.cpp:88-163 | words come back whatever mix of the four blank characters separates them, and whether or not each is quoted |
| `Commands.QuoteCommand` | filezilla3/src/commonui/file_utils.cpp:66-86 | the loop computes the specified command line |
| `Commands.UnquoteFirst` | filezilla3/src/commonui/file_utils.cpp:88-138 | reads the first word and shortens the command, or leaves it alone |
| `Commands.UnquoteCommand` | filezilla3/src/commonui/file_utils.cpp:140-163 | all words, or none if something is left or the command is empty |
| `SitePaths.SitePathRoundTrip` | filezilla3/src/commonui/site_manager.cpp:299-362 | the segments of a built path come back exactly if there are any and none is empty |
| `SitePaths.BuiltComesApart` | filezilla3/src/commonui/site_manager.cpp:299-362 | in any case those that are not empty come back |
| `SitePaths.EscapingOnePass` | filezilla3/src/commonui/site_manager.cpp:346-351 | the two replacements put one backslash in front of each backslash and slash |
| `SitePaths.PendingBackslash` | filezilla3/src/commonui/site_manager.cpp:299-343 | a backslash waits for the next slash or backslash across ordinary characters |
| `SitePaths.DanglingBackslash` | filezilla3/src/commonui/site_manager.cpp:299-343 | a path whose last backslash is followed by neither a backslash nor a slash is refused |
| `SitePaths.BuildPath` | filezilla3/src/commonui/site_manager.cpp:353-362 | the loop builds the specified path |
| `SitePaths.UnescapeSitePath` | filezilla3/src/commonui/site_manager.cpp:299-343 | the loop takes a path apart as specified |

## Left out

- Everything that needs a network, a window or a file: sockets, protocols, proxies, views, logging, XML.
- Server paths with a file name (`isFile`), `FormatFilename`, `FormatSubdir`, guessing the type of a path, and the case-insensitive comparisons other than equality.
- Local paths on Windows and macOS, UNC paths, `Exists`, and the order of local paths.
- In recursive operations: local target directories, progress counters, roots added while running, and the filters themselves (a filter is a verdict on each entry).
- RecursiveObject.RemoteRecursiveOperation.ProcessEntriesLoop: the local directories that a transfer would write to are not represented.
- RecursiveObject.RemoteRecursiveOperation.LinkIsNotDirectory: neither is the local directory handed on with a link that is no directory.
- ServerPathObject.PathObject.ChangePath: is stated for names of directories; a path that ends in a file name is not represented.
- In the cache: the time of the last change of a listing and what depends on it; `LookupFiles`, `DoesExist` and `GetChangeTime`, which only read. Entries of a server are visited in any order.
- Lower-casing beyond ASCII, and characters outside one `char`.
- In the listing parser: guessing the encoding, the formats of the vendors, the month table, complex file sizes, end tokens, and the list of bare file names. Whether a line is accepted may depend on everything seen before.
- ListingParsers.ListingParser.Offer: the second line's count of trailing blanks, which is handed over as a cache, is not represented.
- TransferStatuses.StepKeeps: offsets are unbounded integers, since a file of more than 2^63 bytes does not occur; the start time is not represented.
- ChunkSizes.CalculateNextChunkSize: sizes and durations are unbounded integers, and a duration is a whole number of milliseconds.
- Chmods.SymbolicModeMeans: the file mode creation mask, which the program does not consult either; the string tokenizer is not part of this model and is taken to yield the texts between commas.
- SafePathObject.StoredPath.GetSafePath: texts are shorter than 2^64 characters, as they are in memory.
- Mutexes as objects; a locked region is one step.
- Permissions as printed in listings, parsing of single permissions, and the option tables: finite and easy.
