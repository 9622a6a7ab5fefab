# A verified model of mSL-ProcFS

mSL-ProcFS is a macOS kernel extension that serves a `/proc` file system, together with a root daemon
that answers the questions the kernel side cannot answer itself. This project models the parts of the
two programs that are state machines, loops over shared data or arithmetic, and proves what they keep.

| file | what it models |
|---|---|
| `Common` | integer widths, errno values, the payload size, `Option` |
| `ControlTable`, `Bridge`, `BridgeOutcomes`, `BridgeLate` | the request bridge: sixteen slots, the wrapping sequence number, waiters, timeouts, late replies, disconnects |
| `NodeTable`, `NodeCache`, `NodeCacheRuns`, `NodeCacheProgress` | the hashed node cache shared by any number of finders, and vnode reclaim |
| `Readdir`, `StructureNames`, `Structure`, `Numbers`, `Lookup`, `LookupTheorems`, `LookupExact`, `Listing`, `ListingComplete`, `PidList` | the structure tree, resumable directory reading, the processes listed, name lookup and `..` |
| `Sysctl`, `SysctlNames` | the live mirror of the sysctl tree under `/proc/sys` |
| `PcbStream`, `PcbTheorems`, `PcbRows` | the parser of the kernel's socket block stream |
| `ProcArgs`, `ArgFetch`, `Transfer` | splitting and fetching the argument region, and listings longer than one reply |
| `MemRead`, `MapWalk`, `Pagemap` | `/proc/<pid>/mem`, the region walk and `/proc/<pid>/pagemap` across both programs |
| `RtcDate`, `Buddy` | seconds to a calendar date, free pages to buddy blocks |

`dafny verify dfyconfig.toml` verifies all of it.

## How the model is built

Code that updates things in place is imperative here too: classes for the bridge's globals, the hash
table, the daemon's listings, the structure tree under construction and the caller's buffer, and
methods with loops for the scans. Each such method is tied to a function on values, and the theorems
are about those functions. The two concurrent protocols are transition systems whose steps are the
stretches that the code executes under one lock; a theorem about "every run" quantifies over all finite
sequences of enabled steps from the initial state. What the kernel or another library supplies (page
contents, regions, process lists, oids, failures of a request or an allocation) is a parameter.

Assumptions of the two protocols:

- Bridge: one daemon; its replies are complete and echo the sequence number of their request; no request
  and no late reply outlives 2^32 - 1 newer requests. `ReplyOnePeriodLate` builds a run in which dropping
  the last one gives a caller somebody else's answer, and `FilledHoldsPayloadIffWhole` says what a reply
  that is not complete does.
- Node cache: a vnode is reclaimed only when nothing references it, and a vnode id that still matches a
  live vnode is what `vnode_getwithvid` checks. Memory and vnode structures may be reused once free.

## Where the code differs from its comments

- After a failed vnode validation `procfsnode_find` forgets the node it had allocated
  (kext/procfs_node.c:243-247). `LosesExactlyOnRetry` says that this is the only way a node comes to be
  allocated with nothing leading to it, `LostForever` that it stays so, and `ANodeCanBeLost` gives a run in
  which it happens.
- A reply shorter than its header announces still completes the request; none of its bytes is kept, and
  the caller is offered the slot's earlier ones (kext/procfs_ctl.c:116-119).
- A listing of threads or descriptors never raises the end-of-file flag, and reading a directory with no
  room in the buffer sets the offset back to 0 (kext/procfs_vnops.c:872-924, 950-965).
- The trailing header of a socket stream has its count where a block has its kind, so some counts are
  taken for a block (tools/procfsd.c:2198-2221). `ParserExact` gives the exact condition; the count 8 is
  harmless because that kind of block is not used.
- Two readers of one listing share one copy in the daemon, rebuilt whenever a reader starts
  (tools/procfsd.c:3851-3860). `RebuiltExact` says for any number of restarts when a reader still gets its
  own listing, and `ReadDuringRestart` shows one that does not.
- In an `fd` directory whatever follows the number in a name is ignored (kext/procfs_vnops.c:363-402).
- A `/proc/sys` directory lists `..` with its own file number, not its parent's
  (kext/procfs_vnops.c:991-1003). `SysctlDotDot` says when the two are the same: never for `/proc/sys`
  itself, and below it when the low 40 bits of the two object ids agree.
- Entries for processes, threads and descriptors are listed with the vnode type 2, which is no
  directory-entry type (kext/procfs_vnops.c:814, 858, 907). What their names resolve to calls for 4, a
  directory, and in `byname` for 10, a link (kext/procfs_subr.c:97-100). `ListedTypeExact` says that these
  are all the entries whose type is wrong, and `LaunchdListedWrong` shows one.
- A directory of processes lists only the first 1024 that the caller may see (kext/procfs_subr.c:271-304),
  though all of them can be looked up. `ListedPidsExact` says which are listed, `AllListedExact` when all
  are, and `NotAllListed` shows one that is not.
- When two names are cut to the same 31 characters the first can still be looked up
  (kext/procfs_structure.c:685-692); `NamedChildExact` says exactly when a name leads to its own node.

## Model

| member | source | states |
|---|---|---|
| ControlTable.NextSeqIsSeqOf | kext/procfs_ctl.c:166-170 | the counter that is bumped and skips zero gives claim number t the number t mod (2^32 - 1) + 1, never 0 |
| ControlTable.SeqCollision | kext/procfs_ctl.c:166-170 | two claims get the same number if and only if a whole number of periods lies between them |
| ControlTable.FilledHoldsPayloadIffWhole | kext/procfs_ctl.c:109-122 | a completed slot offers the reply's own bytes if and only if none of the announced bytes is missing, and otherwise its old buffer with the announced length |
| ControlTable.ControlBlock.constructor | kext/procfs_ctl.c:46-52 | the bridge starts disconnected with every slot free |
| ControlTable.ControlBlock.Connect | kext/procfs_ctl.c:54-69 | the peer's unit is recorded and the bridge is connected |
| ControlTable.ControlBlock.Disconnect | kext/procfs_ctl.c:71-92 | every slot in use that is not done becomes done with ENOTCONN, all others stay as they are |
| ControlTable.ControlBlock.Send | kext/procfs_ctl.c:94-131 | a well-formed reply fills the one slot that waits for its number, anything else changes nothing |
| ControlTable.ControlBlock.Claim | kext/procfs_ctl.c:149-178 | the first free slot is taken with the next number, or nothing changes when none is free |
| ControlTable.ControlBlock.Finish | kext/procfs_ctl.c:197-221 | a waiter leaves with its slot's clipped payload or error, or with ETIMEDOUT |
| ControlTable.ControlBlock.Release | kext/procfs_ctl.c:224-226 | exactly the slot's in-use mark is cleared |
| Bridge.StepInv | kext/procfs_ctl.c:71-229 | every step of any thread, the daemon or the wire keeps the protocol invariant |
| Bridge.RunInv | kext/procfs_ctl.c:71-229 | the invariant holds after every run |
| Bridge.NumbersIdentify | kext/procfs_ctl.c:109-122 | while both live, a reply's number finds no slot but that of the request it answers |
| Bridge.DistinctNumbers | kext/procfs_ctl.c:149-178 | in every reachable state the slots in use carry distinct nonzero numbers |
| Bridge.OwnPayload | kext/procfs_ctl.c:139-229 | a request that returns 0 got the clipped payload that the daemon produced for that very request |
| Bridge.OneOwner | kext/procfs_ctl.c:149-228 | a slot is in use if and only if exactly one call owns it |
| Bridge.BusyIffAllOwned | kext/procfs_ctl.c:149-164 | EBUSY is returned if and only if each of the sixteen slots is owned by a call of its own |
| Bridge.NothingLeaks | kext/procfs_ctl.c:224-228 | when no call is between claim and release, every slot is free |
| Bridge.PhasesAdvance | kext/procfs_ctl.c:139-229 | no step takes a call back, and its own steps take it strictly nearer its return |
| Bridge.ReleasedOnce | kext/procfs_ctl.c:224-228 | over any run the releases of a call number exactly its returns, so a slot is given back once |
| Bridge.NeverStuck | kext/procfs_ctl.c:186-228 | a call past its claim always has an enabled step of its own, whatever the others did |
| Bridge.DoneSlotKept | kext/procfs_ctl.c:94-131 | no step but its owner's release changes a slot that is done |
| Bridge.DisconnectFailsPending | kext/procfs_ctl.c:71-92 | a disconnect leaves no owned slot pending, and every request then incomplete can only return a nonzero error |
| BridgeOutcomes.ReplyReturned | kext/procfs_ctl.c:109-221 | a reply that arrives while its caller waits is what the caller returns, over every continuation: the daemon's error if it is not 0, else the payload clipped to the caller's room |
| BridgeOutcomes.DisconnectReturned | kext/procfs_ctl.c:71-92 | a call that waits when the daemon disconnects returns ENOTCONN, whatever comes in later |
| BridgeOutcomes.TimeoutReturned | kext/procfs_ctl.c:197-221 | a call that gives up waiting returns ETIMEDOUT, even if its reply comes in before it has left |
| BridgeOutcomes.SendErrorReturned | kext/procfs_ctl.c:192-194 | a call whose request could not be sent returns that error |
| BridgeOutcomes.NoDaemonReturned | kext/procfs_ctl.c:145-147 | a call that starts returns ENOTCONN if no daemon is connected, and goes on otherwise |
| BridgeOutcomes.ConnectedIsLastLink | kext/procfs_ctl.c:54-92 | whether a daemon is connected is what the last connect or disconnect of the run says |
| BridgeOutcomes.RoomGiven | kext/procfs_ctl.c:139-221 | the room that a call brings is the one its payload is clipped to, throughout |
| BridgeLate.RunsHereToo | kext/procfs_ctl.c:139-229 | every run of the bridge is a run of the bridge without the assumption on ages |
| BridgeLate.FillsExactly | kext/procfs_ctl.c:112-124 | a reply to one claim fills the slot of a later one if and only if that slot is the first still waiting for the number and a whole number of periods lies between the claims |
| BridgeLate.ReplyOnePeriodLate | kext/procfs_ctl.c:94-229 | without the assumption there is, for every answer to a request that timed out, a run that returns it with success to a caller whose request was never answered |
| NodeTable.Cache.Lookup | kext/procfs_node.c:118-131 | the search of the one bucket that the hash selects finds the first node with the key |
| NodeTable.Cache.LockedPass | kext/procfs_node.c:107-270 | one pass under the mutex leaves the table and the decision that the pass function gives |
| NodeTable.Cache.FinishAttach | kext/procfs_node.c:279-321 | attaching ends, the vnode is linked, and sleepers are woken if and only if one was noted |
| NodeTable.Cache.FreeNode | kext/procfs_node.c:356-361 | the node leaves its list and the heap, and nothing else changes |
| NodeCache.FindIsIndex | kext/procfs_node.c:59-65 | under the invariant one-bucket search agrees with a plain map from keys to nodes |
| NodeCache.StepInv | kext/procfs_node.c:86-361 | every step of any finder, the VFS or reclaim keeps the cache invariant |
| NodeCache.RunInv | kext/procfs_node.c:86-361 | the invariant holds after every run |
| NodeCacheRuns.TableIsMap | kext/procfs_node.c:107-135 | in every reachable state at most one node has a key, it lies in the bucket of its hash, once, and search is map lookup |
| NodeCacheRuns.HashedAttachingOrLinked | kext/procfs_node.c:225-332 | a hashed node is being attached by exactly one thread or is linked to a vnode |
| NodeCacheRuns.SuccessIsUsable | kext/procfs_node.c:225-348 | a successful find returns a hashed node with the requested key, linked both ways with a live vnode on which the caller holds an iocount |
| NodeCacheRuns.IocountsBalance | kext/procfs_node.c:225-348 | a finder holds an iocount on a vnode if and only if it stands between getting and putting it |
| NodeCacheRuns.SamePair | kext/procfs_node.c:225-348 | two successes for one id with no reclaim of that vnode between return the same node and vnode |
| NodeCacheRuns.NoUseAfterFree | kext/procfs_node.c:140-223 | every step, the creation callback included, touches allocated nodes only, and the heap changes by exactly what it allocates and frees |
| NodeCacheRuns.FreesOwnNode | kext/procfs_node.c:279-310 | a failed creator frees only the node it allocated, a freed node is no longer hashed, and its sleepers are awake |
| NodeCacheRuns.SleepersAreWatched | kext/procfs_node.c:206-223 | a thread sleeps only on a node that is still attaching, whose builder will wake it |
| NodeCacheProgress.NeverStuck | kext/procfs_node.c:86-361 | from every reachable state a run leads every call that has not failed to a successful return, except after its own creation callback failed, when its next step returns that error |
| NodeCacheProgress.ErrorReturned | kext/procfs_node.c:272-310 | a call whose creation callback fails returns that error, however the run goes on |
| NodeCacheProgress.NoMemoryReturned | kext/procfs_node.c:140-191 | a call whose allocation fails returns ENOMEM |
| NodeCacheProgress.BuilderFinishes | kext/procfs_node.c:272-321 | the thread that is attaching a node can always end that by itself, after which every sleeper on the node is awake and the key has no node or a linked one |
| NodeCacheRuns.LostIsUnreachable | kext/procfs_node.c:225-247 | a node that the history calls lost is one that is allocated while no list, no thread's locals and no vnode in use lead to it, and conversely |
| NodeCacheRuns.NodesAccountedFor | kext/procfs_node.c:140-191 | an allocated node is unreachable if and only if it is neither hashed nor some thread's spare |
| NodeCacheRuns.LosesExactlyOnRetry | kext/procfs_node.c:225-247 | a step makes a node unreachable if and only if it is a failed validation by the thread whose spare that node is |
| NodeCacheRuns.LostForever | kext/procfs_node.c:243-247 | an unreachable node stays allocated and unreachable through every continuation |
| NodeCacheRuns.ANodeCanBeLost | kext/procfs_node.c:243-247 | a run of two finders and a reclaim leaves a node allocated and unreachable |
| Readdir.DirentSize | kext/procfs_vnops.c:1039-1044 | the packed size holds the name and its NUL, is a multiple of 8 and wastes less than 8 bytes |
| Readdir.CopyOut | kext/procfs_vnops.c:1052-1075 | an entry is copied whole if it fits, else nothing changes and 0 is reported |
| Readdir.EmitList | kext/procfs_vnops.c:799-835 | the loop over an expanded list stops at the first entry that does not fit, having copied exactly those before it from the offset on |
| Readdir.WalkChildren | kext/procfs_vnops.c:607-958 | the loop over the structure children stops where the next entry does not fit or at the child that ends it, having copied exactly the entries from the offset on |
| Readdir.ReadDirectory | kext/procfs_vnops.c:592-965 | one call copies the contiguous entries from the offset that fit, leaves the offset behind the last, and raises end of file only when every entry is out |
| Readdir.ReadSysctlDirectory | kext/procfs_vnops.c:974-1031 | the same for a sysctl directory, where end of file is raised if and only if all is out and room is left |
| Readdir.FromOffset | kext/procfs_vnops.c:806-829 | restarting at the offset of an entry finds that entry |
| Readdir.SeekOffsetResumes | kext/procfs_vnops.c:1052-1075 | restarting at an entry's seek offset finds exactly the entries after it |
| Readdir.CallsEmitRun | kext/procfs_vnops.c:592-965 | successive calls with buffers that hold the next entry emit a contiguous run in order, at least one entry a call until the end |
| Readdir.WholeDirectory | kext/procfs_vnops.c:592-965 | from offset 0 every entry comes out exactly once, in order, whatever the buffer sizes |
| Readdir.ReadInCalls | kext/procfs_vnops.c:592-965 | one call of readdir per buffer writes what successive calls are said to write above, so the whole directory from offset 0; a buffer without room sets the offset back |
| Readdir.ReadSysctlInCalls | kext/procfs_vnops.c:974-1031 | the same for a directory of the sysctl tree |
| Readdir.NothingBehindDynamic | kext/procfs_structure.c:74-77 | with only the last child expanding, the listing is all that any child contributes |
| Structure.AddedOk | kext/procfs_structure.c:673-712 | adding a properly placed node keeps parents, child order, inherited flags, node ids and the expanding child last |
| Structure.Builder.constructor | kext/procfs_structure.c:86-90 | the tree starts as the root with node id 1 and no flags |
| Structure.Builder.AddNode | kext/procfs_structure.c:673-712 | the node goes to the end of its parent's children with the parent's flags added to its own, and no other node changes |
| Structure.Builder.Add | kext/procfs_structure.c:673-712 | with the next id a well-placed node keeps the tree in order, and all that is known of other nodes stays true |
| Structure.Builder.AddDirectory | kext/procfs_structure.c:720-739 | a directory starts with its two dot entries, carries the flags given and inherited, and takes three ids |
| Structure.Builder.AddLeaves | kext/procfs_structure.c:745-750 | the leaves end up behind the children there were, in the order given and of the kind given |
| StructureNames.RootNamesGood | kext/procfs_structure.c:86-517 | no two entries of the root have the same name, and none starts with a digit or is cut short |
| StructureNames.ProcessNamesGood | kext/procfs_structure.c:516-620 | the same for the directory of a process |
| Structure.StructureInit | kext/procfs_structure.c:79-644 | the whole tree is in order (parents, ids, inherited flags, dot entries first, expanding entries last), the root and the process directory have exactly the names the code adds, each for the kind of node it adds, so have the directories below the root and those for descriptors, threads and tasks, `byname` holds the entry that stands for every process, and in no directory is a name there twice or one that could be taken for a number |
| Numbers.Atoi | kext/procfs_subr.c:213-229 | the value of the leading digits, or -1 without one, and where they end |
| Numbers.AtoiOfDecimal | kext/procfs_subr.c:213-229 | reading a printed number below 2^31 gives it back, whatever non-digit follows |
| Lookup.MatchNumbered | kext/procfs_vnops.c:403-511 | a numbered child accepts, refuses or passes over a name as the process, access and thread checks say |
| Lookup.MatchDescriptor | kext/procfs_vnops.c:363-402 | a descriptor child accepts a name if and only if its number is an open descriptor |
| Lookup.LookUp | kext/procfs_vnops.c:226-545 | the search loop returns the node that the first child not passing the name over gives, EINVAL if and only if the node is no directory or the name is empty, or ENOENT |
| Lookup.GetPids | kext/procfs_subr.c:271-304 | the scan over the pid space returns the processes that the caller may see, by rising pid, cut to the first 1024 |
| LookupExact.FoundExact | kext/procfs_vnops.c:310-545 | in every directory of the built tree a name is found as a node if and only if a child that is not hidden stands for it: by its own name, by the number of a process the caller may see or of one of the directory's threads in digits only, by the whole name of such a process, or by a leading number that is an open descriptor; otherwise ENOENT |
| LookupExact.HiddenFromCaller | kext/procfs_vnops.c:430-475 | a process that does not run or that the caller may not access is not found, by number or by name |
| LookupTheorems.LookupStaysGood | kext/procfs_vnops.c:267-545 | every lookup from a node whose id fits the structure leads to such a node |
| LookupTheorems.UpExact | kext/procfs_node.c:369-393 | the parent id of what a lookup found is the directory's id if and only if the directory's object id is one its flags carry |
| LookupTheorems.UpUndoesLookup | kext/procfs_vnops.c:267-308 | from every directory a lookup reaches, `..` gives back the exact node it started from, in /proc/sys too |
| LookupTheorems.UpsUndoPath | kext/procfs_vnops.c:267-545 | any path down through directories followed by as many `..` ends where it began |
| LookupTheorems.BackToRoot | kext/procfs_vnops.c:267-545 | every directory of the file system leads back to the root by as many `..` as its path has components |
| Listing.ExpandingLast | kext/procfs_structure.c:74-77 | in every directory of the tree only the last child expands |
| Listing.NamedChildExact | kext/procfs_vnops.c:341-362 | a child's name leads to that child if and only if no child before it has the same name |
| Listing.ListedResolves | kext/procfs_vnops.c:625-949 | in every directory of the built tree each listed name resolves to a node whose file number is the one listed |
| ListingComplete.ListedNames | kext/procfs_vnops.c:592-965 | readdir lists exactly the names of the children that are not hidden and do not expand, in order, and then those of the processes, threads or descriptors that the last child stands for; for a process the caller may not see, nothing |
| ListingComplete.ListedOnce | kext/procfs_vnops.c:592-965 | every child that is not hidden and does not expand has exactly one entry with its name |
| ListingComplete.SysctlNames | kext/procfs_vnops.c:974-1031 | a sysctl directory lists its two dot entries and every oid that is shown, in order, and nothing else |
| ListingComplete.SysctlFoundIffListed | kext/procfs_vnops.c:325-345 | a name other than the dot entries is found in a sysctl directory if and only if it, or what it is an alias of, is listed; otherwise ENOENT |
| PidList.ListedPidsExact | kext/procfs_subr.c:271-304 | a process is listed if and only if the caller may see it, its pid is below 100000 and fewer than 1024 such processes have a smaller pid |
| PidList.ListedRising | kext/procfs_subr.c:290-299 | pids are listed in rising order, so each once |
| PidList.AllListedExact | kext/procfs_subr.c:271-304 | all processes that the caller may see are listed if and only if there are no more than 1024 |
| PidList.NotAllListed | kext/procfs_subr.c:271-304 | with 1025 processes the last is found by its number but not listed |
| Listing.ListedTypeExact | kext/procfs_vnops.c:625-949 | every listed type is that of the node its name resolves to if and only if the child that lists it does not expand |
| Listing.ExpandedType | kext/procfs_vnops.c:799-924 | an expanded entry carries type 2, and its name resolves to a link in `byname` and to a directory elsewhere |
| Listing.LaunchdListedWrong | kext/procfs_vnops.c:799-835 | in the root process 1 is listed with type 2 and found as a directory, whose type is 4 |
| Listing.SysctlListedType | kext/procfs_vnops.c:974-1031 | in a sysctl directory every listed type, that of `..` too, is that of the node its name resolves to |
| Listing.DescriptorIgnoresTail | kext/procfs_vnops.c:363-402 | every name that starts with a digit is read as the int its leading digits make, and found if and only if that is an open descriptor |
| Lookup.FileIdWithoutPid | kext/procfs_subr.c:196-206 | without a pid the file number is the base id plus the low 40 bits of the object id above bit 24 |
| Lookup.FileIdBits | kext/procfs_subr.c:196-206 | for a pid below 2^23 the bits of the file number are those of the base id, of the pid from bit 8 on and of the object id from bit 24 on |
| Listing.SysctlListedResolves | kext/procfs_vnops.c:974-1031 | every entry of a sysctl directory but `..` resolves to the number listed |
| Listing.SysctlDotDot | kext/procfs_vnops.c:991-1003 | `..` never resolves to the number listed in /proc/sys, and below it does if and only if the object ids of the directory and its parent agree in their low 40 bits |
| Listing.KernDotDot | kext/procfs_vnops.c:991-1003 | in /proc/sys/kern it does only if the oid lies at a multiple of 2^40 |
| Sysctl.ChildAtIsListing | kext/procfs_sysctl.c:306-354 | asking for index after index gives one listing, with `random` behind the children of kern, and nothing past its end |
| Sysctl.FindIffListed | kext/procfs_sysctl.c:243-298 | a name is found if and only if it, or what it is an alias of, is listed, and as the object listed |
| Sysctl.ListedExact | kext/procfs_sysctl.c:194-221 | a directory lists exactly the oids of its list that have a name and are neither masked nor an anchor, and kern also `random` |
| Sysctl.FindByName | kext/procfs_sysctl.c:243-298 | `kernel` in /proc/sys is kern, and every other name is found if and only if it is listed |
| Sysctl.ListedOnce | kext/procfs_sysctl.c:306-354 | no object is listed twice in a directory |
| Sysctl.ListedKind | kext/procfs_sysctl.c:226-238 | the kind listed for a child is the kind it has |
| Sysctl.ParentInvertsFind | kext/procfs_sysctl.c:398-449 | the parent of what was found is the directory it was found in, for real and synthetic objects |
| Sysctl.ParentIsNode | kext/procfs_sysctl.c:398-449 | the parent of any object is a directory |
| Sysctl.FoundOnce | kext/procfs_sysctl.c:243-298 | an object is found in one directory only, under one name and its alias |
| Sysctl.ClimbUndoesWalk | kext/procfs_sysctl.c:426-449 | going up once per component of a path returns to its start, so repeated parent reaches the root |
| Sysctl.PathUnique | kext/procfs_sysctl.c:243-298 | two paths to one object are the same up to the alias |
| SysctlNames.NameIsPath | kext/procfs_sysctl.c:361-392 | the rebuilt name of a reachable oid is its dotted path, cut to 255 characters |
| SysctlNames.NameFollowsBack | kext/procfs_sysctl.c:361-392 | following the rebuilt name finds the oid again if and only if the whole name fits the buffer |
| PcbStream.Next | tools/procfsd.c:2187-2197 | the walk goes on, and by how much, exactly as the length and kind of the block allow |
| PcbStream.BuildRows | tools/procfsd.c:2136-2225 | the moving walk with its current-record variables builds the rows of the grouped blocks |
| PcbStream.VisitedInside | tools/procfsd.c:2187-2197 | whatever the bytes, every block visited announces at least its header and lies within the stream, and the walk only moves forward |
| PcbTheorems.WalkVisitsBlocks | tools/procfsd.c:2187-2223 | over an encoded stream the walk visits every block up to the first of unknown kind, in order |
| PcbTheorems.GroupsAgree | tools/procfsd.c:2198-2224 | the facts read through positions are those of the blocks themselves |
| PcbTheorems.ParseIsExpected | tools/procfsd.c:2136-2225 | the rows are those of each socket's own blocks if and only if the trailer's count is harmless |
| PcbRows.EmitShows | tools/procfsd.c:2147-2185 | a socket's blocks make exactly the row whose columns are the numbers that lie at the structures' offsets: local address and port at 64 and 18, remote at 48 and 16, the queues, user and named TCP state from the last block of their kind |
| PcbRows.StateExact | tools/procfsd.c:2061-2074 | each macOS connection state is shown as the Linux state of the same name, and any other number as 0 |
| PcbRows.ParserExact | tools/procfsd.c:2136-2225 | the parser builds the table with one such row for each socket of the wanted family, in order and numbered from 0, if and only if the trailer's count is harmless |
| PcbRows.OrdinaryCount | tools/net_pcb_abi.h:55-60 | a count that is no kind code in use is harmless |
| PcbTheorems.ExpectedRowsReadable | tools/procfsd.c:2147-2185 | there is one row for each matching socket and no row reads outside its own blocks |
| ProcArgs.FindArgv | kext/procfs_cmdline.c:194-207 | the arguments start behind the path, its NUL and all padding |
| ProcArgs.FindEnv | kext/procfs_cmdline.c:209-218 | the environment starts behind argc strings |
| ProcArgs.FindApple | kext/procfs_cmdline.c:220-238 | the apple strings start at the first string with the key |
| ProcArgs.ArgcReadsBack | kext/procfs_cmdline.c:188-192 | the four bytes of any int read back as it, whatever follows |
| ProcArgs.Locate | kext/procfs_cmdline.c:162-244 | for every input the offsets are ordered and in bounds and the three spans partition the tail, EINVAL if and only if the four count bytes are missing, all 0 or have the top bit set |
| ProcArgs.SplitExact | kext/procfs_cmdline.c:162-244 | for any number of arguments below 2^31 the offsets are the section starts if and only if argv[0] is not empty, no environment string has the key and apple[0] has it |
| ProcArgs.SplitUndoesFlatten | kext/procfs_cmdline.c:162-244 | splitting gives back exactly the encoded argument, environment and apple strings |
| Transfer.SliceExtends | tools/procfsd.c:3253-3265 | a slice is the next bytes of the listing, short only at its end |
| Transfer.Daemon.Serve | tools/procfsd.c:3851-3860 | a listing is rebuilt at offset 0 and only then, and a slice of the kept one is sent |
| Transfer.Daemon.ServeOthers | tools/procfsd.c:3851-3860 | after other readers' requests the listing kept is that of the last restart of its kind, if any |
| Transfer.RequestBlob | kext/procfs_ctl.c:252-280 | the reader gets the chunks up to the first short one, each cut from the listing in force at that request, or the error of the first request that fails |
| Transfer.RebuiltExact | tools/procfsd.c:3851-3860 | however often others have the listing rebuilt, the reader gets the one built for its first request if and only if each chunk is the one that listing has there |
| Transfer.UndisturbedWhole | kext/procfs_ctl.c:252-280 | without a restart of that kind it gets exactly its listing, in floor(length/2048) + 1 requests, whatever else is asked of the daemon |
| Transfer.ReadDuringRestart | tools/procfsd.c:3851-3860 | a reader of a two-chunk listing that another reader restarts gets the first chunk of one and the rest of the other |
| ArgFetch.MakeRoom | kext/procfs_cmdline.c:69-92 | the buffer keeps its bytes and has room for a payload unless the limit is reached or the needed allocation fails |
| ArgFetch.TakeReply | kext/procfs_cmdline.c:94-112 | a reply fits and extends the bytes held by the region's next ones |
| ArgFetch.FetchProcargs | kext/procfs_cmdline.c:56-123 | ENOMEM if and only if the first failing allocation is one that the fetch comes to need, else the first request's error, else EIO for an empty region, else what was fetched |
| ArgFetch.FetchedWhole | kext/procfs_cmdline.c:56-123 | without failures that is the region or its first 256 KiB |
| ArgFetch.FetchedIsPrefix | kext/procfs_cmdline.c:56-123 | whatever fails, it is a beginning of the region |
| MemRead.ServeMemory | tools/procfsd.c:3535-3558 | the page loop returns the readable run at the address, at most one payload |
| MemRead.ReadMemory | kext/procfs_mem.c:92-122 | a read returns exactly the first min(n, readable run) bytes, cut to f payloads when request f is the first to fail, and EIO if and only if the first request succeeds and the first wanted byte is unreadable |
| MapWalk.ServeMaps | tools/procfsd.c:3408-3454 | a batch is the next regions at or above the address, in order |
| MapWalk.ResumeAfter | kext/procfs_map.c:89-95 | the end of a region finds the next one, and wraps only at the last |
| MapWalk.WalkRegions | kext/procfs_map.c:60-97 | the callback sees every region once in order, also one that ends at 2^64, and exactly the first 32 f of them when request f is the first to fail; an error only if that is the first |
| MapWalk.SumSizes | kext/procfs_map.c:173-197 | the two 64-bit sums are, modulo 2^64, the regions' sizes and the resident pages of those not shared |
| MapWalk.TaskVmSizes | kext/procfs_map.c:205-224 | the sums are over all regions, or over the batches before the first failing request, and 0 with its error if that is the first |
| MapWalk.ResidentIsNotShared | kext/procfs_map.c:188-196 | the resident size is the resident pages of exactly the regions whose share mode is none of 4, 5 and 7 |
| MapWalk.TotalIsCovered | kext/procfs_map.c:177-180 | the total size is the number of addresses that the regions cover |
| MapWalk.ResidentSizeExact | kext/procfs_map.c:173-224 | if no region has more resident pages than it covers, the resident size is exact whenever the virtual size is, and no larger |
| MapWalk.VirtualSizeExact | kext/procfs_map.c:168-224 | the 64-bit sum of the regions' sizes is exact if and only if they do not fill the whole address space, and 0 if they do |
| Pagemap.ProbedIsEntry | tools/procfsd.c:3479-3513 | not probing the hole below the next region loses nothing |
| Pagemap.PageBytes | tools/procfsd.c:3496-3511 | in the eight bytes of a page bit 63 says present, 62 paged out, 61 file-backed and 55 dirty, and all others are 0 |
| Pagemap.ServePagemap | tools/procfsd.c:3469-3514 | a reply holds the entries of the pages from the address on, and is empty if and only if no region follows |
| Pagemap.ReadPagemap | kext/procfs_mem.c:139-202 | every byte read at file offset o is byte o mod 8 of the entry of page o / 8, and the amount is what the requests before the first that fails, finds no region or is not needed bring |
| Pagemap.NothingMappedAfter | kext/procfs_mem.c:167-197 | no page is mapped where reading stopped |
| Pagemap.ReadsAgree | kext/procfs_mem.c:139-202 | any two reads agree on every offset both cover |
| RtcDate.CivilIsDate | kext/procfs_linux.c:1067-1077 | the computed date is a date of the calendar and names the day asked for, counted year by year and month by month |
| RtcDate.EveryDateReached | kext/procfs_linux.c:1067-1077 | every date from 1970 on is the result for its own day |
| RtcDate.NextDay | kext/procfs_linux.c:1067-1077 | consecutive days are consecutive dates |
| RtcDate.DayOrder | kext/procfs_linux.c:1067-1077 | later days have later dates |
| RtcDate.RtcReadsBack | kext/procfs_linux.c:1062-1077 | the time shown is valid (section 3.2.1 of ISO 8601:2004) and converts back to the same seconds |
| RtcDate.EveryTimeShown | kext/procfs_linux.c:1062-1077 | every valid time is the one shown for its own seconds |
| Buddy.FillCounts | kext/procfs_linux.c:750-756 | the counts weighted by block size make up the free pages and those below the top order are at most 1 |
| Buddy.FewestBlocks | README.md:453-457 | no other choice of counts with the same sum uses as few blocks, so memory is maximally coalesced |

## Left out

- The user interface, the mount helper and the daemon's start-up: no deep property.
- The builders of listings from IOKit, libproc and sysctl data, and all text formatting: foreign data and layout.
- kext/procfs_kern.c and the walk over kernel threads: raw kernel addresses.
- `release_node` and unmounting.
- Uniqueness of file numbers: the code says that they may collide.
- Failing allocations while a directory is read.
- Several daemons at once, and requests before the control is registered: the bridge keeps one unit and one flag.
- Faults of `uiomove`, and failures of the node cache during a lookup.
- Note and signal parsing, interrupt masks and the symbol search: short or standard.
- `procfs_smaps_cb`, `procfs_rollup_cb`, reading sysctl values and the boot id: sums and formatting.
- Bridge.OwnPayload: holds under the assumptions listed above on complete replies and on the age of requests.
- Sysctl.FindIffListed: asks for distinct oid addresses above the synthetic ids, distinct visible sibling names without dots, and a visible `kern` with children but without a child `random`; an address is followed by searching the tree.
- Transfer.RequestBlob: asks that some request would fail or get a short chunk; a listing that grows faster than it is read is read for ever.
- NodeCacheProgress.NeverStuck: that a call can return, not that a fair scheduler makes it; retries after failed validations have no bound.
- Pagemap.ReadPagemap: asks that a query of a page outside every region reports nothing.
- Numbers.Atoi: signed overflow, undefined in C, is taken to wrap around.
- Structure.StructureInit: the kinds of file that differ only in their handler are one kind, and a failing allocation is not modelled.
