# Yak kernel: verification model

Yak is a small kernel. This project models the parts of it whose state is hardest
to keep right, as Dafny code in the form the kernel has (classes whose methods
change fields, loops where the kernel has loops, protocols as steps of any number
of threads), and proves what they promise. `dafny verify dfyconfig.toml` checks
all of it.

- **Copy-on-write memory** (`VmState`, `EagerMemory`, `EagerRuns`, `VmSteps`, `VmLoops`,
  `VmSystem`, `WriteGrant`, `AmapIndex`, `AmapRadix`, `LongMappings`). Map entries,
  page table entries, amaps, anons, backing objects and pages, with the fault,
  fork, carve, protect, unmap and map operations on them. The main theorem is a
  refinement: in every run each address space sees what it would see if fork copied
  all memory at once (`VmSystem.Vm.Run`). Slots are keyed by the three table indices
  the kernel computes; `AmapRadix` proves the table walks and the triple loops.
- **Page tables** (`PageTables`, `PteBits`, `SpaceTables`). The multi-level tables
  against a flat translation, the encoding of an entry, and the tables of a space
  against the page table entries of the copy-on-write model.
- **Address ranges** (`AddressRange`). The choice of a range for a mapping.
- **Red-black tree** (`RbShape`, `RbTree`). The parent-pointer tree: pointers
  represent a tree of values with a hole, on which the repairs are proved.
- **Page allocator** (`BuddyBlocks`, `BuddyZone`), **vmem** (`VmemTags`,
  `VmemSteps`, `VmemArena`, and `VmemTiers` for arenas that import from one source) and **kmem** (`KmemSizing`, `KmemSlab`, `KmemCache`,
  `BufctlTable`). Each keeps a global invariant: tiling by merged buddies, tiling of
  spans by boundary tags, and each object in one place.
- **Blocking and locking** (`WaitProtocol`, `WaitTokens`, `WaitEvents`, `WaitSystem`,
  `MutexProtocol`, `MutexStranding`, `RwLock`). The two-phase wait with timeouts,
  semaphores and events, the sleeping mutex on top of it, and the reader-writer lock, one step for
  each critical section or atomic operation.
- **Scheduler queues** (`RunQueues`, `Scheduler`) and **hash table** (`HashTable`).
- **Kconfig** (`KconfigExpr`, `KconfigGrammar`, `KconfigValues`, `KconfigMeaning`,
  `KconfigLaws`, `KconfigScratch`, `KconfigCache`, `KconfigStale`). The expression
  printer and parser with its grammar, what values mean, and the value caches with
  their invalidation.

`Arithmetic`, `Lists` and `Wrappers` hold what several modules share.

## Model

| member | source | states |
|---|---|---|
| VmSystem.Vm.Run | kernel/vm/map.c:580-730 | For every sequence of map, unmap, protect (not granting write), fork, load and store operations over any number of address spaces, where a mapping may be of a new object or of the object behind a page mapped before in any space, the reports and the memory every space sees are those of a run of the eager model, in which every mapping is a copy of its own and fork copies all memory at once; `EagerRuns` says what every such run reports; the invariant on reference counts, page ownership and page table entries holds at the end. |
| VmSystem.Vm.Perform | kernel/vm/map.c:268-730 | One operation, admissible or skipped, is one step of the eager model: the status of the eager step (success for every unmap and fork, and for a protect that is not denied), the word read, and the memory afterwards. |
| EagerRuns.FailureChangesNothing | kernel/vm/map.c:268-730 | In every run an operation other than vm_protect that does not succeed changes nothing, unmaps and forks that are not skipped succeed, and an operation is skipped exactly when it is not admissible. |
| EagerRuns.StepDetermined | kernel/vm/map.c:268-730 | Memory and operation determine the status, the whole report and the memory afterwards but for the identifier of a new object; the one exception is access to a page with write and no read permission. |
| EagerRuns.RunDetermined | kernel/vm/map.c:580-730 | So two runs of the same operations from one memory, with the same identifiers for new objects and without such an access, have the same reports and memories. |
| EagerRuns.AllowedExact | kernel/vm/map.c:251-266 | vm_check_prot allows a protection exactly when its rank (write 3, execute 2, read 1, none 0) is at most that of the maximum. |
| EagerRuns.ProtectRefused | kernel/vm/map.c:268-336 | vm_protect is denied exactly when, without set-max, some mapped page of the range has a maximum of lower rank; the pages before the first such one, or all, get the protection, and nothing else of any page changes. |
| EagerRuns.RunWithinMax | kernel/vm/map.c:251-336 | In every memory of every run the rank of each page's protection is at most that of its maximum. |
| EagerRuns.StepKeepsMax | kernel/vm/map.c:268-336 | Only set-max, unmapping and mapping change the maximum and the backing of a page. |
| EagerRuns.RunKeepsWord | kernel/vm/map.c:580-730 | In every run a word of a mapped page keeps its value until it is stored to or the page is unmapped or mapped over, whatever other spaces do. |
| EagerRuns.LoadAfterStore | kernel/vm/fault.c:59-166 | A successful load reports the last value stored to that word of that space. |
| EagerRuns.LoadAfterFork | kernel/vm/map.c:580-730 | After a fork, and until it is stored to, a load in the new space reports the word the old space had at the fork, whatever the old space stores later. |
| EagerRuns.LoadAfterMap | kernel/vm/map.c:409-465 | After a mapping a load reports the word of the object page at the offset of the mapping. |
| EagerRuns.AccessAfterUnmap | kernel/vm/map.c:338-407 | After an unmap every load from the range and store to it reports NoEnt until the page is mapped again or the space is forked into, and no other page is changed. |
| VmSystem.Vm.Fault | kernel/vm/fault.c:59-166 | A fault changes no space's view of memory. It fails exactly when the page is unmapped, write is forbidden or read is forbidden; after a success the entry permits the access. No other page table entry changes; a read fault copies nothing; a write to an anon nobody else holds copies nothing; a write to a shared anon replaces it in this one amap slot only. |
| VmSystem.Vm.ReadWord | kernel/vm/fault.c:22-171 | A load, with at most one fault, leaves the memory alone and reports the word the eager memory holds there, or the eager model's error. |
| VmSystem.Vm.WriteWord | kernel/vm/fault.c:114-155 | A store, with at most one fault, changes that word of that page of that space in the eager memory and nothing else, or fails with the eager model's error. |
| VmSystem.Vm.Fork | kernel/vm/map.c:674-730 | Forking a space whose entries are all VM_INHERIT_COPY objects into an empty space gives the memory that copying every page would give, although pages are only shared and write-protected. |
| VmSystem.Vm.ForkEntry | kernel/vm/map.c:686-726 | One entry of the fork: the new entry shows a copy of the range, no present page of the old entry stays writable, no entry gains write permission, and no other entry changes. |
| VmSystem.Vm.AmapCopy | kernel/vm/amap.c:156-211 | The new amap holds the same anons at the same indices, and each anon's count grows by one for the slot added. |
| VmSystem.Vm.FreeAll | kernel/vm/amap.c:45-74 | Every slot of the amap lets go of its anon; an anon without holders is freed with its page. |
| VmSystem.Vm.Carve | kernel/vm/map.c:170-251 | Splitting an entry at both ends of a range changes no address's object, offset, amap or protection, keeps all other entries, and leaves an entry that is exactly the range; the references of the pieces are counted. |
| VmSystem.Vm.Unmap | kernel/vm/map.c:338-407 | Exactly the pages of the space in [lo, hi) disappear from the memory, for any entries that overlap the range, and references and pages are let go. |
| VmSystem.Vm.UnmapEmpty | kernel/vm/map.c:344-404 | With length 0: nothing changes if the address lies strictly inside no entry; otherwise the rest of that entry is unmapped, the entry ends at the address, one amap reference and one object reference are never dropped, and the invariant fails. |
| VmSystem.UnmapEmptyExample | kernel/vm/map.c:344-404 | Two pages mapped, nothing unmapped at the second: the second page is gone and the invariant does not hold. |
| VmSystem.Vm.Protect | kernel/vm/map.c:268-336 | The new protection holds for exactly the mapped pages of the range up to the first one whose maximum has a lower rank (all, with set-max), and the error is reported exactly when there is one; granting write needs the condition of WriteGrant. |
| VmSystem.Vm.MapFixed | kernel/vm/map.c:441-465 | VM_MAP_FIXED over copy-on-write state, for a new or an existing object: refused exactly when some page of the range is mapped and overwriting is not asked for, with nothing changed; otherwise the memory is that of unmapping the range and mapping the object, whatever its length, and the invariant holds exactly up to 2^27 pages. A new object is behind no other page. |
| VmSystem.Vm.Map | kernel/vm/map.c:580-621 | Mapping a free range of any length adds the pages of the object, as the pager gives them, and nothing else; the invariant, under which copying lazily stays right, is kept exactly by mappings of at most 2^27 pages. |
| VmSystem.Vm.LookupEntry | kernel/vm/map.c:623-638 | The lookup finds an entry exactly for mapped addresses, and it is the only entry over the address. |
| VmLoops.NeighboursFree | kernel/vm/map.c:455-459 | The test of the two neighbouring entries holds exactly when some page of the range is mapped. |
| WriteGrant.GrantExact | kernel/vm/map.c:318-331 | After vm_protect grants write to an entry, every store through a page present in it agrees with the eager model if and only if each such page is an anon's and no other mapped page of any space shows it. |
| WriteGrant.SoleCount | kernel/vm/map.c:318-331 | An anon with one reference is shown by no other page, so a count of 1 at every present page is enough. |
| WriteGrant.SharedLeaks | kernel/vm/map.c:326-330 | One store of a different word through a present page that is not solely this page's view already disagrees with the eager model. |
| WriteGrant.PageLeaks | kernel/vm/map.c:326-330 | The store appears at every other page that shows the same physical page. |
| WriteGrant.ObjectLeaks | kernel/vm/map.c:326-330 | Where no anon is present, the store changes the page of the backing object away from what the pager gave. |
| WriteGrant.InvisibleHolder | kernel/vm/map.c:326-330 | A reachable shape in which the anon has two holders and the grant still agrees, because the other slot is outside every entry: the count alone is not the condition. |
| WriteGrant.WriteGrantExample | kernel/vm/map.c:326-330 | The state after map, store and fork meets the invariant, and granting write to the parent breaks the agreement. |
| AmapIndex.Aliases | kernel/vm/amap.c:101-106 | Two page offsets get the same three indices exactly when they differ by a multiple of 2^27. |
| AmapIndex.SlotsDistinct | kernel/vm/amap.c:101-106 | The slots of a mapping are pairwise distinct exactly when it is no longer than 2^27 pages. |
| LongMappings.LongMappingBreaks | kernel/vm/amap.c:101-106 | For every longer mapping, a store to its first page is seen 2^27 pages further on, so the memory no longer agrees with the eager model. |
| AmapRadix.Amaps.Lookup | kernel/vm/amap.c:94-141 | The walk over three levels ends at the table of the slot, creating missing tables when asked, and changes no slot of any amap. |
| AmapRadix.Amaps.Fill | kernel/vm/amap.c:213-229 | Exactly the slot of the offset gets the anon, in this amap and no other, with one reference. |
| AmapRadix.Amaps.Copy | kernel/vm/amap.c:156-211 | The triple loop gives a new amap with the same anon at each of the 2^27 indices, leaves all others alone, and adds exactly one reference for each occupied slot. |
| AmapRadix.Amaps.FreeAll | kernel/vm/amap.c:45-74 | The triple loop empties this amap, leaves all others alone, and drops exactly one reference for each occupied slot. |
| AmapRadix.StoreShows | kernel/vm/amap.c:116-140 | A store in a last-level table changes one slot of one amap, because tables are never shared. |
| PageTables.Pmap.PteFetch | kernel/vm/generic_pmap.c:77-117 | The walk reaches the table of the asked level, never meeting a large page, allocates what is missing when asked, and changes no translation. |
| PageTables.StoreElsewhere | kernel/vm/generic_pmap.c:77-117 | A store in an entry changes the translation of no page outside that entry's block. |
| PageTables.Pmap.Map | kernel/vm/generic_pmap.c:218-234 | Exactly the pages of one block, of any level, translate to the frame plus their offset; every other translation stays. |
| PageTables.Pmap.Unmap | kernel/vm/generic_pmap.c:236-246 | Exactly the pages of one block stop translating. The result is -1 exactly when there is no table for the entry, and what the entry leads to otherwise: the frame of a small page that was mapped, 0 for one that was not. |
| PageTables.Pmap.UnmapRange | kernel/vm/generic_pmap.c:282-298 | Exactly the pages of the range stop translating. |
| PageTables.Pmap.UnmapRangeAndFree | kernel/vm/generic_pmap.c:300-333 | Exactly the pages of the range stop translating, the allocator is handed what unmapping each of them returned, in order, and that is exactly the frames of the range if and only if every page of it was mapped. |
| PageTables.UnmapAbsent | kernel/vm/generic_pmap.c:236-333 | A page that is never mapped: unmapping it gives -1 before its neighbour is mapped and 0 afterwards, and frame 0 is then freed. |
| PageTables.Pmap.ProtectRange | kernel/vm/generic_pmap.c:256-280 | At any level: where the entries of the range are pages or empty, exactly the translations in the range get the new attributes, with their frames unchanged; a directory becomes a large page over its table; nothing else changes. |
| PageTables.Pmap.LargeMapRange | kernel/vm/generic_pmap.c:335-401 | Every page of the range translates to the base plus its offset, nothing else changes, and the large and small pages used tile the range, aligned in both address spaces, each the largest that fits. |
| PteBits.AddressRoundTrip | kernel/arch/x86_64/include/yak/arch-mm.h:55-147 | The frame read back from an entry is the frame put in, exactly unless it is a large write-combining page whose bit 12 was clear. |
| PteBits.ProtectionRoundTrip | kernel/arch/x86_64/include/yak/arch-mm.h:55-147 | An entry is present exactly for a page that may be read or written, and each of its write, user, no-execute and global bits is set exactly when the mapping asks for it; entries for tables are present, writable, for the user and executable. |
| PteBits.KindRoundTrip | kernel/arch/x86_64/include/yak/arch-mm.h:55-147 | Large pages are recognised exactly above level 0, directories never, and an entry is zero only for one useless mapping of frame 0. |
| PteBits.TypesEncoded | kernel/arch/x86_64/include/yak/arch-mm.h:55-147 | Two memory types have the same bits exactly when they are equal or are uncached and write-through. |
| SpaceTables.HardwareSees | kernel/vm/generic_pmap.c:77-117 | What the hardware finds by walking the tables of a space is a page with the eager memory's contents, with no more permission than that memory has. |
| SpaceTables.WritableAlone | kernel/vm/generic_pmap.c:77-117 | A frame writable through one space's tables is at no other page of that or another space. |
| SpaceTables.MapPage | kernel/vm/generic_pmap.c:218-234 | Mapping a small page keeps the tables equal to the flat entries with that one entry set. |
| SpaceTables.ProtectPages | kernel/vm/generic_pmap.c:256-280 | The tables follow the flat entries through a protection change of a range. |
| SpaceTables.UnmapPages | kernel/vm/generic_pmap.c:282-298 | The tables follow the flat entries through the removal of a range. |
| AddressRange.AddressMap.AllocRange | kernel/vm/map.c:409-544 | A range that is found lies within the bounds, is claimed, and adds exactly its addresses; without FIXED it touched no entry. FIXED fails exactly outside the bounds or over something mapped that may not be overwritten. Without FIXED the result is no space exactly when nothing fits, unless the search crashes, and then it is the least range that fits from the hint on, or the least of all if there is none or no entry lies below the hint; the hint itself is taken exactly when HintTaken says. |
| AddressRange.AddressMap.Search | kernel/vm/map.c:467-533 | Crashes exactly under the condition Crashes; otherwise finds a range exactly when some range fits anywhere, and then it is the least one that fits at or above the clamped hint if an entry lies below the hint, or else the least of all. |
| AddressRange.AddressMap.Scan | kernel/vm/map.c:500-533 | The loop over the gaps, with its wrap-around, ends; it skips no gap that is large enough, returns the first one's place when that has room at the hint, takes the least place from the hint on, then the least of all, and reports no space only when nothing fits anywhere. |
| AddressRange.LowestWithoutHint | kernel/vm/map.c:467-533 | Without a hint the range chosen has the least base of all that fit. |
| AddressRange.HintAbove | kernel/vm/map.c:484-493 | One entry at the bottom, a hint above it that is free: the search crashes. |
| AddressRange.NoRoom | kernel/vm/map.c:500-514 | One entry with too little room on both sides, where nothing fits: the search crashes and does not say so. |
| AddressRange.HintForgotten | kernel/vm/map.c:487-494 | A free hint below the only entry: another range is returned. |
| AddressRange.AddressMap.Claim | kernel/vm/map.c:441-465 | With FIXED and overwriting, exactly the addresses of the range become free. |
| AddressRange.ClearedMapped | kernel/vm/map.c:338-407 | Clearing a range of the map unmaps exactly the addresses in it. |
| AddressRange.NeighboursDecide | kernel/vm/map.c:455-459 | The two neighbours of an address decide whether a range fits. |
| RbTree.RbRoot.Insert | kernel/core/subr_tree.c:400-438 | Insert keeps search order, parent links, no red node with a red child and equal black heights, and puts exactly the element at one place of the in-order sequence, which lists the nodes of the tree; an equal key is returned and nothing changes. |
| RbTree.RbRoot.Remove | kernel/core/subr_tree.c:307-398 | Remove keeps the same four properties and takes exactly the element out of the in-order sequence, which lists the nodes of the tree. |
| RbTree.RbRoot.InsertColor | kernel/core/subr_tree.c:165-215 | From a tree whose only fault is a red node under a red parent, rotations and recolourings give a red-black tree with the same sequence and the same nodes. |
| RbTree.RbRoot.RemoveColor | kernel/core/subr_tree.c:217-305 | From a tree one black node short on one path, the four cases give a red-black tree with the same sequence and the same nodes. |
| RbTree.RbRoot.RotateLeft | kernel/core/subr_tree.c:97-129 | The pointers after the rotation represent the rotated tree at the same place. |
| RbTree.RbRoot.RotateRight | kernel/core/subr_tree.c:131-163 | The mirror image. |
| RbTree.RbRoot.Find | kernel/core/subr_tree.c:440-460 | Finds an element with the key, or none has it. |
| RbTree.RbRoot.NFind | kernel/core/subr_tree.c:462-483 | Finds the first element, in order, whose key is at least the given one. |
| RbTree.RbRoot.Next | kernel/core/subr_tree.c:485-507 | The element that follows in order, or NULL after the last. |
| RbTree.RbRoot.Prev | kernel/core/subr_tree.c:509-531 | The element that precedes in order, or NULL before the first. |
| RbShape.LogarithmicHeight | kernel/core/subr_tree.c:165-305 | A tree with the restored properties has height h with 2^((h+1)/2) at most n+1. |
| RbShape.FarRedOk | kernel/core/subr_tree.c:253-298 | The last rotation of a removal settles the tree: red-black, same sequence. |
| RbShape.RedSiblingOk | kernel/core/subr_tree.c:226-268 | With a red sibling, the rotation keeps sequence and shortage and gives a black sibling. |
| RbShape.SuccessorOrder | kernel/core/subr_tree.c:317-355 | Putting the successor in the place of a node with two children gives the sequence without the node. |
| RbShape.SuccessorBalance | kernel/core/subr_tree.c:317-355 | What replaces the successor is balanced, and short exactly by the successor's colour. |
| BuddyZone.Zone.ZoneAlloc | kernel/vm/pmm.c:290-356 | Succeeds exactly when some free block has at least the order; takes the head of the first non-empty list, and the outstanding blocks gain exactly this one; the count of free pages falls by its size. |
| BuddyZone.Zone.ZoneFree | kernel/vm/pmm.c:358-431 | Succeeds exactly unless the climb meets a buddy that is dereferenced and not freed yet; then the outstanding blocks lose exactly this one, all free buddies are merged, and the count rises by its size. |
| BuddyZone.Zone.MergeUp | kernel/vm/pmm.c:406-420 | One merge: the buddy leaves its list and the lower of the two heads a block of the next order. |
| BuddyZone.Zone.SplitDown | kernel/vm/pmm.c:330-347 | Splitting to the asked order leaves the halves free and the block outstanding. |
| BuddyZone.Zone.AddRegion | kernel/vm/pmm.c:195-288 | Exactly the pages of the region above the reserved ones are added, in greedy aligned blocks, and nothing outstanding changes. |
| BuddyZone.Zone.Release | kernel/vm/page.c:37-48 | When no other block is between its last dereference and its free, dropping the last reference frees the block without a panic; dropping another changes no block. |
| BuddyZone.BuddyTest | kernel/vm/pmm.c:376-404 | Although interior pages keep stale orders, the test on the buddy's page holds exactly when the buddy is a block of that order without references, and it is on the list exactly when it is free. |
| BuddyZone.NoLimbo | kernel/vm/pmm.c:382-404 | If no other block is between its last dereference and its free, no climb meets one, so the panic cannot happen. |
| BuddyZone.MergePanic | kernel/vm/pmm.c:382-404 | A run from an empty zone: two buddies allocated, the one dereferenced for the last time, the other freed, and the climb panics. |
| BuddyZone.LookupExact | kernel/vm/pmm.c:28-49 | The region lookup is right exactly for addresses that are no region's end. |
| BuddyBlocks.Canonical | kernel/vm/pmm.c:358-431 | The free blocks are determined by the outstanding ones: two fully merged tilings with the same outstanding blocks are equal, so the order of frees does not matter. |
| BuddyBlocks.NothingOutstanding | kernel/vm/pmm.c:358-431 | Nothing is outstanding exactly when the blocks are those that were first handed in. |
| BuddyBlocks.FreeRunIffFreeBlock | kernel/vm/pmm.c:290-356 | Some aligned run of pages of an order is wholly free exactly when some free block has at least that order. |
| BuddyBlocks.BuddyIsHead | kernel/vm/pmm.c:369-385 | The buddy of a block below its region's order is itself the head of a block of at most that order. |
| WaitProtocol.RunInv | kernel/core/wait.c:270-379 | In every state of every interleaving of waits, timers, semaphore signals, alarms, clears and polls: an object's list holds exactly the blocks that wait on it, no token lies unused while a thread waits, a wait has at most one verdict, and its timer runs only while the wait lasts. |
| WaitProtocol.NextInv | kernel/core/wait.c:270-379 | Each critical section keeps that invariant. |
| WaitProtocol.SemInv | kernel/core/semaphore.c:11-22 | So does a semaphore signal, which becomes a token exactly when it wakes nobody. |
| WaitProtocol.SignalGoesTo | kernel/core/object.c:17-56 | A signal resolves exactly the first waiting thread that is not resolved already; the stale blocks before it leave the list. |
| WaitProtocol.SignalIs | kernel/core/object.c:17-56 | What the loop does, for one or for all: it takes a prefix off the list, resolving each block there that was not resolved. |
| WaitProtocol.ReturnedClean | kernel/core/wait.c:316-352 | A wait that returned with a result had exactly one verdict, the one it returned; its timer is not pending, and no list holds its block. |
| WaitProtocol.SleeperFound | kernel/core/wait.c:318-346 | A blocked thread is unresolved, on its object's list, the object has no token, and its timer is running if it has one. |
| WaitTokens.SemaphoreConserved | kernel/core/semaphore.c:11-22 | After any run from a first state: tokens at the start plus signals equal the tokens left, the successful waits that returned, those that are about to, and the successful polls. |
| WaitTokens.TokensConserved | kernel/core/object.c:17-56 | The same for every synchronisation object with alarms and clears, counting what the steps did to the threads and not what a counter says. |
| WaitTokens.ResolvedOnce | kernel/core/wait.c:270-379 | After any run, the waits a thread began are as many as the verdicts it got, and one more exactly while its wait is unresolved; and as many as the waits that ended, and one more exactly while it is in one. |
| WaitTokens.ReturnsVerdict | kernel/core/wait.c:316-352 | A wait ends only in its last step, with a result that is its one verdict. |
| WaitTokens.StepConserves | kernel/core/object.c:17-56 | Each step gives an object's tokens to as many threads, resolved in that step, as it takes from it. |
| WaitTokens.WinnersReturn | kernel/core/wait.c:316-352 | Each thread resolved successfully stays so until its wait returns success. |
| WaitTokens.AlarmLost | kernel/core/kevent.c:13-36 | For a synchronisation event, waking one or all: the signal is neither kept nor given to a thread exactly when the event is unsignaled and has waiters, all of them resolved already. |
| WaitSystem.Kernel.KobjectSignalLocked | kernel/core/object.c:17-56 | The loop in place computes that function and returns how many threads it woke; the assertion of the wake-up never fails. |
| WaitSystem.Kernel.CheckObject | kernel/core/wait.c:300-316 | Taking a token or queueing the block is the step of the protocol. |
| WaitSystem.Kernel.EventAlarm | kernel/core/kevent.c:13-36 | The alarm in place, on both kinds of event, is the step of the protocol. |
| WaitEvents.AlarmNotifies | kernel/core/kevent.c:13-36 | After the alarm of a notification event its count is positive and every thread that waited unresolved on it has its success; an alarm of a signaled one changes nothing. |
| WaitEvents.SignalStays | kernel/core/kevent.c:13-43 | No step but the clear changes the count of a signaled notification event. |
| WaitEvents.CheckSucceeds | kernel/core/wait.c:300-316 | A check of one succeeds at once and leaves the count as it is; so does a poll. |
| WaitEvents.NotifiedUntilCleared | kernel/core/kevent.c:13-43 | In every run, from an alarm of a notification event until the next clear the count stays positive and the same, and no thread waits unresolved on the event. |
| WaitEvents.SuccessHasCause | kernel/core/object.c:17-56 | A wait on an object gets its success only from its own check while the object has a count, or from a signal or an alarm of that object that found it unresolved. |
| WaitEvents.TimeoutsWereSet | kernel/core/wait.c:270-353 | In every run only a wait that was given a timeout times out. |
| WaitSystem.Kernel.TimerFires | kernel/core/timer.c:97-137 | An expiry in place is the step of the protocol, which resolves its thread with a timeout unless a signal came first. |
| MutexProtocol.RunKeepsWakeups | kernel/core/mutex.c:22-74 | In every run in which blocking waits are infinite (polling waits may time out), while the mutex is free and some thread waits, the event is signaled or some thread is about to alarm it or to try the lock. |
| MutexProtocol.NoLostStep | kernel/core/mutex.c:22-71 | Every step but the alarm keeps that, with timeouts or without, blocking or polling. |
| MutexProtocol.RingExact | kernel/core/mutex.c:64-71 | The alarm of a release loses the wakeup exactly when the mutex is free, the event is unsignaled, its list holds only threads that timed out, some thread waits, and nobody else is on the way. |
| MutexProtocol.SleeperHasHelper | kernel/core/mutex.c:22-74 | While the mutex is free and a thread sleeps, another one is on its way to wake it or to take the mutex. |
| MutexProtocol.MutualExclusion | kernel/core/mutex.c:31-38 | At most one thread holds the mutex, and it is the recorded owner. |
| MutexStranding.LostWakeup | kernel/core/mutex.c:30-47 | A run from the first state, with a timed and an untimed waiter, whose alarm is lost. |
| MutexStranding.HungIs | kernel/core/mutex.c:30-47 | In its last state the mutex is free, a thread without a timeout sleeps on it, and only a new acquisition is possible. |
| MutexProtocol.Mutex.TryOnce | kernel/core/mutex.c:31-42 | One compare-and-swap in place, and the wait after the last, is the step of the protocol. |
| MutexProtocol.Mutex.Release | kernel/core/mutex.c:60-73 | The compare-and-swap of the release cannot fail. |
| RwLock.WriterExcludes | kernel/core/rwlock.c:23-150 | In any interleaving, while a thread has set the exclusive bit no other thread has it or a shared lock. |
| RwLock.WordExact | kernel/core/rwlock.c:23-150 | The word is the number of readers or exactly the exclusive bit, it never wraps, and it is 0 exactly when nobody has the lock. |
| RwLock.Lock.CasUpgrade | kernel/core/rwlock.c:127-150 | The upgrade succeeds exactly when the word is 1, the caller being the only reader, and then nobody owns the lock. |
| RwLock.Lock.CasShared | kernel/core/rwlock.c:40-46 | Adding a reader by compare-and-swap never reaches the exclusive bit. |
| RwLock.Lock.StoreOwner | kernel/core/rwlock.c:88-97 | The assertion that the owner is NULL after a winning compare-and-swap never fails. |
| VmemArena.Arena.XAlloc | kernel/vm/vmem.c:495-632 | For every size, with bounds and a source together: breaks exactly for size 1, for a chosen segment that leaves a piece of one byte, and for bounds where the source would be asked, so never on multiples of a quantum of two or more without such bounds; otherwise fails exactly when no vacant segment has room within the bounds and no source gives one. An allocation lies within the bounds and was vacant, live allocations gain exactly this one, vacant addresses lose exactly it, spans gain exactly what was imported, instant fit takes a segment of the lowest list that has one with room and best fit a smallest one; all invariants hold. A failure loses two tags for ever. |
| VmemArena.OneByteLeft | kernel/vm/vmem.c:238-260 | Fifteen bytes out of a span of sixteen: the last byte would go on the list before the first. |
| VmemArena.Arena.XFree | kernel/vm/vmem.c:647-709 | Live allocations lose exactly this one, its addresses become vacant and are merged with vacant neighbours, and an imported span leaves and goes back to its source exactly when this was its only allocation. |
| VmemArena.Arena.Search | kernel/vm/vmem.c:525-586 | Finds a segment exactly when one has room; with best fit none with room is smaller, and with instant fit none with room is in a lower list: each reaches every power of two that the chosen one does. |
| VmemArena.RoomExact | kernel/vm/vmem.c:525-586 | Some segment has room exactly when some span has a stretch of vacant addresses as long as the request within the bounds: merging never leaves such a stretch in two segments. |
| VmemArena.LowestCut | kernel/vm/vmem.c:541-570 | A segment has room exactly when the request fits in it within the bounds, and the start chosen is the lowest address where it does. |
| VmemArena.ClassIs | kernel/vm/vmem.c:241-255 | Free list k holds exactly the sizes from 2 to the k + 1 up to, not including, 2 to the k + 2. |
| VmemArena.Arena.LookupAlloc | kernel/vm/vmem.c:282-302 | Finds the allocated tag at an address exactly when there is a live allocation. |
| VmemArena.Arena.AddLocked | kernel/vm/vmem.c:304-364 | A new span adds exactly its addresses as one vacant segment, in address order. |
| VmemArena.Arena.SplitSeg | kernel/vm/vmem.c:457-491 | Cutting a segment leaves the remainders vacant and filed by size; unused tags go back. |
| VmemArena.Arena.Coalesce | kernel/vm/vmem.c:663-690 | Merging with both neighbours changes neither what is vacant nor what is allocated, and leaves no two vacant neighbours. |
| VmemArena.ReturnedIs | kernel/vm/vmem.c:692-705 | The test on the tag before the merged segment holds exactly when the span has no other allocation. |
| VmemArena.ClassBound | kernel/vm/vmem.c:241-255 | The freelist index of a segment of size 2 up to the address space is in range. |
| VmemTags.SegmentsApart | kernel/vm/vmem.c:304-364 | No two segments of an arena contain the same address. |
| VmemTags.SpanCovered | kernel/vm/vmem.c:304-364 | The segments of a span leave no hole in it. |
| VmemTags.CutRightOk | kernel/vm/vmem.c:457-491 | Cutting off the right part keeps the queue of tags: links, order of spans, tiling. |
| VmemTags.JoinLeftOk | kernel/vm/vmem.c:665-675 | So does joining a segment to the one before it. |
| VmemTags.DropSpanOk | kernel/vm/vmem.c:698-703 | So does removing a span with its one segment. |
| VmemSteps.LiveApart | kernel/vm/vmem.c:495-632 | Live allocations are disjoint, and disjoint from what is vacant. |
| VmemSteps.CarveEffect | kernel/vm/vmem.c:457-491 | Seen from outside, a cut makes exactly the allocated range unavailable. |
| VmemTiers.Tiers.Alloc | kernel/vm/vmem.c:586-614 | Any number of arenas over one source: an arena in need imports what the source allocates for it, which is shown to overlap none of its spans; the result and the new allocations are exact, those of the source included (one of the rounded size, at the address returned, exactly when the arena had no room), and every span of every arena stays a live allocation of the source that no other arena has. |
| VmemTiers.Tiers.Free | kernel/vm/vmem.c:692-705 | Freeing the last allocation of an imported span frees exactly that span in the source, and keeps the same. |
| VmemTiers.AllocationsApart | kernel/vm/vmem.c:495-709 | So live allocations of any two of the arenas have no address in common, and each lies in a live allocation of the source. |
| KmemCache.Cache.Alloc | kernel/vm/kmem_slab.c:658-722 | Whatever the magazines hold, the object was not handed out, and afterwards exactly it is handed out as well; it is the last round of the loaded magazine, or of the previous one, or of the first full one of the depot, and the slabs are asked exactly when none of them has a round. |
| KmemCache.Cache.Free | kernel/vm/kmem_slab.c:576-656 | Exactly this object stops being handed out; it becomes the round the next allocation gets, unless no magazine takes it and no new one is to be had: exactly then it goes back to its slab. |
| KmemCache.Cache.OnePlace | kernel/vm/kmem_slab.c:492-722 | Every object is in one place: handed out, in one magazine below its round count, or on its slab's freelist. |
| KmemCache.Cache.DepotIs | kernel/vm/kmem_slab.c:549-564 | The full list holds only full magazines and the free list only empty ones. |
| KmemCache.LoadFullOk | kernel/vm/kmem_slab.c:566-574 | Loading a full magazine and retiring an empty one keeps every magazine at one place, with the rounds that place implies. |
| KmemCache.LoadFreeOk | kernel/vm/kmem_slab.c:566-574 | The same for loading an empty magazine and retiring a full one. |
| KmemSlab.SlabLayer.SlabAlloc | kernel/vm/kmem_slab.c:492-526 | Hands out a chunk that was not, and keeps each slab on the list that matches its free count. |
| KmemSlab.SlabLayer.SlabFree | kernel/vm/kmem_slab.c:528-547 | Takes exactly that chunk back, first on its slab's freelist, and keeps the lists. |
| KmemSlab.SlabLayer.CreateSlab | kernel/vm/kmem_slab.c:402-490 | A new slab has all its chunks free and is first on the empty list; no other slab changes. |
| KmemSlab.ChunksApart | kernel/vm/kmem_slab.c:421-481 | Chunks lie within their slab whatever its color, and do not overlap. |
| KmemSlab.SlabLayer.Alloc | kernel/vm/kmem_slab.c:697-722 | The first free chunk of the first partial slab, else of the first empty one, else the last chunk of a new slab of the next color; no other chunk becomes used. |
| KmemSlab.SmallPage | kernel/vm/kmem_slab.c:528-547 | Rounding up the address after any chunk of a small slab gives the end of its page, so its header is found. |
| KmemSizing.BestPages | kernel/vm/kmem_slab.c:350-378 | The size chosen wastes least among those with at least 16 chunks, the first such one; none is chosen exactly when a chunk is larger than 16128 bytes. |
| KmemSizing.Create | kernel/vm/kmem_slab.c:261-400 | The chunk is the least multiple of the alignment that holds the object, no more chunks and no more colors would fit, and a large slab wastes least of the sizes that hold 16 chunks. The layout is defined exactly for quantum caches and for chunks of at most 16128 bytes, and then at least two chunks fit at every color; in a quantum cache that is so exactly when two chunks fit in the power of two, and three do if the chunk is no larger than the largest size cached. |
| KmemSizing.ListsRight | kernel/vm/kmem_slab.c:492-547 | The list moves leave each slab on its right list exactly when a slab has at least two chunks. |
| BufctlTable.Table.Lookup | kernel/vm/kmem_slab.c:202-214 | Finds the slab of a large object. |
| BufctlTable.Table.Insert | kernel/vm/kmem_slab.c:216-229 | Adds exactly one entry, growing when the load asks for it. |
| BufctlTable.Table.Remove | kernel/vm/kmem_slab.c:231-247 | Removes exactly one entry. |
| BufctlTable.Table.Resize | kernel/vm/kmem_slab.c:163-200 | Another number of buckets holds the same entries. |
| HashTable.Table.Get | kernel/core/hashtable.c:147-159 | Returns what the map holds for the key, or NULL. |
| HashTable.Table.Set | kernel/core/hashtable.c:113-145 | Sets exactly one key of the map on success and changes nothing otherwise; each status is reported exactly when it should be: Exists for a key that may not be overwritten, Success when there was memory for what is needed; the table grows, to 16 or twofold, exactly when one entry more would load it above three quarters; unless memory runs out the table stays at most three quarters used. |
| HashTable.Table.Delete | kernel/core/hashtable.c:173-188 | Removes exactly the key and reports whether it was there. |
| HashTable.Table.Resize | kernel/core/hashtable.c:81-111 | The map stays the same, and only live entries are counted as used. |
| HashTable.Table.FindEntry | kernel/core/hashtable.c:53-79 | The probe ends, at the key's slot or at the first place where it may be put. |
| HashTable.ProbingEnds | kernel/core/hashtable.c:59-78 | A probe for a key ends exactly when some slot was never used or the key is stored. |
| HashTable.PutKeeps | kernel/core/hashtable.c:137-144 | Putting a key where the probe ended, tombstone or not, keeps every key reachable and updates the map at that key. |
| HashTable.DeleteKeeps | kernel/core/hashtable.c:173-188 | A tombstone keeps every other key reachable and removes one key of the map. |
| Scheduler.Cpu.Insert | kernel/core/sched.c:304-364 | A thread becomes next exactly when it is real-time with a priority above that of the next or running thread, or finds the processor idle with none next; else it is queued, and a displaced one is queued; at most two rounds, and no thread is lost or doubled. |
| Scheduler.UrgentExact | kernel/core/sched.c:154-200 | The head of the order is at least as urgent as asked for exactly when its priority is above the given one, or only idle threads are queued. |
| Scheduler.FallingPriority | kernel/core/sched.c:154-200 | Threads come off a run queue by falling priority. |
| Scheduler.Cpu.SelectNext | kernel/core/sched.c:154-200 | Takes the first thread of the whole order, also across the exchange of the run queues, exactly when something at least as urgent is queued. |
| Scheduler.Cpu.Yield | kernel/core/sched.c:264-287 | The next thread, else the head of the order, else idle. |
| Scheduler.Cpu.PreemptSwitch | kernel/core/sched.c:118-152 | The preempted thread is queued, or becomes next again and displaces the one that was. |
| Scheduler.EnqueuedSplit | kernel/core/sched.c:318-345 | Where a thread enters the order: real time behind its level in the current queue, priority 1 at the end of the next queue, everything else behind the idle threads. |
| Scheduler.EnqueuedOk | kernel/core/sched.c:318-345 | Each thread stays in exactly one queue, the one its priority says. |
| Scheduler.RunQueue.Insert | kernel/core/sched.c:289-302 | The thread is last of its level, and the mask has exactly the bits of the non-empty levels. |
| RunQueues.Highest | kernel/core/sched.c:154-200 | The highest set bit of the mask below a limit, or none. |
| RunQueues.FlatTake | kernel/core/sched.c:154-200 | Taking from the highest non-empty level takes the head of the whole order. |
| RunQueues.MaskAny | kernel/core/sched.c:154-200 | The mask is zero exactly when no level has its bit. |
| KconfigExpr.RoundTripValue | scripts/kconfig/kconfiglib.py:3375-3459 | Printing a choice-free expression and parsing the tokens gives an expression of the same value under every assignment. |
| KconfigExpr.RoundTripIdempotent | scripts/kconfig/kconfiglib.py:6059-6100 | Printing and parsing a second time changes nothing. |
| KconfigExpr.RewriteValue | scripts/kconfig/kconfiglib.py:3425-3459 | With the rewrite of m to m and MODULES, the parsed expression has the value of the original with m read as at most MODULES; so it keeps the value if and only if the original has the same value with m read so. |
| KconfigExpr.CappedSame | scripts/kconfig/kconfiglib.py:3425-3459 | That is so whenever m is at most MODULES, and for every expression in which each m is already joined to MODULES. |
| KconfigExpr.ParserSettles | scripts/kconfig/kconfiglib.py:3375-3459 | Whatever the parser returns with the rewrite is such an expression. |
| KconfigExpr.RewriteStable | scripts/kconfig/kconfiglib.py:3375-3459 | So printing and parsing what the parser returned keeps its value, under every assignment. |
| KconfigExpr.RewriteExample | scripts/kconfig/kconfiglib.py:3425-3459 | With MODULES n, the printed m comes back with another value. |
| KconfigExpr.ExprTrip | scripts/kconfig/kconfiglib.py:3375-3459 | Parsing the printed tokens, whatever follows them, gives the normal form and leaves what follows. |
| KconfigExpr.Parser.ParseExprAt | scripts/kconfig/kconfiglib.py:3375-3414 | The parser that advances an index gives the result of the recursive one, errors included. |
| KconfigGrammar.ParserIsGrammar | scripts/kconfig/kconfiglib.py:3375-3414 | The parser accepts a list of tokens as a whole, with an expression as result, exactly when the grammar derives that expression from it. |
| KconfigCache.Kconf.Run | scripts/kconfig/kconfiglib.py:4557-4654 | For every sequence of set, unset and read calls on a sound configuration, MODULES included, every value returned is the one recomputation from scratch gives after the calls so far; `KconfigLaws` says what those values are. |
| KconfigCache.Kconf.RecInvalidate | scripts/kconfig/kconfiglib.py:4864-4893 | The recursion ends, drops everything cached of the item and of its dependents, though it stops at items without a cached visibility, and drops nothing outside any set closed under dependents. |
| KconfigCache.Kconf.SetSymbol | scripts/kconfig/kconfiglib.py:4557-4644 | Accepts exactly the values the source accepts, records them, and keeps only cached values that are still right. |
| KconfigCache.Kconf.SetChoice | scripts/kconfig/kconfiglib.py:5243-5282 | The same for the mode of a choice. |
| KconfigCache.Kconf.SymbolTriValue | scripts/kconfig/kconfiglib.py:4427-4504 | The cached or computed tristate value is the one recomputation gives, whatever was cached before; `KconfigLaws.ValueIs` says what it is. |
| KconfigCache.Kconf.SymbolStrValue | scripts/kconfig/kconfiglib.py:4286-4425 | The same for the string value, with ranges of int and hex symbols. |
| KconfigCache.Kconf.SelectionOf | scripts/kconfig/kconfiglib.py:5235-5241 | The same for the selection of a choice. |
| KconfigCache.Kconf.ExprValue | scripts/kconfig/kconfiglib.py:5987-6040 | Evaluating an expression with caches gives the value of the expression from scratch. |
| KconfigLaws.AnswerAt | scripts/kconfig/kconfiglib.py:4557-4654 | The answer to each call of a sequence is the recomputed one for the user values after the calls before it. |
| KconfigLaws.ValueIs | scripts/kconfig/kconfiglib.py:4427-4504 | A bool or tristate symbol outside choices reads the larger of what selects it and its value without select: the user's value limited by the visibility if it is visible and has one, else the first default in force limited by its condition, raised by an imply if the direct dependencies are met; and m is promoted to y exactly where it cannot be m or an imply asks for y. |
| KconfigLaws.SelectIsLowerBound | scripts/kconfig/kconfiglib.py:4427-4504 | A symbol is never below what selects it. |
| KconfigLaws.VisibilityIsUpperBound | scripts/kconfig/kconfiglib.py:4427-4504 | A user's value never exceeds the visibility without a select or an imply of y. |
| KconfigLaws.ImplyIsLowerBound | scripts/kconfig/kconfiglib.py:4427-4504 | A symbol without a user value in force is at least what implies it, if its direct dependencies are met. |
| KconfigLaws.NeverM | scripts/kconfig/kconfiglib.py:4427-4504 | What cannot be m (a bool, a tristate without MODULES, a symbol of a choice that is y) never reads m nor has visibility m. |
| KconfigLaws.ModeIs | scripts/kconfig/kconfiglib.py:5189-5216 | The mode of a choice is at most its visibility, n only for an optional or invisible one and m only for a tristate one with MODULES; the user's mode is taken when it is one of these, and without one an optional choice is n. |
| KconfigLaws.MemberIs | scripts/kconfig/kconfiglib.py:4427-4504 | In a choice that is y a symbol reads y exactly when it is the selection, and never m; in another choice none reads y. |
| KconfigLaws.SelectionRule | scripts/kconfig/kconfiglib.py:5423-5456 | The selection is the user's if it is visible, else the first default that is in force and visible, else the first visible symbol, else none. |
| KconfigLaws.ExactlyOne | scripts/kconfig/kconfiglib.py:5423-5456 | In a choice that is y, has its own symbols as defaults and has a visible symbol, exactly one symbol reads y and all others n. |
| KconfigLaws.PickGranted | scripts/kconfig/kconfiglib.py:5423-5437 | The symbol the user picked reads y as long as it is visible and the choice is y. |
| KconfigLaws.TextIs | scripts/kconfig/kconfiglib.py:4286-4425 | A logical symbol prints its value, and a string symbol reads the user's text when visible, else the text of the first default in force. |
| KconfigLaws.RangeKept | scripts/kconfig/kconfiglib.py:4286-4425 | An int or hex symbol whose range in force is ordered reads a number in it: the user's text if visible and within, else the default moved to the nearer bound. |
| KconfigLaws.NoRange | scripts/kconfig/kconfiglib.py:4286-4425 | Without a range in force it reads the user's text when visible, else the first default in force. |
| KconfigLaws.AcceptedValues | scripts/kconfig/kconfiglib.py:4557-4644 | Which values set_value accepts, for each type. |
| KconfigLaws.SetThenRead | scripts/kconfig/kconfiglib.py:4557-4644 | A value set reads back when the symbol is visible at least as far, nothing selects it higher, and m is possible. |
| KconfigLaws.SetTextThenRead | scripts/kconfig/kconfiglib.py:4557-4644 | A string set reads back when the symbol is visible, and so does an int or hex value when no range is in force. |
| KconfigLaws.UnsetThenRead | scripts/kconfig/kconfiglib.py:4646-4654 | A logical symbol outside choices that is unset reads what its defaults, implies and selects give. |
| KconfigLaws.SetInChoice | scripts/kconfig/kconfiglib.py:4557-4644 | Setting a symbol of a choice to y makes it the one that reads y and all others n, if the choice is y and the symbol visible. |
| KconfigMeaning.Relations | scripts/kconfig/kconfiglib.py:5987-6040 | A relation is y or n: two strings compare as texts, other operands as numbers, and as texts if one of them is no number; with the meaning of all six operators. |
| KconfigMeaning.Connectives | scripts/kconfig/kconfiglib.py:5987-6040 | And is the smaller value, or the larger, and not maps n, m, y to y, m, n. |
| KconfigMeaning.SameValue | scripts/kconfig/kconfiglib.py:5987-6040 | The evaluation of a configuration is the value of the expression that the round trips speak of. |
| KconfigMeaning.Visible | scripts/kconfig/kconfiglib.py:6285-6312 | A symbol is invisible exactly when all its prompts are, is at least as visible as each prompt, and is never m if it cannot be. |
| KconfigCache.KeptRight | scripts/kconfig/kconfiglib.py:4864-4893 | If what survives uses nothing that was dropped or changed, all of it is still right. |
| KconfigCache.SealedItem | scripts/kconfig/kconfiglib.py:4864-4893 | Dropping an item and clearing its dependents leaves nothing that uses what was dropped. |
| KconfigScratch.Tracked | scripts/kconfig/kconfiglib.py:3465-3538 | Every value a computation reads belongs to an item among whose dependents the computed one is. |
| KconfigScratch.StillRight | scripts/kconfig/kconfiglib.py:4864-4893 | A value whose uses are closed and untouched by a change of the user's values is the same after it. |
| KconfigStale.StrayRun | scripts/kconfig/kconfiglib.py:5235-5241 | A choice with a default outside it: after set_value of that default's dependency, the selection read is FIRST where recomputation gives SECOND. |
| KconfigStale.UnlinkedRun | scripts/kconfig/kconfiglib.py:3526-3538 | A choice symbol whose own conditions do not mention the choice: after another symbol is picked, its value read is y where recomputation gives n. |
| KconfigStale.KeepsValue | scripts/kconfig/kconfiglib.py:4864-4893 | A cached value that an invalidation cannot reach survives, and is right afterwards exactly when recomputation gives the same before and after. |
| KconfigStale.StaleSelection | scripts/kconfig/kconfiglib.py:5235-5241 | For every configuration with such a default out of reach of the invalidation: read the selection, set the symbol, read again, and the second read gives what the first gave, where recomputation gives the default. |
| KconfigStale.StaleValue | scripts/kconfig/kconfiglib.py:3526-3538 | For every configuration with such a choice symbol out of reach: it reads y before and after another symbol is picked, where recomputation gives n after. |
| KconfigStale.BrokenDefault | scripts/kconfig/kconfiglib.py:5235-5241 | Whenever a choice rests on a first default outside it whose visibility changes, recomputing the selection gives another one than before. |
| KconfigStale.BrokenLink | scripts/kconfig/kconfiglib.py:3526-3538 | Whenever a visible choice symbol that does not mention its choice loses the selection, recomputing its value gives n where it gave y before. |
| KconfigStale.ToggleRun | scripts/kconfig/kconfiglib.py:3540-3548 | With MODULES a bool symbol that the user sets, a tristate symbol reads y before and m after. |
| KconfigStale.ToggleSound | scripts/kconfig/kconfiglib.py:3540-3548 | Such a configuration is sound. |

## Findings

Where the code does not meet a property, the property is stated with the exact
condition under which it does.

| what fails | input | condition | members |
|---|---|---|---|
| `vm_protect` that grants write leaks stores between spaces (`kernel/vm/map.c:326-330`) | map, store, fork, then protect the parent read-write and store | agrees exactly when every present page of the entry is an anon's that no other mapped page shows; a count of 1 suffices, a count of 2 can still agree | `WriteGrant.GrantExact`, `WriteGrant.SoleCount`, `WriteGrant.SharedLeaks`, `WriteGrant.ObjectLeaks`, `WriteGrant.InvisibleHolder`, `WriteGrant.WriteGrantExample` |
| a mapping longer than the amap reaches aliases its own pages (`kernel/vm/amap.c:101-106`) | map 2^27 + 1 pages, store to the first, load the last | distinct slots, and the invariant after the mapping, exactly for at most 2^27 pages | `AmapIndex.SlotsDistinct`, `LongMappings.LongMappingBreaks`, `VmSystem.Vm.Map` |
| `vm_unmap` of an empty range unmaps the rest of an entry and loses an amap and an object reference (`kernel/vm/map.c:344-404`) | length 0, address strictly inside an entry | harmless exactly when the address is strictly inside no entry of the space | `VmSystem.Vm.UnmapEmpty`, `VmSystem.UnmapEmptyExample` |
| the search for a range fails its assertion or follows NULL (`kernel/vm/map.c:484-514`) | a hint above every entry's base, or one entry with no room on either side | `AddressRange.Crashes` | `AddressRange.AddressMap.Search`, `AddressRange.HintAbove`, `AddressRange.NoRoom` |
| a free hint is not always taken (`kernel/vm/map.c:487-494`) | a hint below the first entry | `AddressRange.HintTaken` | `AddressRange.AddressMap.Search`, `AddressRange.HintForgotten` |
| `event_alarm` loses a signal (`kernel/core/kevent.c:17-33`) | a synchronisation event whose waiters have all timed out but not left its list yet | lost exactly when unsignaled, with waiters, all resolved already | `WaitTokens.AlarmLost` |
| the mutex loses a wakeup when blocking waits have timeouts (`kernel/core/mutex.c:64-71`) | three threads: the owner, one that times out, one that waits without a timeout | at the alarm, exactly when `Strands` holds; the run ends with a free mutex and a thread asleep on it | `MutexProtocol.RingExact`, `MutexStranding.LostWakeup`, `MutexStranding.HungIs` |
| the page allocator can panic while merging (`kernel/vm/pmm.c:382-404`) | a block is freed while its buddy has been dereferenced for the last time and not been freed | panics exactly when the climb meets such a block; never when there is none | `BuddyZone.Zone.ZoneFree`, `BuddyZone.NoLimbo`, `BuddyZone.MergePanic` |
| the region lookup accepts the end of a region (`kernel/vm/pmm.c:28-49`) | an address that is some region's end | right exactly when the address is no region's end | `BuddyZone.LookupExact` |
| a failed vmem allocation loses two tags (`kernel/vm/vmem.c:586-614`) | no segment has room and no source gives one | exactly the failures | `VmemArena.Arena.XAlloc` |
| `vmem_xalloc` files a segment of one byte before the first free list (`kernel/vm/vmem.c:252-260`) | 15 bytes out of a span of 16; or a size of 1 | exactly when the size is 1 or the segment chosen leaves one byte on a side; never on multiples of two or more | `VmemArena.Arena.XAlloc`, `VmemArena.OneByteLeft` |
| `vmem_xalloc` asserts that a request is unbounded before it imports (`kernel/vm/vmem.c:592-593`) | bounds, no segment within them, and an arena with a source | exactly those | `VmemArena.Arena.XAlloc` |
| `kmem_cache_create` uses an uninitialised size (`kernel/vm/kmem_slab.c:362-378`) | a chunk of more than 16128 bytes | defined exactly up to 16128 bytes | `KmemSizing.BestPages`, `KmemSizing.Create` |
| the slab lists go wrong for slabs of one chunk (`kernel/vm/kmem_slab.c:492-526`) | a slab with one chunk | right exactly for at least two chunks, which every defined layout has | `KmemSizing.ListsRight` |
| a large write-combining entry changes its address (`kernel/arch/x86_64/include/yak/arch-mm.h:97-99`) | a large page with bit 12 clear | exactly those | `PteBits.AddressRoundTrip` |
| uncached and write-through pages have the same bits (`kernel/arch/x86_64/include/yak/arch-mm.h:109-110`) | any level | exactly that pair | `PteBits.TypesEncoded` |
| `do_unmap` returns 0, not an error, for a page that is not mapped (`kernel/vm/generic_pmap.c:236-246`) | such a page whose neighbour is mapped | -1 exactly when there is no table for the entry; 0 when there is one and the entry is empty | `PageTables.Pmap.Unmap`, `PageTables.UnmapAbsent` |
| `pmap_unmap_range_and_free` frees what `do_unmap` returns unchecked (`kernel/vm/generic_pmap.c:300-333`) | a range with such a page | frees exactly the frames of the range if and only if every page of it is mapped | `PageTables.Pmap.UnmapRangeAndFree`, `PageTables.UnmapAbsent` |
| priorities 2 to 16 are queued with the idle threads (`kernel/core/sched.c:331-341`) | a thread with such a priority | only priority 1 goes to the next queue | `Scheduler.EnqueuedSplit` |
| Kconfig reads a stale selection (`scripts/kconfig/kconfiglib.py:5235-5241`) | a choice whose default is not one of its symbols; set a symbol that default's visibility depends on | a value that survives is right exactly when recomputation gives the same as before; never wrong on a sound configuration | `KconfigStale.StrayRun`, `KconfigStale.StaleSelection`, `KconfigStale.BrokenDefault`, `KconfigStale.KeepsValue`, `KconfigCache.Kconf.Run` |
| Kconfig reads a stale value of a choice symbol (`scripts/kconfig/kconfiglib.py:3526-3538`) | a choice symbol with a prompt outside its choice; pick another symbol | the same | `KconfigStale.UnlinkedRun`, `KconfigStale.StaleValue`, `KconfigStale.BrokenLink`, `KconfigStale.KeepsValue` |
| printing and parsing an expression with the rewrite of m changes its value (`scripts/kconfig/kconfiglib.py:3425-3459`) | the expression m with MODULES n | keeps the value exactly when the expression has the same value with m read as at most MODULES; always for what the parser itself returned | `KconfigExpr.RewriteExample`, `KconfigExpr.RewriteValue`, `KconfigExpr.RewriteStable` |

## Left out

- VmSystem.Vm.Run: only object entries with VM_INHERIT_COPY; an object mapped once more is named by a page it is behind, and then not with VM_MAP_OVERWRITE; VM_INHERIT_SHARED and VM_INHERIT_NONE, MMIO and reserved entries and VM_MAP_PREFILL are not in the runs. Write-granting vm_protect is not an operation of the runs; `WriteGrant.GrantExact` says when it could be. Mappings are at most 2^27 pages; `LongMappings` shows why. Addresses, lengths and offsets are counted in pages, and the bounds of a space are in `AddressRange` only.
- VmSystem.Vm.MapFixed: an existing object is not mapped with VM_MAP_OVERWRITE, which could drop the last reference to it; the bounds of the space are in `AddressRange`.
- VmSystem.Vm.Protect: granting write is for ranges whose present pages are anons no one else holds, the condition of `WriteGrant`; the range is not empty.
- VmSystem.Vm.Fork: for spaces whose entries are all VM_INHERIT_COPY objects.
- VmSystem.Vm.Fault: one fault is atomic under the map lock; the early return with the lock held (`kernel/vm/fault.c:45-48`) and the upgrade that may drop the lock are not modelled. NoEnt stands for both errors of an unmapped page. A page with neither read nor write permission can never be accessed and is reported as Unreadable. The status of an access to a page with write and no read permission is not determined, the exception of `EagerRuns.StepDetermined`.
- VmSystem.Vm.Carve: the assertion at `kernel/vm/map.c:177` excludes the end of the entry, which callers pass; the model allows it. Running out of memory is left out.
- VmSystem.Vm.FreeAll: slots are visited in the order of page numbers, as the triple loop does; freeing the tables is in `AmapRadix`, where freed tables stay as unreachable values.
- VmSystem.Vm.ReadWord: the pager's contents of a backing page are a parameter, and backing pages are never written.
- AmapRadix.Amaps.Copy: works on values of the tables by number; locks and memory shortage are left out.
- PageTables.Pmap.Map: in page numbers; TLB flushes, shootdown and `pmap_destroy` are left out.
- PageTables.Pmap.UnmapRangeAndFree: at the lowest level, with the pages handed to the allocator as the result.
- SpaceTables.HardwareSees: is about spaces with small pages, whose flat entries are those of the copy-on-write model; the operations of `VmSystem.Vm` are not rewritten to call the tables.
- AddressRange.AddressMap.AllocRange: addresses do not wrap around, and the tree of entries is a list in address order; `RbTree` proves the tree.
- RbTree.RbRoot.Remove: keys are integers; augmentation callbacks, `_rb_min` and `_rb_max` are left out.
- BuddyZone.Zone.ZoneFree: one zone; each call is one step under the zone lock; the pages reserved for descriptors are a parameter, and free_pagecnt is counted for the zone.
- BuddyZone.Zone.AddRegion: the list of regions and the pages set aside for their descriptors are a parameter.
- WaitProtocol.RunInv: one wait block for each thread (`sched_wait_many` is left out), and processors, interrupt levels and weak memory order are not modelled. A timer may fire at any time after it is set.
- MutexProtocol.RunKeepsWakeups: threads wait on the mutex only. It needs infinite blocking waits, for the reason `MutexProtocol.RingExact` gives.
- MutexProtocol.RingExact: is about the mutex's own event, a synchronisation event alarmed for one waiter; `WaitTokens.AlarmLost` covers waking all, and a notification event keeps its signal.
- RwLock.WriterExcludes: safety only; the lock's one event does not support a claim about wakeups, and waiting is any delay that ends in success or error.
- VmemArena.Arena.XAlloc: align, phase and nocross are 0 as the code asserts, the lower bound is not above the upper one, addresses do not wrap around, and four spare tags are there at the call. The grain is any number that all sizes and addresses are multiples of, 1 at worst. What an arena looks like after a crash is not described. Quantum caches, locks and `vmem_destroy` are left out; the hash is any function modulo the buckets.
- VmemArena.Arena.AddLocked: spans of two bytes or more; one of a single byte goes the way of `VmemArena.OneByteLeft`.
- VmemTiers.Tiers.Alloc: one source for any number of arenas, whose spans are all imported, with grains of two or more that divide the source's; what the source itself imports is a parameter.
- KmemSizing.Create: shifts do not overflow.
- KmemCache.Cache.Alloc: each part between lock and unlock is one step on one processor's magazines; constructors, and allocations that fail to get pages, are left out.
- BufctlTable.Table.Resize: the old bucket array is not freed in the model.
- HashTable.Table.Set: keys are equal when their bytes are, capacities are unbounded, and the key copy that an overwrite leaks is not tracked.
- Scheduler.Cpu.Yield: one processor's queues under its lock; the switch of stacks and the waiting for another processor to leave a thread are left out.
- KconfigExpr.RoundTripValue: on tokens, not characters, and for expressions without choices, which print as nothing the parser reads.
- KconfigCache.Kconf.Run: for configurations without dependency loops, in which a choice's defaults are its own symbols and a choice's symbols mention it; `KconfigStale` shows what happens otherwise. A tristate MODULES symbol reads its own value and is such a loop. `assignable`, `config_string`, `_write_to_conf`, warnings and symbols without a type are left out.
- Not modelled: architecture and device code, file systems, ELF loading, process control, the console, the ring buffer, the Kconfig file reader and user interfaces.
