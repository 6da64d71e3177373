# xv6 with a buddy and slab allocator: verified models

Dafny models of the parts of this xv6 kernel where something can go wrong slowly, with
proofs of what they promise.  Each part is a group of modules that stands on its own.

- **Page allocator** (`BuddyModel`, `BuddyTheorems`, `BuddyCanonical`, `BuddyRuns`,
  `BuddyRoundTrip`, `FreeLists`, `Buddy`).  Pages are numbered from the start of the managed
  region.  The functions say what an allocation and a free do to the free lists, the live blocks
  and the owners; the class `Allocator` keeps the arrays, links and flags of the source and is
  proved to do the same.
- **Object caches** (`SlabGeometry`, `SlabModel`, `SlabTheorems`, `SlabCounts`, `SlabLists`, `Slab`), and
  both layers under interleaving (`SlabSystem`, `SlabEffects`): each section that holds a lock is one step, and any
  number of threads take steps in any order.
- **Write-ahead log** (`LogModel`, `LogTheorems`, `LogReservation`, `LogCommit`, `Log`) over the buffer cache, with each block write
  a step and a crash possible between any two, and the **buffer cache** itself (`Bcache`).
- **File contents** (`FsFormat`, `FsModel`, `FsSteps`, `FsBudget`, `Fs`): block bitmap, block pointers and data on
  a disk of byte blocks, refining one byte sequence per inode.
- **User heap** (`HeapModel`, `HeapSteps`, `UserHeap`), the allocator of section 8.7 of "The C
  Programming Language".
- **Page tables** (`PageTableModel`, `PageTableKernel`, `PageTable`), section 4.4 of the RISC-V
  Privileged Architecture: a three-level tree that agrees with a flat map.  Addresses are page
  numbers; the free pages are a set.
- **Sleep, wakeup and sleep locks** (`SleepLock`) and the **virtio disk queue** (`VirtioModel`, `VirtioTheorems`,
  `VirtioRuns`, `VirtioTransfers`, `Virtio`; sections 2.6 and 5.2 of Virtio 1.1), each as a machine whose steps
  interleave.  The disk's device goes by the descriptors and headers it finds, and moves blocks accordingly.
- **grep's matcher** (`Regex`) against the language its patterns denote.

`Powers`, `Sequences`, `Chains`, `Rings` and `Wrappers` hold the arithmetic and lists they share.
State that the source changes in place is a class whose methods are proved against functions on
values; the lemmas are about those functions and about whole runs.

Where code and comments differ, the models follow the code.  Seven promises hold only under a
condition, and the condition is proved exact:

- allocating and freeing restores the free blocks: `BuddyRoundTrip.RoundTripIff`, with a concrete failure in
  `RoundTripCanFail`;
- an address finds its page index: `Buddy.Allocator.AddrToIndexExactIff`;
- buddy_free ignores a pointer it did not hand out: `Buddy.Allocator.BuddyFree`, with a concrete failure in
  `FarFreeStrands`;
- kmalloc's class holds the request: `SlabGeometry.KmallocHoldsRequestIff`;
- an operation of at most MAXOPBLOCKS blocks finds room in the log: `LogTheorems.PanicsIff` and
  `LogReservation.ReservationHolds`, with a concrete failure in `FullShareCanPanic`;
- different blocks are different sectors: `VirtioTransfers.SectorExactIff`;
- the disk interrupt does not panic: `VirtioTheorems.ReapKeeps`, with a concrete failure in
  `VirtioTransfers.ErrorReached`.

`dafny verify dfyconfig.toml` checks everything.

## Model

| member | source | states |
|---|---|---|
| `BuddyModel.OrderFor` | xv6 slab allocator/kernel/buddy.c:78-86 | the order of a request is the least whose block has at least that many pages |
| `BuddyModel.FirstFit` | xv6 slab allocator/kernel/buddy.c:156-158 | the search finds the least order, from the target on, whose list is not empty, and runs past MAX_ORDER only if all are empty |
| `BuddyModel.FitOrder` | xv6 slab allocator/kernel/buddy.c:113-122 | the order picked for a position fits in what remains and divides the position, and no larger order does |
| `BuddyTheorems.SplitDownTiled` | xv6 slab allocator/kernel/buddy.c:165-177 | splitting a block down to a smaller order keeps every page in exactly one block |
| `BuddyTheorems.MergeTiled` | xv6 slab allocator/kernel/buddy.c:219-250 | for any page-aligned base, merging by XOR only ever joins two adjacent equal free blocks: every page stays in exactly one block |
| `BuddyTheorems.AllocKeepsInv` | xv6 slab allocator/kernel/buddy.c:145-189 | a successful allocation is a new block inside the region that overlaps no live block; all else that is live or owned stays; tiling and metadata invariants hold |
| `BuddyTheorems.FreeKeepsInv` | xv6 slab allocator/kernel/buddy.c:255-280 | freeing keeps the invariants for every page index, managed or not; freeing a live, unowned head takes exactly that block from the live ones |
| `BuddyCanonical.FreeRunInOneBlock` | xv6 slab allocator/kernel/buddy.c:219-250 | if blocks are aligned and no two buddies are free, every aligned free run lies inside one free block |
| `BuddyCanonical.CanonicalUnique` | xv6 slab allocator/kernel/buddy.c:219-250 | two canonical sets of free blocks that cover the same pages are the same set |
| `BuddyCanonical.AllocKeepsCanonical` | xv6 slab allocator/kernel/buddy.c:160-177 | allocation never leaves two free buddies of an order below MAX_ORDER |
| `BuddyCanonical.FreeKeepsCanonical` | xv6 slab allocator/kernel/buddy.c:219-250 | with a base aligned to the largest block, freeing never leaves two free buddies |
| `BuddyRuns.InitInv` | xv6 slab allocator/kernel/buddy.c:90-137 | buddy_init's blocks cover every page of the region exactly once, for any base and size |
| `BuddyRuns.InitCanonical` | xv6 slab allocator/kernel/buddy.c:109-137 | buddy_init's blocks are aligned in the region and no two are buddies |
| `BuddyRuns.StepKeepsInv` | xv6 slab allocator/kernel/buddy.c:145-280 | every allocation, free and change of owner keeps the invariant, and the canonical form if the base is aligned |
| `BuddyRuns.TilingInEveryRun` | xv6 slab allocator/kernel/buddy.c:90-280 | after any sequence of operations from buddy_init, for any base, each page lies in exactly one block, and that block is free or live but not both |
| `BuddyRuns.SameLivePagesSameFreeBlocks` | xv6 slab allocator/kernel/buddy.c:219-250 | in canonical form the free blocks are determined by which pages are live |
| `BuddyRuns.AllFreedIsInit` | xv6 slab allocator/kernel/buddy.c:109-137 | with an aligned base, once everything is freed, in whatever order, the free blocks are those of buddy_init |
| `BuddyRuns.AllocFailsIff` | xv6 slab allocator/kernel/buddy.c:153-158 | an allocation fails if and only if no free block has the order of the request or more |
| `BuddyRuns.AllocFailsIffNoAlignedRun` | xv6 slab allocator/kernel/buddy.c:153-158 | in canonical form an allocation fails if and only if no aligned run of free pages of that size exists |
| `BuddyRoundTrip.MergeUndoesSplit` | xv6 slab allocator/kernel/buddy.c:219-250 | merging the first piece after a split restores the lists, given the address bits that were split off are clear |
| `BuddyRoundTrip.RoundTripIff` | xv6 slab allocator/kernel/buddy.c:160-250 | for any base: alloc then free restores the state if the first block on the first long enough list has clear address bits below its order and no mergeable buddy, and if the free blocks are restored that condition held |
| `BuddyRoundTrip.AllocThenFree` | xv6 slab allocator/kernel/buddy.c:160-250 | with an aligned base and canonical lists, alloc then free restores the whole state, list order included |
| `BuddyRoundTrip.RoundTripCanFail` | xv6 slab allocator/kernel/buddy.c:160-250 | with the base at page 1 and two pages, allocating and freeing one page leaves two single pages in place of the pair |
| `FreeLists.FlagMeansListed` | xv6 slab allocator/kernel/buddy.c:228-237 | a page is flagged as free head of order k if and only if it is on list k, so the removal before a merge always finds it |
| `FreeLists.FlagThenPush` | xv6 slab allocator/kernel/buddy.c:25-52 | flagging a page and pushing it keeps links and flags in agreement |
| `FreeLists.UnlinkThenClear` | xv6 slab allocator/kernel/buddy.c:60-76 | unlinking a page anywhere in a list and clearing its flag keeps links and flags in agreement |
| `Buddy.OrderForPages` | xv6 slab allocator/kernel/buddy.c:78-86 | the loop returns OrderFor of its argument |
| `Buddy.PickOrder` | xv6 slab allocator/kernel/buddy.c:113-122 | the loop returns FitOrder from MAX_ORDER down |
| `Buddy.Allocator.AddrToIndexExactIff` | xv6 slab allocator/kernel/buddy.c:191-202 | for every 64-bit address, addr_to_index is the page index of a managed page-aligned address and -1 otherwise, if and only if the truncation to int does not bring a far address back into range |
| `Buddy.Allocator.BuddyIndex` | xv6 slab allocator/kernel/buddy.c:222-226 | XOR of addresses and the index lookup find the buddy that the page-level model uses, or -1 outside the region |
| `Buddy.Allocator.PopFree` | xv6 slab allocator/kernel/buddy.c:31-41 | takes the first page of a list and clears its flag; nothing else changes |
| `Buddy.Allocator.Scan` | xv6 slab allocator/kernel/buddy.c:60-76 | the search stops at the page and knows its predecessor, or reaches the end if the page is not there |
| `Buddy.Allocator.RemoveFromFreelist` | xv6 slab allocator/kernel/buddy.c:60-76 | removes the page if it is on the list, says whether it was, and clears its flag; an address that is no page is never found and nothing changes |
| `Buddy.Allocator.TakeBuddy` | xv6 slab allocator/kernel/buddy.c:221-244 | one turn of the merge loop: takes the buddy off its list if and only if it is a managed free head of the same order, and goes on from the lower of the two; nothing changes otherwise |
| `Buddy.Allocator.FlagAndPush` | xv6 slab allocator/kernel/buddy.c:246-250 | the page that the address has as its index is flagged and the address is pushed, which keeps lists and flags together exactly for a page of the region |
| `Buddy.Allocator.constructor` | xv6 slab allocator/kernel/buddy.c:90-141 | the arrays built by the loops represent Init of the base and size, for any region that does not start at address 0 |
| `Buddy.Allocator.SplitBlock` | xv6 slab allocator/kernel/buddy.c:165-177 | the in-place loop is SplitDown |
| `Buddy.Allocator.BuddyAlloc` | xv6 slab allocator/kernel/buddy.c:145-189 | the in-place code refines Alloc: same result, same new state, failures included |
| `Buddy.Allocator.BuddyFreeOrder` | xv6 slab allocator/kernel/buddy.c:206-251 | started from a page's own address the in-place merge loop refines Merge; started from a far address with that index it flags the page and pushes the far address, so that the flagged page is on no list |
| `Buddy.Allocator.BuddyFree` | xv6 slab allocator/kernel/buddy.c:255-280 | for every 64-bit pointer, NULL included, the in-place code keeps the representation and refines Free if and only if the pointer is not a far address whose truncated index is a live, unowned head; in that case the page ends up flagged and on no list |
| `Buddy.FarFreeStrands` | xv6 slab allocator/kernel/buddy.c:255-280 | a region of one live page and a pointer 2^44 bytes above it: after buddy_free of that pointer the page is flagged as free and is on no list |
| `Buddy.Allocator.SetOwner` | xv6 slab allocator/kernel/slab.c:567-572 | the loop gives every page of a block, and no other, the slab as its owner, or none |
| `SlabGeometry.TrialIff` | xv6 slab allocator/kernel/slab.c:367-376 | one trial of a slab order succeeds if and only if the slab is at least as large as the object size needs |
| `SlabGeometry.TrialSound` | xv6 slab allocator/kernel/slab.c:372-379 | an accepted trial gives a sound geometry: header, link array and aligned objects fit, the count is below NOFREE; the count is the largest that fits beside the links of the first estimate, and the objects start at the first aligned place |
| `SlabGeometry.Layout` | xv6 slab allocator/kernel/slab.c:352-388 | a cache is accepted if and only if the object size is at most 262104 bytes; objects are rounded up to the next multiple of 8; the geometry is sound, one object more does not fit beside the links of the estimate, the offset is the first multiple of 8 behind the links, and no smaller order holds 8 objects, or 1 above 2048 bytes |
| `SlabGeometry.ObjIndexInverts` | xv6 slab allocator/kernel/slab.c:319-325 | slab_obj_index undoes slab_obj_ptr for every index |
| `SlabGeometry.ObjectsApart` | xv6 slab allocator/kernel/slab.c:315-321 | objects lie behind the header and links, inside the slab, aligned, and do not overlap |
| `SlabGeometry.KmallocPicksSmallest` | xv6 slab allocator/kernel/slab.c:696-723 | up to 2^64 - 8 bytes kmalloc's class is the smallest that holds the request, and there is none if and only if the request exceeds 131072 |
| `SlabGeometry.KmallocHoldsRequestIff` | xv6 slab allocator/kernel/slab.c:714-723 | the class holds the request if and only if the size is at most 2^64 - 8; above that the rounding wraps and class 0 is used |
| `SlabTheorems.ChainCount` | xv6 slab allocator/kernel/slab.c:557-564 | a free chain without repetition over the indices leaves exactly count minus its length in use |
| `SlabTheorems.TakeKeeps` | xv6 slab allocator/kernel/slab.c:507-538 | the fast path succeeds if and only if a partial or empty slab exists, so its NULL-object error is unreachable; it takes the first partial slab and only without one the first empty slab, and there the first object of the chain; exactly that object comes into use, and list membership still follows inuse |
| `SlabTheorems.AttachKeeps` | xv6 slab allocator/kernel/slab.c:598-614 | attaching a new slab and allocating from it never fails; exactly object 0 of the new slab comes into use |
| `SlabTheorems.PutKeeps` | xv6 slab allocator/kernel/slab.c:679-690 | freeing an object in use takes exactly that object out of use, puts it first on its slab's chain, and the slab moves to the list its inuse says |
| `SlabTheorems.PopEmptyKeeps` | xv6 slab allocator/kernel/slab.c:403-408 | shrinking unlinks a slab that no object in use lies in |
| `SlabCounts.ObjectsInUseExact` | xv6 slab allocator/kernel/slab.c:484-495 | get_objects_in_use is the number of objects in use |
| `SlabSystem.StepKeeps` | xv6 slab allocator/kernel/slab.c:398-761 | every lock-held section of alloc, free, shrink, growth and raw page allocation, in any interleaving, keeps the two-layer invariant |
| `SlabSystem.RunKeeps` | xv6 slab allocator/kernel/slab.c:398-761 | the invariant holds after every run |
| `SlabSystem.FinishIsPut` | xv6 slab allocator/kernel/slab.c:654-690 | when the second section of a free of a live object runs, slab, cache and inuse checks all pass, whatever happened in between |
| `SlabSystem.InitSysInv` | xv6 slab allocator/kernel/buddy.c:90-141 | the allocator after buddy_init, with no caches yet, meets the two-layer invariant, for any base and size |
| `SlabSystem.GrantsNeverOverlap` | xv6 slab allocator/kernel/slab.c:500-693 | in every run two different live objects or raw blocks, of whatever caches, never share a byte |
| `SlabSystem.KFreeTakesTheRightBranch` | xv6 slab allocator/kernel/slab.c:735-761 | in every run a live object's page maps through owner_slab to its own slab and cache, and a raw block's page to none, so k_free takes the right branch |
| `SlabEffects.StepEffect` | xv6 slab allocator/kernel/slab.c:398-761 | every event does to what is handed out and to the free pages exactly what it is for: an allocation adds one object or block if and only if there is one to be had, a free takes exactly that one back, a raw free and the last section of shrinking return exactly the block's pages, and all that stays handed out stays where it is |
| `SlabEffects.GrantStays` | xv6 slab allocator/kernel/slab.c:398-761 | an object or block handed out before and after a step is at the same addresses |
| `SlabEffects.PagesComeBack` | xv6 slab allocator/kernel/slab.c:735-761 | after a page block is freed, an allocation of as many pages or fewer succeeds |
| `SlabEffects.ObjectsComeBack` | xv6 slab allocator/kernel/slab.c:638-690 | the two sections of kmem_cache_free take exactly that object back, and the next allocation from the cache succeeds on the fast path |
| `SlabEffects.GrowGivesObject` | xv6 slab allocator/kernel/slab.c:540-614 | whenever the page allocator has a block of the cache's order, the sections of the growing path hand out exactly one object of a new slab and take exactly that block's pages |
| `SlabEffects.ShrinkReturnsPages` | xv6 slab allocator/kernel/slab.c:398-425 | the sections of one round of kmem_cache_shrink return exactly the pages of an empty slab and change nothing that is handed out |
| `SlabEffects.NothingLost` | xv6 slab allocator/kernel/slab.c:398-761 | in every run, once everything is given back and no thread is inside, each page is free or in a slab on its cache's empty list, where shrinking finds it |
| `Slab.SlabPage.constructor` | xv6 slab allocator/kernel/slab.c:552-564 | the link array built by the loop chains all indices in order |
| `Slab.SlabPage.AllocObj` | xv6 slab allocator/kernel/slab.c:456-464 | takes the head of the free chain; fails only on an empty chain |
| `Slab.SlabPage.FreeObj` | xv6 slab allocator/kernel/slab.c:620-627 | puts the index at the head of the free chain |
| `SlabLists.PushOk` | xv6 slab allocator/kernel/slab.c:428-434 | pushing a node that is on no list gives a well linked list with it at the front |
| `SlabLists.PopOk` | xv6 slab allocator/kernel/slab.c:437-445 | popping takes the first node, leaves the rest well linked, and cuts the links of the node taken |
| `SlabLists.RemoveOk` | xv6 slab allocator/kernel/slab.c:447-453 | removing a node anywhere, first and last included, leaves the others well linked in the same order |
| `Slab.KmemCache.PushFront` | xv6 slab allocator/kernel/slab.c:428-434 | the pointer updates put a slab at the front of any well linked list it is not on, and touch no other link |
| `Slab.KmemCache.PopFront` | xv6 slab allocator/kernel/slab.c:437-445 | the pointer updates take the first slab off a well linked list and leave the rest well linked |
| `Slab.KmemCache.RemoveNode` | xv6 slab allocator/kernel/slab.c:447-453 | the pointer updates take a slab out of a well linked list, wherever it stands, and leave the others in order |
| `Slab.KmemCache.TakeObject` | xv6 slab allocator/kernel/slab.c:507-538 | the fast path over head pointers and prev and next links refines Take: the slab taken from moves to the list its inuse says, all three lists stay well linked, and no link outside them is followed |
| `Slab.KmemCache.AttachSlab` | xv6 slab allocator/kernel/slab.c:598-614 | the attach path over the same links refines Attach: the new slab is at the front of the partial or full list |
| `Slab.KmemCache.PutObject` | xv6 slab allocator/kernel/slab.c:679-690 | the free path refines Put: the slab is unlinked where it stands and pushed to the front of the list its inuse says |
| `Slab.KmemCache.PopEmptySlab` | xv6 slab allocator/kernel/slab.c:403-408 | unlinking the first empty slab refines PopEmpty |
| `Slab.KmemCache.CountSlabs` | xv6 slab allocator/kernel/slab.c:473-482 | following next from the head ends, after as many turns as the list has slabs |
| `Slab.KmemCache.CountInUse` | xv6 slab allocator/kernel/slab.c:484-495 | the loops return the number of objects in use |
| `LogModel.HeadWithHead` | xv6 slab allocator/kernel/log.c:93-120 | read_head reads back the block list that write_head wrote |
| `LogTheorems.BeginOpKeeps` | xv6 slab allocator/kernel/log.c:133-148 | admitting an operation keeps the invariant: none is admitted while a commit runs |
| `LogTheorems.EvictKeeps` | xv6 slab allocator/kernel/bio.c:99-111 | a recycled buffer is never a logged one, since logged blocks are pinned until installed |
| `LogTheorems.LogWriteKeeps` | xv6 slab allocator/kernel/log.c:221-241 | log_write keeps the invariant for operations of any size, absorbed, appended or panicking: logged blocks stay distinct and each is pinned once |
| `LogTheorems.EndOpKeeps` | xv6 slab allocator/kernel/log.c:153-181 | end_op of the last operation sets committing and starts copying if anything is logged, with nothing modified and unlogged; end_op of another one does neither |
| `LogTheorems.CopyOneKeeps` | xv6 slab allocator/kernel/log.c:185-197 | each copied log block is exactly what the finished operations left in the cache |
| `LogTheorems.InstallOneKeeps` | xv6 slab allocator/kernel/log.c:72-89 | each installed block is the committed one and is unpinned once |
| `LogTheorems.CrashKeeps` | xv6 slab allocator/kernel/log.c:123-129 | a crash at any step leaves a disk that recovery can read |
| `LogTheorems.RecoverOneKeeps` | xv6 slab allocator/kernel/log.c:72-89 | recovery may be cut short by a crash after any write and start again |
| `LogTheorems.StepKeeps` | xv6 slab allocator/kernel/log.c:72-241 | every step of any number of threads, with operations of any size, of commit, panic, crash and recovery keeps the invariant |
| `LogTheorems.PanicsIff` | xv6 slab allocator/kernel/log.c:153-228 | in every state a step panics if and only if it is a log_write on a full log; the panics of end_op and of log_write outside a transaction are unreachable |
| `LogTheorems.Refines` | xv6 slab allocator/kernel/log.c:72-241 | each step is the step its event allows of a simple store with a current and a committed image: a write of that block at a modification, a commit of the whole current image at the head write, with no operation running, a return to the committed image at a crash, and nothing at any other event |
| `LogTheorems.Observable` | xv6 slab allocator/kernel/log.c:72-241 | in terms of what a read sees and what recovery would restore alone: the surviving contents of a block change only at the head write, then to what reads saw, and what reads see changes only at a modification of that block or at a crash |
| `LogTheorems.ReadsCurrent` | xv6 slab allocator/kernel/bio.c:117-127 | outside recovery a read of a home block, cached or not, gives the current image |
| `LogTheorems.DurableIsCommitted` | xv6 slab allocator/kernel/log.c:72-129 | in every state what recovery would restore from the disk is the committed image |
| `LogTheorems.BootingInv` | xv6 slab allocator/kernel/log.c:55-68 | booting from a disk whose head block counts at most LOGBLOCKS distinct home blocks, so with a committed log or an empty one, meets the invariant |
| `LogTheorems.CrashAtomicity` | xv6 slab allocator/kernel/log.c:72-209 | in every run from a good disk, with operations of any size, panics, and any number of crashes also during recovery: what survives is the committed image for every home block, and when quiet the home blocks are that image |
| `LogCommit.IdleInEveryRun` | xv6 slab allocator/kernel/log.c:153-209 | in every run from a good disk, whenever no operation and no commit is in progress, the log is empty and what reads give is on disk and is what a crash leaves |
| `LogCommit.CommitCompletes` | xv6 slab allocator/kernel/log.c:153-209 | from every state in which the last operation ends, with nobody holding a buffer: end_op's commit can run to its end, one copy and one install for each logged block, and then every home block on disk is what reads gave, the log is empty and the next operation is admitted |
| `LogCommit.Recycled` | xv6 slab allocator/kernel/bio.c:83-161 | a buffer let go by its only user and not pinned can be recycled, and reading its block again gives the same contents |
| `LogReservation.BegunReserved` | xv6 slab allocator/kernel/log.c:133-148 | begin_op's test keeps lh.n plus all that the running operations may still take within LOGBLOCKS |
| `LogReservation.LoggedReserved` | xv6 slab allocator/kernel/log.c:221-241 | an absorbed block takes nothing from the reservation and an appended one takes one log block of its operation |
| `LogReservation.ReservedStep` | xv6 slab allocator/kernel/log.c:133-241 | every step of operations that take at most MAXOPBLOCKS log blocks each keeps the reservation |
| `LogReservation.ReservationHolds` | xv6 slab allocator/kernel/log.c:133-228 | in every run of operations that take at most MAXOPBLOCKS log blocks each, log_write panics if and only if the log is full, and never for a caller that has taken fewer |
| `LogReservation.FewBlocksNeverPanic` | xv6 slab allocator/kernel/log.c:133-228 | in every run of operations that pass fewer than MAXOPBLOCKS different blocks to log_write, however often, nothing panics |
| `LogReservation.FullShareCanPanic` | xv6 slab allocator/kernel/log.c:221-228 | on any disk with an empty log and 30 home blocks behind it: three operations log MAXOPBLOCKS different blocks each, then one of them logs its first block again and panics, since the test for a full log comes before absorption |
| `Log.LogState.LogWrite` | xv6 slab allocator/kernel/log.c:221-241 | refuses only a full log; a block already logged is absorbed, otherwise appended |
| `Log.LogState.ReadHead` | xv6 slab allocator/kernel/log.c:93-103 | the loop loads the list on disk; the count is not checked, as the log's own writes keep it within LOGBLOCKS |
| `Log.LogState.WriteHead` | xv6 slab allocator/kernel/log.c:109-120 | one disk write puts the list into the head block |
| `Log.LogState.WriteLog` | xv6 slab allocator/kernel/log.c:185-197 | log block j gets what the cache holds of the j-th logged block; the trace is every block write, one at a time, and no crash between any two changes what recovery restores |
| `Log.LogState.InstallTrans` | xv6 slab allocator/kernel/log.c:72-89 | every logged block gets its logged contents; the trace is every block write, one at a time, and no crash between any two changes what recovery restores |
| `Log.LogState.Commit` | xv6 slab allocator/kernel/log.c:200-209 | afterwards every home block is what the cache held and the log is empty; the trace is every block write, one at a time, and switches once from all old to all new |
| `Log.LogState.RecoverFromLog` | xv6 slab allocator/kernel/log.c:123-129 | afterwards every home block is what the log said and the log is empty; the trace is every block write, one at a time, and stopping after any of them changes nothing of that |
| `Bcache.RecycleKeeps` | xv6 slab allocator/kernel/bio.c:99-111 | giving an unused buffer to a block that no buffer holds keeps one buffer per block and the agreement with the plain block map |
| `Bcache.FrontOrdered` | xv6 slab allocator/kernel/bio.c:147-157 | moving a buffer to the front keeps the list ordered by the last move, newest first |
| `Bcache.Cache.constructor` | xv6 slab allocator/kernel/bio.c:49-77 | binit links all NBUF buffers into one ring |
| `Bcache.Cache.Lookup` | xv6 slab allocator/kernel/bio.c:90-97 | the forward scan finds the buffer of the block, or none has it |
| `Bcache.Cache.FindUnused` | xv6 slab allocator/kernel/bio.c:99-111 | the backward scan finds the least recently released buffer with no reference, or all are in use |
| `Bcache.Cache.Bget` | xv6 slab allocator/kernel/bio.c:83-113 | returns the block's buffer if it is cached, else recycles the least recently released unused one; fails if and only if the block is not cached and all buffers are in use; at most one buffer holds a block |
| `Bcache.Cache.Bread` | xv6 slab allocator/kernel/bio.c:117-127 | returns what a plain map of blocks would, on a hit and on a miss |
| `Bcache.Cache.Bwrite` | xv6 slab allocator/kernel/bio.c:131-136 | puts the buffer's contents on disk |
| `Bcache.Cache.Brelse` | xv6 slab allocator/kernel/bio.c:141-161 | drops a reference and, with the last one, moves the buffer to the front; the list stays a permutation of all buffers in order of last move |
| `Bcache.Cache.Bpin` | xv6 slab allocator/kernel/bio.c:164-168 | adds a reference and changes nothing else |
| `Bcache.Cache.Bunpin` | xv6 slab allocator/kernel/bio.c:171-175 | drops a reference and changes nothing else |
| `FsFormat.SetWordWord` | xv6 slab allocator/kernel/fs.c:449-455 | writing one word of an indirect block reads back as written and leaves the other words |
| `FsFormat.BlockBits` | xv6 slab allocator/kernel/fs.c:79-105 | setting or clearing one bit of a map block through its byte and mask changes that bit only |
| `FsModel.AllocatedBits` | xv6 slab allocator/kernel/fs.c:77-86 | taking a clear bit: the block is a data block nobody had, the map then has exactly one block more, and no other data block changes |
| `FsModel.FreedBits` | xv6 slab allocator/kernel/fs.c:100-107 | clearing a bit: the map has exactly one block less and no data block changes |
| `FsModel.LinkDirect` | xv6 slab allocator/kernel/fs.c:429-447 | hanging a fresh block into an inode's own pointers keeps pointers distinct, the map exact, and every file's contents |
| `FsModel.LinkIndirect` | xv6 slab allocator/kernel/fs.c:448-457 | the same for a pointer inside the indirect block |
| `FsSteps.DataWrite` | xv6 slab allocator/kernel/fs.c:557-568 | overwriting part of one data block splices that file, lengthens it if need be, and changes no other file |
| `FsSteps.Truncated` | xv6 slab allocator/kernel/fs.c:467-494 | dropping all pointers of an inode empties that file, frees exactly its blocks, and changes no other file |
| `FsSteps.PointersDistinct` | xv6 slab allocator/kernel/fs.c:424-462 | no two pointers of any inodes, direct, indirect or inside an indirect block, are equal unless 0 |
| `FsSteps.FreeMapExact` | xv6 slab allocator/kernel/fs.c:69-108 | a bit of the map is set if and only if the block is metadata or some pointer leads to it |
| `Fs.FileSystem.Balloc` | xv6 slab allocator/kernel/fs.c:69-91 | returns the first clear bit's block, zeroed and marked, or 0 if and only if the map is full |
| `Fs.FileSystem.Bfree` | xv6 slab allocator/kernel/fs.c:95-108 | clears the bit; the panic for a free block is unreachable for a block in use |
| `Fs.FileSystem.Bmap` | xv6 slab allocator/kernel/fs.c:424-462 | returns the file's block, allocating block and indirect block if missing; no contents of any file change; 0 only on a full disk; nothing changes if the block was there |
| `Fs.FileSystem.Itrunc` | xv6 slab allocator/kernel/fs.c:467-494 | the file becomes empty in memory and on disk, its blocks are free again, no other file changes; every block it changed was passed to log_write, in all at most the blocks of the free map and one |
| `Fs.FileSystem.Readi` | xv6 slab allocator/kernel/fs.c:513-537 | delivers as many of the bytes from the offset on as there are, up to the count, each the file's; none if the offset is past the end or wraps; changes nothing |
| `Fs.FileSystem.Writei` | xv6 slab allocator/kernel/fs.c:547-580 | returns -1 if and only if the offset is past the end of the file or the write would end past 268 blocks, so appending is accepted; else splices what it wrote into that file only, and writes less only on a full disk; the inode on disk matches memory; every block it changed was passed to log_write, and their number is bounded by the blocks the bytes lie in |
| `Fs.FileSystem.WriteBlocks` | xv6 slab allocator/kernel/fs.c:557-568 | the loop splices what it wrote, stops early only on a full disk, and logs few enough blocks to leave room for the inode's |
| `FsBudget.NextTurn` | xv6 slab allocator/kernel/fs.c:424-462 | one turn of the loop logs one data block and at most one block of the free map, besides the indirect block and the block of its bit; a first block that is not written from its start costs no allocation |
| `FsBudget.WriteFits` | xv6 slab allocator/kernel/file.c:168-183 | for filewrite's chunk of 3072 bytes, at any offset and on any disk, what writei logs is at most MAXOPBLOCKS different blocks, and fewer if the free map has at most three blocks |
| `FsBudget.TruncFits` | xv6 slab allocator/kernel/fs.c:467-494 | what itrunc logs is below MAXOPBLOCKS different blocks if and only if the free map has at most eight blocks |
| `Fs.FileSystem.Perform` | xv6 slab allocator/kernel/fs.c:467-580 | any sequence of writes, reads and truncations on any inodes behaves as on independent byte sequences; each disk on the way is sound and holds exactly the files the operations so far make, and a write comes out short only if the disk after it is full |
| `Fs.OthersUntouched` | xv6 slab allocator/kernel/fs.c:467-580 | operations on other inodes leave a file as it was |
| `Fs.ReadAfterWrite` | xv6 slab allocator/kernel/fs.c:513-580 | reading back a written range gives what was written |
| `Fs.ReadableBytes` | xv6 slab allocator/kernel/fs.c:518-521 | what a read delivers, byte by byte, with the clipping at the end of the file |
| `Fs.AppendReadsBack` | xv6 slab allocator/kernel/fs.c:513-580 | on a disk that is not full afterwards every write inside a file or at its end, up to the largest file, is answered in full, the file grows as it should, the bytes read back and no other file changes |
| `Fs.ReadBackInRun` | xv6 slab allocator/kernel/fs.c:513-580 | a write answered in full reads back after any operations on other inodes |
| `Fs.FullIff` | xv6 slab allocator/kernel/fs.c:69-91 | the disk is full if and only if every data block belongs to some inode |
| `FsSteps.SplicedAt` | xv6 slab allocator/kernel/fs.c:557-568 | byte by byte: the written bytes from the offset on, the old ones elsewhere, the file longer only if the write goes past its end |
| `Fs.MarkedUsed` | xv6 slab allocator/mkfs/mkfs.c:236-250 | marking the first blocks of an all-zero disk one by one sets exactly their bits in the free map |
| `Fs.FormattedIsSound` | xv6 slab allocator/mkfs/mkfs.c:93-111 | a disk with zero blocks, the metadata marked in the map and any number of empty inodes meets the file system's invariant, and is not full if it has a data block |
| `HeapModel.OneCircle` | xv6 slab allocator/user/umalloc.c:25-43 | the list read off from any header is the free headers from there upwards in ascending order, each once, then back to base |
| `HeapModel.PlaceExists` | xv6 slab allocator/user/umalloc.c:30-32 | below any block there is a last free header, where free's search must stop |
| `HeapSteps.GivenKeeps` | xv6 slab allocator/user/umalloc.c:33-43 | putting a live block back with both joins keeps one circular address-ordered list, no two touching free blocks and no overlap, and takes exactly that block from the live ones |
| `HeapSteps.Partition` | xv6 slab allocator/user/umalloc.c:25-90 | every byte obtained from sbrk, and no other, lies in exactly one free or live block |
| `HeapSteps.WholeKeeps` | xv6 slab allocator/user/umalloc.c:75-77 | taking a whole block from the list keeps all heap invariants |
| `HeapSteps.TailKeeps` | xv6 slab allocator/user/umalloc.c:78-82 | taking the tail of a block keeps all heap invariants; the tail was no block before |
| `UserHeap.Units` | xv6 slab allocator/user/umalloc.c:69-69 | the units hold the header and the request and less than one unit more |
| `UserHeap.Heap.Place` | xv6 slab allocator/user/umalloc.c:30-32 | the search ends, at the header the block belongs behind |
| `UserHeap.Heap.Free` | xv6 slab allocator/user/umalloc.c:25-44 | the block leaves the live ones and nothing else does; all heap invariants hold; live blocks keep their sizes |
| `UserHeap.Heap.Morecore` | xv6 slab allocator/user/umalloc.c:47-61 | adds the new memory to the heap and makes a free block of at least the size asked for, or changes nothing |
| `UserHeap.Heap.Malloc` | xv6 slab allocator/user/umalloc.c:64-90 | calls morecore once if no free block is large enough and otherwise not at all; fails if and only if none is and sbrk refuses; else exactly one new live block of the right size |
| `PageTableModel.IndexFields` | xv6 slab allocator/kernel/riscv.h:372-380 | the index fields of an address below MAXVA are those of its page number |
| `PageTableModel.GrownOk` | xv6 slab allocator/kernel/vm.c:104-115 | hooking in a zeroed table page changes no mapping |
| `PageTableModel.MappedOk` | xv6 slab allocator/kernel/vm.c:166-168 | writing a leaf entry changes exactly that page's mapping in the flat map the tree agrees with |
| `PageTable.Vm.Walk` | xv6 slab allocator/kernel/vm.c:99-116 | finds the entry that the flat map says; without alloc changes nothing; with alloc only adds table pages from the pool and fails only when it is empty |
| `PageTable.Vm.Mappages` | xv6 slab allocator/kernel/vm.c:147-175 | maps exactly the range, or on failure a proper prefix of it with the pool empty; other spaces and mappings stay |
| `PageTable.MapRangeAt` | xv6 slab allocator/kernel/vm.c:161-174 | the new map agrees with the old outside the range and maps the range to consecutive pages with the given flags |
| `PageTable.Vm.Uvmcreate` | xv6 slab allocator/kernel/vm.c:180-188 | a new space with no mappings, or none if there is no page |
| `PageTable.Vm.Uvmunmap` | xv6 slab allocator/kernel/vm.c:194-213 | removes exactly the range's mappings and, if asked, returns exactly their pages, each once |
| `PageTable.Vm.CopyPage` | xv6 slab allocator/kernel/vm.c:310-318 | one page: a new page with the parent's contents and flags is mapped, or the page is given back |
| `PageTable.Vm.Uvmcopy` | xv6 slab allocator/kernel/vm.c:298-325 | the child gets the parent's mappings, flags and contents in pages of its own from the pool; or on failure has its old mappings, every leaf page it added is back, and the pool has no more pages than the copies need; the parent and all others are untouched |
| `PageTable.Vm.Freewalk` | xv6 slab allocator/kernel/vm.c:264-279 | frees exactly the table pages of the subtree, each once; the panic for a leaf is unreachable when no mapping is left |
| `PageTable.Vm.Uvmfree` | xv6 slab allocator/kernel/vm.c:284-289 | returns exactly the leaf pages and the table pages of the space, each once, and no other page |
| `SleepLock.StepKeeps` | xv6 slab allocator/kernel/proc.c:597-641 | every step of any process in sleep and wakeup under a condition lock, in acquiresleep and releasesleep, of the scheduler and of kkill keeps: whoever has committed to sleep does so on a false condition or with a waker still to pass it; for sleep locks also one owner, with locked set |
| `SleepLock.StartInv` | xv6 slab allocator/kernel/sleeplock.c:14-20 | a fresh lock or condition with nobody using it meets the invariant, for any number of processes |
| `SleepLock.NoLostWakeup` | xv6 slab allocator/kernel/proc.c:597-641 | after any run of processes that test under lk before sleeping and change the condition and wake under lk: when lk is free and the condition holds, so for a sleep lock when locked is 0, nobody sleeps on it or is about to |
| `SleepLock.OneHolder` | xv6 slab allocator/kernel/sleeplock.c:23-42 | after any run of acquiresleep and releasesleep at most one process holds the lock, and locked is set while it does |
| `SleepLock.NoDeadlock` | xv6 slab allocator/kernel/sleeplock.c:23-42 | in every state that meets the invariant: while some process is inside acquiresleep or releasesleep and nobody holds the lock, some process inside can take its next step |
| `SleepLock.KilledWakes` | xv6 slab allocator/kernel/proc.c:644-664 | kkill of a sleeping process makes it runnable again |
| `VirtioTheorems.NotThree` | xv6 slab allocator/kernel/virtio_disk.c:166-222 | never three chains at a time |
| `VirtioTheorems.PrepareKeeps` | xv6 slab allocator/kernel/virtio_disk.c:236-281 | a new request uses three descriptors of no other chain, formatted as a header to read, the buffer to read or to write by the direction of the request, and a status byte to write; it overwrites no entry the device has not read |
| `VirtioTheorems.AnswerTransfers` | xv6 slab allocator/kernel/virtio_disk.c:236-275 | a device that goes by the descriptors and the header completes each request as a plain disk of blocks would: the whole block, in the right direction, at the right sector, and no other buffer or block |
| `VirtioTheorems.ReapKeeps` | xv6 slab allocator/kernel/virtio_disk.c:316-332 | the interrupt handler finds an answered request with its own buffer and the status the device wrote for it: it panics if and only if that status is not 0, and otherwise keeps the invariant |
| `VirtioTheorems.ReturnKeeps` | xv6 slab allocator/kernel/virtio_disk.c:293-298 | a woken thread's free_chain frees exactly its own three descriptors: the panics are unreachable |
| `VirtioTheorems.StepKeeps` | xv6 slab allocator/kernel/virtio_disk.c:225-336 | every step of driver and device, in any interleaving, keeps the invariant; the one panic is a reap of a request that the device answered with an error status |
| `VirtioRuns.PanicsOnlyOnDeviceError` | xv6 slab allocator/kernel/virtio_disk.c:316-332 | in every run a step panics if and only if it reaps a request that the device answered with an error status |
| `VirtioRuns.GoodDeviceNoPanic` | xv6 slab allocator/kernel/virtio_disk.c:225-336 | in every run in which the device reports no error, no step panics |
| `VirtioTransfers.ErrorReached` | xv6 slab allocator/kernel/virtio_disk.c:225-332 | from every start, a request that the device answers with any status other than 0 leads to a state in which the interrupt panics |
| `VirtioRuns.ChainsInEveryRun` | xv6 slab allocator/kernel/virtio_disk.c:211-222 | in every run the chains in flight are at most two and disjoint |
| `VirtioRuns.RingsInEveryRun` | xv6 slab allocator/kernel/virtio_disk.c:281-332 | in every run, across 16-bit wrap-around, the unread entries of both rings are exactly the requests waiting there, in order |
| `VirtioRuns.ReleasedOnceAfterCompletion` | xv6 slab allocator/kernel/virtio_disk.c:293-336 | in every run each submission of a buffer is completed, then released, then returned, each once and in that order; disk is set exactly until the release |
| `VirtioTransfers.FormatInEveryRun` | xv6 slab allocator/kernel/virtio_disk.c:236-275 | in every run and for every request in flight: address, length, direction and link of its three descriptors, and the type and sector of its header |
| `VirtioTransfers.SectorExactIff` | xv6 slab allocator/kernel/virtio_disk.c:227-227 | the sector is twice the block number if and only if the block number is below 2^31, and two block numbers share a sector if and only if they are equal or 2^31 apart |
| `VirtioTransfers.StepMoves` | xv6 slab allocator/kernel/virtio_disk.c:225-336 | the disk changes only when the device completes a write, then in that request's sector to the buffer's contents; a buffer in flight changes only when the device completes a read into it, to what the disk has there |
| `VirtioTransfers.StepAsks` | xv6 slab allocator/kernel/virtio_disk.c:225-336 | a request keeps its buffer, direction and sector through every step, and a write the contents it is to write |
| `VirtioTransfers.ReturnsDone` | xv6 slab allocator/kernel/virtio_disk.c:293-298 | in every run, when a thread leaves virtio_disk_rw the device has reported success, and the buffer holds what was written or what came from the disk |
| `VirtioTransfers.ThreeIff` | xv6 slab allocator/kernel/virtio_disk.c:211-222 | alloc3_desc succeeds if and only if three descriptors are free |
| `VirtioTransfers.RoomIff` | xv6 slab allocator/kernel/virtio_disk.c:211-222 | a request finds its descriptors if and only if fewer than two are in flight |
| `VirtioTransfers.NeverStuck` | xv6 slab allocator/kernel/virtio_disk.c:225-336 | in every state the next step of every request in flight can happen, as soon as the driver is not inside a submission and the device not inside an answer |
| `VirtioTransfers.RequestServed` | xv6 slab allocator/kernel/virtio_disk.c:225-336 | from every state with nothing in flight, wherever the indices are: a request that the device completes moves exactly its block, frees its descriptors and leaves nothing in flight |
| `VirtioTransfers.WriteThenRead` | xv6 slab allocator/kernel/virtio_disk.c:225-336 | a block written from one buffer and then read into another arrives there, and no other buffer or block changes |
| `Virtio.Disk.AllocDesc` | xv6 slab allocator/kernel/virtio_disk.c:166-175 | takes the lowest free descriptor, or none is free |
| `Virtio.Disk.Alloc3Desc` | xv6 slab allocator/kernel/virtio_disk.c:211-222 | takes the three lowest free descriptors, or gives back what it took |
| `Virtio.Disk.FreeChain` | xv6 slab allocator/kernel/virtio_disk.c:195-206 | follows the links and frees exactly the three descriptors of the chain |
| `Virtio.Disk.Submit` | xv6 slab allocator/kernel/virtio_disk.c:225-290 | the in-place code refines the driver's prepare and publish steps, header and descriptor formats included, or changes no descriptor in use |
| `Virtio.Disk.Intr` | xv6 slab allocator/kernel/virtio_disk.c:304-336 | the loop takes exactly the turns up to the device's index, across wrap-around, or stops in a panic at the first of them whose status is not 0 |
| `Virtio.ReachedIsOurs` | xv6 slab allocator/kernel/virtio_disk.c:316-332 | in every state that meets the invariant all used entries are of chains in flight with a buffer, so the handler's accesses are in range |
| `Virtio.Disk.Finish` | xv6 slab allocator/kernel/virtio_disk.c:297-298 | the in-place code refines the driver's return step |
| `Regex.HereIff` | xv6 slab allocator/user/grep.c:85-96 | matchhere holds if and only if a prefix of the text, all of it after a final $, is in the language of the pattern |
| `Regex.StarIff` | xv6 slab allocator/user/grep.c:99-106 | matchstar holds if and only if some number of matching characters is followed by a match of the rest |
| `Regex.MatchHere` | xv6 slab allocator/user/grep.c:85-96 | the recursion terminates and returns 1 if and only if a prefix of the text, all of it after a final $, is in the language of the pattern |
| `Regex.MatchStar` | xv6 slab allocator/user/grep.c:99-106 | the loop terminates and returns 1 if and only if a prefix of the text is in the language of the starred character followed by the rest of the pattern |
| `Regex.Match` | xv6 slab allocator/user/grep.c:73-82 | terminates and returns 1 if and only if some substring, anchored as ^ and $ demand, is in the language |

## Left out

- Buddy.OrderForPages: bounded to 2^30 pages, because beyond that the int in the loop overflows; the same bound stands on Buddy.Allocator.BuddyAlloc.
- SlabGeometry.Layout: bounded to sizes up to 2^64 - 8, because above that the rounding wraps to 0 and the division by the object size is undefined.
- UserHeap.Heap.Malloc: bounded to requests whose memory from sbrk is below 2^31 bytes, because sbrk takes an int; block sizes are unbounded, so a heap of 2^32 units or more is not modelled; which of the large enough free blocks is taken is not stated.
- PageTable.Vm.Uvmcopy: page counts stand for byte sizes rounded up, and kalloc fails only when no page is free.
- PageTable.Vm.Mappages: the flags must include R, W or X, because an entry without them counts as a pointer to a table page.
- VirtioTheorems.PrepareKeeps: a buffer is submitted only when it is not in flight, which its sleep lock ensures.
- Buddy.Allocator.constructor: the region does not start at address 0, because its first page would be NULL to the free lists; the kernel never manages such a region.
- FsBudget.WriteFits: counts what writei and itrunc log; the log_write calls for directories, inode allocation and link counts are not counted.
- Log.LogState.ReadHead: a negative count is read as 0, which the loops treat alike; a count above LOGBLOCKS, which the log never writes, is not modelled.
- Virtio.Disk.Intr: the device's index does not move while the loop runs; in the step machine it may.
- kmem_cache_destroy, and frees of pointers that are not live objects.
- The cache pool, cache names, constructors, destructors, error codes and printed diagnostics.
- Switching between allocator states (curr_kmem), the system calls and user wrappers around the allocator.
- Progress of begin_op: it sleeps on another channel than end_op wakes, so only safety is claimed; outstanding and committing are taken to start at 0.
- A bread miss is one step, and the buffers' sleep locks are modelled with the log, not in the buffer cache class.
- Running out of buffers is possible since NBUF equals LOGBLOCKS; a run that panics on it ends there.
- User copies in readi and writei are taken to succeed; inode allocation, locking and reference counts, directories and paths are not modelled; the inode on disk is the record, not its bytes.
- uvmalloc, uvmdealloc, copyin, copyout, vmfault and the kernel page table.
- The scheduler beyond resuming a process, processes asleep on other channels, and lock acquisition itself, which is atomic.
- VirtioTransfers.StepMoves: a request that the device fails is taken to transfer nothing, because the driver panics on it; the device registers and the interrupt acknowledgement are not modelled.
- The rest of grep (reading lines) and of the kernel: traps, consoles, devices, exec, pipes, files, the rest of mkfs (the root directory and the first files) and user programs.
