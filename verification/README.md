# A five-stage MIPS processor and its kernel, modelled and proved in Dafny

The repository holds a pipelined MIPS processor in Verilog (`cpu/src`) and a port of the ucore
kernel to it (`ucore/kern`). This project models the parts in which the difficulty lies and proves
what they are for. It needs Dafny 4.11 and nothing else: `dafny verify dfyconfig.toml`.

The model keeps the form of the source. Kernel code that updates structures in place is a class with
methods; each method is tied to a pure description of the new state, and the theorems are about those
descriptions. The Verilog stages are functions from one clock cycle to the next, with one class whose
methods perform an edge.

| part | files | what is proved |
|---|---|---|
| page allocator | `BuddyBlocks`, `BuddyTables`, `BuddyPmm`, `BuddyRuns`, `BuddyPages` | free blocks are always the maximal aligned runs of the free frames; nothing is lost or handed out twice over any run; freeing everything restores the start |
| object allocator | `SlabLayout`, `SlabPool`, `SlabPages`, `SlabAllocator`, `SlabRuns` | objects never overlap over any run of kmalloc and kfree, on top of the page allocator itself; freeing every object gives every page back |
| red-black tree | `RbShape`, `RbHeap`, `RbInsert`, `RbDelete`, `RbRemove`, `RbTree` | insertion and deletion on the pointers keep a sorted red-black tree and change the sequence of nodes by exactly one |
| simple file system | `SfsBitmap`, `SfsLayout`, `SfsInode`, `SfsFile`, `SfsRuns` | every block has at most one owner and files behave as byte sequences over any run, also with device errors |
| scheduler, timers, semaphores | `Timers`, `TimerList`, `Sched`, `SchedProof`, `SchedRuns`, `SchedWakes`, `SchedKernel` | an invariant over all steps, bounded waiting, semaphore safety, no lost wake-up, timers on time and in order |
| processor | `MipsWord`, `MipsIsa`, `MipsArithmetic`, `MipsSpec`, `Pipeline`, `PipelineProof`, `PipelineRuns`, `PipelineZero`, `PipelineClock` | the pipeline with forwarding, load stalls, delay slots and flushes refines a sequential machine; flushes are precise |
| address translation | `Tlb`, `TlbKernel`, `TlbRuns` | over any run the TLB answers as the page tables of the directories its entries came from, exactly when these are the current one's answers, and reference counts equal mappings |
| process ids, memory areas, printing | `Pids`, `Vmas`, `PrintNum` | fresh identifiers, the user memory test byte by byte, division without a divider |
| shared | `Bits`, `Lists`, `Options`, `Paging` | |

## Model

| member | source | states |
|---|---|---|
| BuddyRuns.Serve | ucore/kern/mm/buddy_pmm.c:121-217 | Over every sequence of alloc_pages and free_pages calls in which an allocation is freed at most once: the tables stay in order, live allocations are pairwise disjoint and disjoint from the free frames, free frames plus pages handed out stay constant, no assertion fires; n pages are handed out iff the frames that are not live hold an aligned run that is large enough, and a release gives back exactly its allocation (`Answered`); once nothing is live the free blocks are exactly those of the start |
| BuddyRuns.AllocThenFree | ucore/kern/mm/buddy_pmm.c:121-217 | Allocating any n pages and freeing them restores the same set of free blocks, not only the same free frames |
| BuddyRuns.LiveSize | ucore/kern/mm/buddy_pmm.c:121-130 | The frames of the live allocations number exactly the pages asked for |
| BuddyPmm.BuddyManager.constructor | ucore/kern/mm/buddy_pmm.c:43-50 | Empty, well-formed tables over a page array in which every page is reserved |
| BuddyPmm.BuddyManager.InitMemmap | ucore/kern/mm/buddy_pmm.c:53-77 | A new zone of any number of pages becomes free as a whole, in blocks that keep the tables canonical; no other page changes |
| BuddyPmm.GetOrder | ucore/kern/mm/buddy_pmm.c:80-89 | The least order whose block holds n pages, or the panic exactly if n exceeds 2^10 |
| BuddyPmm.SearchIsComplete | ucore/kern/mm/buddy_pmm.c:93-118 | The search through the lists fails exactly if no aligned run of 2^order frames is free |
| BuddyPmm.NoPageLeft | ucore/kern/mm/buddy_pmm.c:93-118 | The search for one page fails exactly if no frame is free |
| BuddyPmm.BuddyManager.AllocPagesSub | ucore/kern/mm/buddy_pmm.c:93-118 | Takes the head of the first non-empty list and splits it down: the result is an aligned free block of the order asked for, which alone leaves the free frames; page contents but for block marks stay |
| BuddyPmm.BuddyManager.AllocPages | ucore/kern/mm/buddy_pmm.c:121-130 | Panic iff n > 2^10; NULL iff no block is large enough, with tables unchanged; else n consecutive pages of one zone that were free and are the only ones taken, the trimmed tail going back |
| BuddyTables.BuddyTestIsExact | ucore/kern/mm/buddy_pmm.c:134-142 | page_is_buddy answers true exactly if the sibling is a free block, also if its index lies outside the zone |
| BuddyTables.PagesAreFrames | ucore/kern/mm/buddy_pmm.c:145-154 | page2idx and idx2page are inverse to each other on managed pages |
| BuddyPmm.BuddyManager.FreePagesSub | ucore/kern/mm/buddy_pmm.c:158-186 | The merge loop with its last insertion reaches a canonical table again: free frames grow by exactly the block, and list contents, counters and flags agree with the block set |
| BuddyTables.TakeIsPending | ucore/kern/mm/buddy_pmm.c:175-177 | Unlinking a free block, lowering nr_free and clearing its flag leaves lists, counters, flags and zones in agreement, with the block in transit |
| BuddyTables.MergeStaysPending | ucore/kern/mm/buddy_pmm.c:169-180 | A merge round: the transit block and its free sibling become their parent block in transit, and no frame is lost |
| BuddyTables.InsertCompletes | ucore/kern/mm/buddy_pmm.c:181-185 | Setting order and flag, raising nr_free and linking a block without a free sibling restores the tables, with the block counted as free |
| BuddyPmm.BuddyManager.FreePages | ucore/kern/mm/buddy_pmm.c:189-217 | For any run of pages inside a zone that are not free: the order assertion fires iff the run holds an aligned run of 2^11 frames; otherwise free frames grow by exactly the run and reference counts of exactly those pages are cleared |
| BuddyRuns.FreeTooMuch | ucore/kern/mm/buddy_pmm.c:189-217 | A manager of one zone of 2048 pages from which every page has been taken: free_pages of all 2048 at once trips the order assertion |
| BuddyPmm.BuddyManager.NrFreePages | ucore/kern/mm/buddy_pmm.c:220-227 | The sum over the lists is the number of free frames |
| BuddyBlocks.BlocksAreMaximal | ucore/kern/mm/buddy_pmm.c:134-186 | In a set of blocks without free siblings the blocks are exactly the maximal aligned runs of the free frames (what the merging test aims at; that the code reaches such sets is FreePagesSub) |
| BuddyBlocks.CanonicalFormIsUnique | ucore/kern/mm/buddy_pmm.c:158-186 | Merged block sets with the same free frames are equal, so the order of frees never matters |
| BuddyPages.GetPages | ucore/kern/mm/pmm.c:58-68 | alloc_pages in page numbers: NULL iff the lists have no room; else a run of free pages of one zone leaves the free set |
| BuddyPages.PutPages | ucore/kern/mm/pmm.c:71-79 | free_pages in page numbers: a run that is not free joins the free set |
| BuddyPages.SamePagesSameBlocks | ucore/kern/mm/buddy_pmm.c:158-186 | The set of free page numbers determines the block set |
| SlabRuns.Serve | ucore/kern/mm/kmalloc.c:385-490 | Over every sequence of kmalloc and kfree calls on the buddy allocator: each call adds one object of the size asked for or none, or takes away exactly the one freed (`Answered`), the objects callers hold never share a byte, every page is free, in one slab or somebody else's, pages of others are untouched, and once all objects are given back no slab is left and the buddy allocator has exactly the free blocks of the start |
| SlabRuns.AllocThenFree | ucore/kern/mm/kmalloc.c:411-490 | kmalloc and kfree of the object restore the objects callers hold, the slabs and the free blocks of the buddy allocator, also if caches grew and shrank on the way |
| SlabAllocator.SlabAllocator.KMalloc | ucore/kern/mm/kmalloc.c:411-419 | Panic iff the size exceeds the largest cache; NULL iff the cache of the size has no slot and no new slab can be had (`NoObject`); NULL changes neither the slabs nor the free blocks; else one new object of at least the size asked for, apart from every other object and every management area inside a slab |
| SlabAllocator.SlabAllocator.KFree | ucore/kern/mm/kmalloc.c:471-490 | The address alone leads to slab and slot; exactly that object is gone, and pages of emptied slabs are back |
| SlabAllocator.SlabAllocator.CacheAlloc | ucore/kern/mm/kmalloc.c:385-407 | One more object of the cache, or NULL with slabs and page owners as they were; NULL iff no slab of the cache has a slot and either the buddy allocator has no room for a slab, or the slab is managed outside, the cache of its management area has no slot, and the slab would take the last free pages (`NoSlab`) |
| SlabAllocator.SlabAllocator.AllocNew | ucore/kern/mm/kmalloc.c:326-367 | Growing a cache: pages, management area (which may itself grow another cache) and first slot; if the management area cannot be had the pages go back |
| SlabAllocator.SlabAllocator.CacheGrow | ucore/kern/mm/kmalloc.c:337-361 | The new slab with its chain of bufctl entries is on the not-full list and owns its pages |
| SlabAllocator.SlabAllocator.AllocOne | ucore/kern/mm/kmalloc.c:370-381 | Takes the slot at the head of the free chain of the first not-full slab; a slab that fills up changes lists |
| SlabAllocator.SlabAllocator.FreeOne | ucore/kern/mm/kmalloc.c:424-462 | The slot goes to the head of the free chain, the slab changes lists or is destroyed, and with it the object that held its management area |
| SlabAllocator.SlabAllocator.Destroy | ucore/kern/mm/kmalloc.c:424-441 | An emptied slab leaves its list and its pages are free again; the account of pages still balances |
| SlabAllocator.ObjectsApart | ucore/kern/mm/kmalloc.c:370-381 | Two live objects, of whichever caches, never share a byte |
| SlabAllocator.ObjectsOffManagement | ucore/kern/mm/kmalloc.c:292-308 | No object touches a management area that lies in the pages of a slab |
| SlabAllocator.OutsideManagementFits | ucore/kern/mm/kmalloc.c:292-308 | A management area outside its slab is an object of its own, large enough, and no caller's |
| SlabAllocator.OwnerOf | ucore/kern/mm/kmalloc.c:445-490 | The page entry and the shift by the object size recover slab and slot from the address of any object |
| SlabPages.SomeObject | ucore/kern/mm/kmalloc.c:445-462 | Wherever a slab exists a caller holds an object, so no slab is left without objects |
| SlabPages.ObjectsDetermineSlabs | ucore/kern/mm/kmalloc.c:326-462 | The objects that callers hold determine which slabs exist, those that only hold the management of others included |
| SlabPages.AccountsFree | ucore/kern/mm/kmalloc.c:326-441 | Slabs, pages of others and the total determine which pages are free |
| SlabLayout.CacheEstimate | ucore/kern/mm/kmalloc.c:174-202 | The number of objects and the left-over of a slab of a given order, with the management area inside or outside |
| SlabLayout.CalculateSlabOrder | ucore/kern/mm/kmalloc.c:211-238 | The order chosen and its object count and left-over, for each object size |
| SlabLayout.InitCache | ucore/kern/mm/kmalloc.c:254-283 | init_kmem_cache computes the layout that LayoutFits is about |
| SlabLayout.LayoutFits | ucore/kern/mm/kmalloc.c:163-283 | For every cache objects and management area fit into the slab without overlap, and an outside area comes from a cache that is itself managed inside and large enough |
| RbTree.RedBlackTree.constructor | ucore/kern/libs/rb_tree.c:28-64 | An empty tree between its two sentinels |
| RbTree.RedBlackTree.Rotate | ucore/kern/libs/rb_tree.c:78-97 | Both rotations on the pointers: the store then holds the rotated tree at the same place, and no assertion fires |
| RbHeap.RotationRep | ucore/kern/libs/rb_tree.c:78-97 | The pointer assignments of a rotation turn the represented tree into the rotated one, with ancestors and subtrees in place |
| RbTree.RedBlackTree.InsertBinary | ucore/kern/libs/rb_tree.c:112-129 | The node is a leaf of the search tree: all ids before it have keys not above its key, all after it have larger keys |
| RbTree.RedBlackTree.Insert | ucore/kern/libs/rb_tree.c:132-171 | The tree is red-black and sorted again; the in-order sequence gains exactly the node, behind all nodes with keys up to its own; nothing outside the tree changes |
| RbTree.RedBlackTree.InsertFixup | ucore/kern/libs/rb_tree.c:137-168 | Repairs a red node under a red parent on every path to the top without changing the in-order sequence |
| RbTree.RedBlackTree.Successor | ucore/kern/libs/rb_tree.c:178-198 | The next node of the in-order sequence, or nil at its end |
| RbTree.RedBlackTree.Predecessor | ucore/kern/libs/rb_tree.c:204-224 | The previous node of the in-order sequence, or nil at its start |
| RbTree.RedBlackTree.Search | ucore/kern/libs/rb_tree.c:231-239 | A node with the key iff the tree holds one |
| RbTree.RedBlackTree.DeleteFixup | ucore/kern/libs/rb_tree.c:245-288 | From a subtree one black level short the loop restores a red-black tree with the same in-order sequence, with the root cached before the rotations as in the source |
| RbTree.RedBlackTree.RaiseRedSibling | ucore/kern/libs/rb_tree.c:252-257 | The red-sibling case keeps the in-order sequence and the deficit, under a black sibling |
| RbTree.RedBlackTree.ReddenSibling | ucore/kern/libs/rb_tree.c:258-261 | The case of two black nephews moves the deficit to the parent, or ends it at a red one |
| RbTree.RedBlackTree.RaiseNephew | ucore/kern/libs/rb_tree.c:263-268 | The case of a red near nephew brings a red far nephew about |
| RbTree.RedBlackTree.RaiseSibling | ucore/kern/libs/rb_tree.c:269-273 | The case of a red far nephew ends the deficit, and leaves the cached root black |
| RbTree.RedBlackTree.Delete | ucore/kern/libs/rb_tree.c:294-327 | The tree is red-black and sorted again, and the in-order sequence loses exactly the node, whichever node is spliced out; nothing outside the tree changes |
| RbRemove.TakeoverRep | ucore/kern/libs/rb_tree.c:312-323 | After the pointer exchange the store holds the same tree with y in the place of z |
| RbTree.RedBlackTree.CheckTree | ucore/kern/libs/rb_tree.c:378-404 | None of the assertions of the recursive test fails on a red-black sorted tree; it returns one more than the black height |
| SfsRuns.Serve | ucore/kern/fs/sfs/sfs_inode.c:439-809 | Over every sequence of reads, writes and truncations, whatever the device does: the files, each a size and the bytes of its blocks, pass through one state per request, a request is served iff it is admissible there, and changes the state as Wrote, Gave and Resizes say, also past the end of a file and where the size exceeds the blocks; no block in use is ever free and the free count is right; on a disk that does not fail no size gets more than a block ahead of the blocks, and so no read trips the assertion |
| SfsRuns.Handle | ucore/kern/fs/sfs/sfs_inode.c:439-809 | One request: its own file changes as described, no other file does in size, blocks or bytes, and the assertions of sfs_bmap_load_nolock and sfs_truncfile fire iff the bytes asked for begin beyond the block behind the last, or the size stays and size and blocks were out of step |
| SfsRuns.NearKept | ucore/kern/fs/sfs/sfs_inode.c:286-304 | A request that meets no device error keeps every size within a block of the blocks, and then no read begins beyond the block behind the last |
| SfsRuns.WriteThenRead | ucore/kern/fs/sfs/sfs_inode.c:439-553 | Bytes are written iff there are free blocks for them, and what was written is what a read at the same offset gives back, also past the end of the file and where the size exceeds the blocks |
| SfsRuns.LaidOverwrites | ucore/kern/fs/sfs/sfs_inode.c:439-526 | A write inside the file overwrites exactly its range of the contents, and one across the end appends the rest |
| SfsRuns.Reclaim | ucore/kern/fs/sfs/sfs_inode.c:700-738 | Deleting a file gives back every block it had: data, indirect and inode; the assertion of sfs_truncfile fires iff the size is zero and there are blocks |
| SfsRuns.GrowWithoutRoom | ucore/kern/fs/sfs/sfs_inode.c:768-809 | On a disk with one free block an empty file grown to two blocks keeps size 0 and one block, and truncating it to its own size then trips the assertion |
| SfsRuns.WritePastEnd | ucore/kern/fs/sfs/sfs_inode.c:439-526 | On a disk with one free block an empty file grows to one block and then gets a write of one byte at offset 4097: no space, nothing written, and the size is 4097 with one block; a read of the byte at 4096 then reports no space |
| SfsRuns.SmallDisk | ucore/kern/fs/sfs/sfs_inode.c:768-809 | Such a disk exists: super block, root directory, free map, the inode and one block |
| SfsFile.TruncFile | ucore/kern/fs/sfs/sfs_inode.c:768-809 | Refusal, assertion, success and the two failures, each iff its condition; the bytes of kept blocks stay, new blocks are zero, free blocks accounted for; on a disk that does not fail success iff there is room, and size and blocks stay in step iff it was not the case that growing could begin but not finish |
| SfsFile.Extend | ucore/kern/fs/sfs/sfs_inode.c:785-793 | The growing loop adds zero blocks behind the old ones and stops short exactly if the free blocks run out |
| SfsFile.Cut | ucore/kern/fs/sfs/sfs_inode.c:794-801 | The shrinking loop keeps a prefix of the blocks and frees the rest |
| SfsFile.Io | ucore/kern/fs/sfs/sfs_inode.c:439-526 | For every file, its size beyond its blocks or not: EINVAL iff the range is bad in 32-bit arithmetic; the assertion of sfs_bmap_load_nolock iff the bytes asked for begin beyond the block behind the last; on a disk that does not fail success iff the free blocks suffice for the blocks missing, and nothing moved for want of space iff they do not suffice for the first; a write lays the prefix it reports over the bytes of the file, in no more blocks than it needs, and size and blocks stay in step iff it wrote something or began no later than the end of the blocks; a read delivers the bytes of the blocks, adds zero blocks where the size promises bytes that no block holds, and otherwise changes nothing; all other files keep size, blocks and bytes |
| SfsFile.Move | ucore/kern/fs/sfs/sfs_inode.c:475-518 | Head, whole blocks and tail of a request cover exactly the range, in order |
| SfsInode.Sfs.BlockAlloc | ucore/kern/fs/sfs/sfs_inode.c:65-75 | A free block, zeroed and no longer free; E_NO_MEM iff none is free; on a device error it stays allocated without an owner |
| SfsInode.Sfs.BlockFree | ucore/kern/fs/sfs/sfs_inode.c:77-82 | The block is free again and counted |
| SfsInode.Sfs.BmapGetSub | ucore/kern/fs/sfs/sfs_inode.c:152-195 | The entry of an indirect block, creating data block and indirect block as needed; if space runs out every block taken on the way is given back, and errors leave all files as they were |
| SfsInode.Sfs.BmapGet | ucore/kern/fs/sfs/sfs_inode.c:197-238 | The block in a slot, direct or indirect, created if the slot is the next to fill; errors leave all files as they were |
| SfsInode.Sfs.BmapFreeSub | ucore/kern/fs/sfs/sfs_inode.c:240-256 | Clears an entry of the indirect block and frees its block |
| SfsInode.Sfs.BmapFree | ucore/kern/fs/sfs/sfs_inode.c:258-284 | Frees the block in the last slot |
| SfsInode.Sfs.BmapLoad | ucore/kern/fs/sfs/sfs_inode.c:286-304 | Reading the block map is pure below the block count; at the count the file grows by one zero block |
| SfsInode.Sfs.BmapTruncate | ucore/kern/fs/sfs/sfs_inode.c:306-317 | The file loses exactly its last block, or nothing changes |
| SfsInode.Sfs.ReadBlock | ucore/kern/fs/sfs/sfs_io.c:33-36 | The contents of a block, or an error |
| SfsInode.Sfs.WriteBlock | ucore/kern/fs/sfs/sfs_io.c:38-41 | The contents of one block replaced, or an error |
| SfsInode.Sfs.RBuf | ucore/kern/fs/sfs/sfs_io.c:43-55 | Part of a block, through the buffer |
| SfsInode.Sfs.WBuf | ucore/kern/fs/sfs/sfs_io.c:57-70 | Part of a block replaced and the rest kept |
| SfsInode.Sfs.ClearBlock | ucore/kern/fs/sfs/sfs_io.c:91-106 | A block filled with zero |
| SfsBitmap.Bitmap.constructor | ucore/kern/fs/sfs/bitmap.c:18-50 | All bits below the size are free and the surplus of the last word is not |
| SfsBitmap.Bitmap.Alloc | ucore/kern/fs/sfs/bitmap.c:52-70 | The lowest free bit, or failure iff none is free; the assertion in the inner loop cannot fire |
| SfsBitmap.Bitmap.Test | ucore/kern/fs/sfs/bitmap.c:80-85 | Whether a bit is free |
| SfsBitmap.Bitmap.Release | ucore/kern/fs/sfs/bitmap.c:87-93 | A bit in use becomes free |
| SchedProof.StepKeepsInv | ucore/kern/schedule/sched.c:57-177 | Every step of schedule, tick, timers, sleep, semaphores, kill, wake, fork, exit and wait keeps run queue, wait queues, timers and process states in agreement; in particular every listed timer belongs to a process in do_sleep |
| SchedRuns.BoundedWaiting | ucore/kern/schedule/sched.c:78-104 | A process at position j of the run queue moves up by one with each schedule(), whatever else happens, and runs after exactly j + 1 of them |
| SchedRuns.SemaphoreSafety | ucore/kern/sync/sem.c:16-76 | Over every run: no semaphore is negative or positive with waiters, units taken and not given back never exceed the initial value, and waiters are served in order of arrival |
| SchedRuns.UpIsNotLost | ucore/kern/sync/sem.c:16-30 | After up the first waiter can run and is running or queued, also if it has not yet called schedule() |
| SchedRuns.HandedReturns | ucore/kern/sync/sem.c:32-54 | A waiter that was handed the semaphore at position j resumes in __down after exactly j + 1 calls of schedule() |
| SchedRuns.HandedBeforeSchedule | ucore/kern/sync/sem.c:32-54 | If up lands before the waiter's own schedule(), then after it the waiter is current in __down or last in the run queue with the semaphore handed to it |
| SchedWakes.TimerWakes | ucore/kern/schedule/sched.c:147-177 | A timer interrupt wakes exactly the processes whose timer had one tick left; those that slept and are not current queue up behind all others in the order of the timer list; nobody else changes but for the slice of the current process |
| SchedWakes.NapEndsInTime | ucore/kern/process/proc.c:1032-1049 | After do_sleep(n) and n timer interrupts, whatever else happens, the process can run and is current or queued, unless it has already come out of do_sleep |
| SchedWakes.NapLasts | ucore/kern/process/proc.c:1032-1049 | Over every run with fewer than n timer interrupts in which nobody kills or wakes it, it sleeps and has exactly the rest of its ticks to go |
| SchedWakes.KillWakes | ucore/kern/process/proc.c:884-898 | do_kill marks the process; one that sleeps interruptibly can run and is current or last in the queue, any other keeps state, wait and phase; nothing else changes |
| SchedWakes.KilledRuns | ucore/kern/process/proc.c:884-898 | A process killed in an interruptible sleep is dispatched by the schedule() after as many as there were processes in the queue |
| SchedWakes.SleeperStays | ucore/kern/process/proc.c:822-881 | Over every run a process that waits as in do_wait sleeps until somebody kills or wakes it |
| SchedWakes.SleepBegins | ucore/kern/process/proc.c:822-881 | Going to sleep there brings that state about |
| SchedWakes.ExitIsFinal | ucore/kern/process/proc.c:474-527 | Over every run a process that has exited is never current or queued again until it is freed |
| SchedWakes.ExitThenSchedule | ucore/kern/process/proc.c:474-527 | Exit and schedule() bring that state about |
| SchedWakes.SpawnIsLast | ucore/kern/process/proc.c:419-468 | A new process can run, with a full slice, behind all others |
| SchedWakes.SliceEnds | ucore/kern/schedule/default_sched.c:42-50 | A process that stays current is asked to give way iff as many timer interrupts have come as its slice had left, so after at most 20, and idleproc iff one has |
| SchedWakes.ScheduleSlice | ucore/kern/schedule/sched.c:78-104 | schedule() clears the request, fills up a slice that has run out, keeps all other slices and counts the run |
| SchedProof.DownEndIsHanded | ucore/kern/sync/sem.c:32-65 | When __down resumes, the semaphore has been handed over and the wait is off the queue, so the assertion of down() holds |
| SchedKernel.Machine.EnqueueProc | ucore/kern/schedule/default_sched.c:13-23 | The process is last in the queue with a full slice if it had none |
| SchedKernel.Machine.WakeupProc | ucore/kern/schedule/sched.c:57-76 | A sleeper becomes runnable and is queued unless it is current |
| SchedKernel.Machine.Schedule | ucore/kern/schedule/sched.c:78-104 | The step of the same name, in place; the invariant holds again |
| SchedKernel.Machine.ProcTick | ucore/kern/schedule/default_sched.c:42-50 | The slice of the current process counts down and asks for a reschedule at zero; idleproc always asks |
| SchedKernel.Machine.SemUp | ucore/kern/sync/sem.c:16-30 | The step of the same name, in place; the assertion on the waiter's state holds |
| SchedKernel.Machine.SemDownBegin | ucore/kern/sync/sem.c:32-43 | Either a unit is taken or the process sleeps at the end of the wait queue |
| SchedKernel.Machine.SemDownEnd | ucore/kern/sync/sem.c:44-54 | After schedule(): the flags are those of the hand-over |
| SchedKernel.Machine.SemTryDown | ucore/kern/sync/sem.c:67-76 | A unit is taken iff there is one |
| SchedKernel.Machine.DoKill | ucore/kern/process/proc.c:884-898 | The step that KillWakes describes, in place, with the result 0 iff the process was not already exiting |
| SchedKernel.Machine.SleepBegin | ucore/kern/process/proc.c:1032-1043 | The process sleeps with its timer listed |
| SchedKernel.Machine.SleepEnd | ucore/kern/process/proc.c:1045-1049 | The timer is gone, whether or not it fired |
| SchedKernel.Machine.TimerInterrupt | ucore/kern/schedule/sched.c:147-177 | The step that TimerWakes describes, in place: list of timers, run queue and slices |
| Timers.FiresOnTime | ucore/kern/schedule/sched.c:106-177 | Over every run of additions, deletions and ticks a timer with n ticks left fires on the n-th tick, once, and is then gone |
| Timers.TiesFireInOrder | ucore/kern/schedule/sched.c:106-177 | Over every such run: if x has n ticks left when y is added with n and neither is deleted, the n-th tick fires x before y |
| Timers.AddRefines | ucore/kern/schedule/sched.c:106-126 | Splitting the delta on insertion keeps every absolute time and puts the timer behind those due no later |
| Timers.DeleteRefines | ucore/kern/schedule/sched.c:128-145 | Passing the delta on to the successor keeps every other absolute time |
| Timers.TickRefines | ucore/kern/schedule/sched.c:147-177 | Lowering only the first delta lowers every absolute time by one |
| TimerList.TimerQueue.AddTimer | ucore/kern/schedule/sched.c:106-126 | The list in place, in absolute times; deltas stay within 32 bits |
| TimerList.TimerQueue.DelTimer | ucore/kern/schedule/sched.c:128-145 | The timer is gone, or nothing changes if it was not listed; the sum of deltas does not overflow |
| TimerList.TimerQueue.RunTimerList | ucore/kern/schedule/sched.c:147-177 | Fires exactly the timers whose time has come, in list order, without tripping the assertion on the first delta |
| PipelineRuns.ProgramCommits | cpu/src/cpu.v:1-685 | For every program that keeps code and data apart and aims only zeros at $0, from every restarted state and under every pattern of bus waits, the registers of the pipeline run through the states of the sequential machine with delay slots, in order |
| PipelineRuns.ProgramMeans | cpu/src/cpu.v:1-685 | The same against the instruction set: after any edges the registers, HI and LO are those after some n instructions as MipsSpec gives their meaning, the memory that after at most two more, and n is at least half the accepted edges less nine |
| MipsSpec.RunMeans | cpu/src/id.v:132-585 | The sequential machine, which shares decoder, arithmetic and branch logic with the pipeline, follows over every run an instruction set stated on its own: addition and subtraction mod 2^32, signed comparison and product, shifts as multiplication and floor division, branches, jumps with links, loads and stores |
| MipsSpec.ExecuteMeans | cpu/src/id.v:132-585 | Every instruction, from its encoding, does what its meaning says to registers, HI, LO, memory, pc, next pc and delay slot |
| MipsSpec.RoundTrip | cpu/src/defines.v:1-46 | The disassembler reads back every instruction as it was assembled, so no two share a word |
| MipsSpec.Reassembles | cpu/src/defines.v:1-46 | What it reads out of a word assembles to that word |
| MipsSpec.NoInstruction | cpu/src/id.v:132-585 | A word that is no instruction writes nothing and does not branch |
| MipsSpec.BranchLands | cpu/src/id.v:396-447 | After BEQ, BNE, BLEZ or BGTZ and the delay slot the pc is that of the branch plus 4 plus the signed offset times 4, iff the registers are equal, differ, or the signed value is at most or above zero; else it is that of the branch plus 8 |
| MipsSpec.SignLands | cpu/src/id.v:448-478 | The same for BLTZ and BGEZ |
| MipsSpec.JumpLands | cpu/src/id.v:371-395 | J and JAL reach their target in the segment of the delay slot, and JAL leaves the address behind the delay slot in $31 |
| MipsSpec.RegisterLands | cpu/src/id.v:268-292 | JR and JALR reach the register's value as it was, and JALR leaves the address behind the delay slot in its register |
| MipsSpec.LoadAfterStore | cpu/src/mem.v:1-60 | A word or byte stored is what a load of the same address gives, and loads elsewhere do not see it |
| MipsSpec.LittleEndian | cpu/src/mem.v:1-60 | The low byte of a word comes first |
| MipsSpec.StoreThenLoad | cpu/src/mem.v:1-60 | SW and then LW with the same base and offset give the register's value back |
| PipelineRuns.RunRefines | cpu/src/cpu.v:1-685 | After any number of clock edges with any waits and any flushes the pipeline is at its place in the sequential run |
| PipelineRuns.RunCommits | cpu/src/mem_wb.v:68-121 | Every clean run without flushes commits the sequential states in order |
| PipelineRuns.CodeApartIsClean | cpu/src/control.v:362-394 | Programs that keep code and data apart and aim only zeros at $0 are clean: a fetch made early sees what a fetch in order would |
| PipelineRuns.ForwardingIsExact | cpu/src/id.v:609-662 | Forwarding is right for every register but $0, and for $0 iff the newest write in flight to it writes zero |
| PipelineProof.StepRefines | cpu/src/id_ex.v:48-131 | A clock edge without a flush moves each stage by at most one instruction and keeps the pipeline in step with the sequential run, load stalls and delay slots included |
| PipelineProof.ForwardingIsCorrect | cpu/src/id.v:609-662 | Without an access in EX the operands, HI and LO are those the sequential machine reads |
| PipelineProof.FlushIsPrecise | cpu/src/ex_mem.v:91-117 | At a flush exactly the instructions older than the one in MEM have reached the registers, nothing younger has written memory, and the pipeline restarts at the target |
| PipelineProof.EpcIsOldest | cpu/src/control.v:145-164 | The address saved is that of the oldest instruction that has not reached the registers, or of the branch before it if that is in a delay slot, also if MEM holds a bubble |
| PipelineProof.BranchBefore | cpu/src/control.v:151-156 | Four less than the address of a delay slot is the address of its branch |
| PipelineZero.ZeroLeaks | cpu/src/id.v:636-662 | Two instructions after which $1 holds 2 where the sequential machine has 0 |
| PipelineClock.Processor.constructor | cpu/src/ex_mem.v:91-117 | The registers as a flush leaves them are in step with the sequential machine at the target |
| PipelineClock.Processor.WriteBack | cpu/src/regfile.v:51-57 | The register file and HI and LO take what WB holds; $0 is never written |
| PipelineClock.Processor.MoveFront | cpu/src/PCRegister.v:17-51 | PC and the IF/ID register: flush, hold, branch or next instruction |
| PipelineClock.Processor.MoveBack | cpu/src/id_ex.v:48-131 | ID/EX, EX/MEM and MEM/WB: flush, bubble or advance |
| PipelineClock.Processor.Request | cpu/src/control.v:339-394 | The next bus request: flush target, data access, branch target or next instruction, with its store |
| PipelineClock.Processor.Tick | cpu/src/cpu.v:1-685 | All clocked registers move together on one edge, those of control.v that remember a data access, a flush and the word fetched during the access included, and none while the bus is not ready |
| PipelineClock.Processor.RunFor | cpu/src/cpu.v:1-685 | Any number of edges in place follow the run that the theorems are about |
| MipsArithmetic.SltIsSignedLess | cpu/src/ex.v:61-63 | SLT from sign bits and a wrapped difference is the signed comparison |
| MipsArithmetic.SraIsFloorDivision | cpu/src/ex.v:106-108 | The arithmetic right shift built from two logical shifts is division by a power of two, rounding down |
| MipsArithmetic.MultIsSignedProduct | cpu/src/ex.v:155-184 | MULT by magnitudes and a negation leaves the exact signed product in HI and LO |
| Bits.BitwiseAnd | cpu/src/ex.v:79-97 | AND sets exactly the bits that both operands have |
| Bits.BitwiseOr | cpu/src/ex.v:79-97 | OR sets exactly the bits that one operand has |
| Bits.BitwiseXor | cpu/src/ex.v:79-97 | XOR sets exactly the bits in which they differ |
| TlbRuns.Serve | ucore/kern/mm/pmm.c:255-308 | Over every sequence of mappings, removals, context switches, bare lcr3 calls and TLB misses: reference counts equal mappings, the tables and the contents of the TLB follow the operations (`After`), and the hardware answers every load and store as the page tables do at that moment which belong to the directory its entry came from; the answers are those of the current directory, for every address, iff the current directory agrees on the pages in the TLB, hence always without a bare lcr3, and also if every miss that a bare lcr3 follows is followed by a flush |
| TlbRuns.NoLoads | ucore/kern/mm/pmm.c:255-308 | Without a bare lcr3 the TLB never holds a page of another directory than the current one |
| TlbRuns.ExposedOnly | ucore/kern/process/proc.c:198-214 | From an empty TLB on, a page of another directory is in the TLB only if a miss came before a bare lcr3 and nothing after that miss flushed |
| TlbKernel.LookupIsCoherent | cpu/src/tlb.v:37-161 | A coherent TLB agrees with the directory for loads and stores, whichever of several matching entries comes first |
| TlbKernel.HardwareWalks | cpu/src/tlb.v:37-161 | The hardware lookup, first match among 16 entries, equals a walk of the page tables of the directory that filled the first slot for the pair of pages |
| TlbKernel.RightExactly | cpu/src/tlb.v:37-161 | All translations are those of a given directory iff it agrees, on every page the TLB holds, with the directory the page came from |
| TlbRuns.MapAndTouch | ucore/kern/mm/pmm.c:289-308 | After page_insert and one miss the address reaches the page's own frame, for stores iff the permission allows it |
| TlbRuns.UserTouch | ucore/kern/trap/trap.c:322-379 | A user access to a page just mapped is refilled iff the permission has PTE_U and, for a store, PTE_W, and then reaches the page's own frame; otherwise it is refused and no access gets through |
| TlbRuns.MissExactly | ucore/kern/trap/trap.c:322-379 | After any operations: a page fault iff the page was never mapped or has been removed since, a refusal iff a user access goes against the permission of the last mapping, else a refill |
| TlbRuns.TablesTell | ucore/kern/mm/pmm.c:255-308 | After any operations every entry is that of the last mapping of its page, or zero after a removal or none |
| TlbRuns.MapThenLoad | ucore/kern/process/proc.c:548-666 | Any sequence of mappings into a directory that is not current and of TLB misses, at least one mapping among them, and then lcr3 alone, as in load_icode, leaves the TLB coherent with the directory loaded, if the one left has no entries |
| TlbRuns.StaleAfterLcr3 | ucore/kern/mm/pmm.c:36-39 | lcr3 from a directory that has filled an entry: the TLB answers with the frame of the previous directory where the current one has another |
| TlbRuns.LoadExactly | ucore/kern/mm/pmm.c:36-39 | After lcr3 from c to d the translations are those of d iff d agrees with c on every page in the TLB; if d maps nothing, as boot_pgdir at proc.c:485 and 790, iff no page in the TLB is present in c |
| TlbKernel.Mmu.TlbInvalidateAll | ucore/kern/mm/thumips_tlb.c:34-38 | 128 writes with the index cut to four bits leave all 16 entries outside the mapped segments, so the TLB is coherent with every directory |
| TlbKernel.Mmu.TlbRefill | ucore/kern/include/thumips_tlb.h:40-49 | The pair of pages around the address comes in from the current directory, in the slot the index names, and all other slots keep what they hold |
| TlbKernel.Mmu.TlbMiss | ucore/kern/trap/trap.c:322-379 | Page fault iff the entry is zero, refusal iff a user access lacks the user bit or, for a store, the write bit, each with TLB and index as they were; else exactly one slot is refilled from the current directory, after which the access to a present page hits its frame if all pages in the TLB are of that directory |
| TlbKernel.Mmu.PageRemovePte | ucore/kern/mm/pmm.c:255-270 | The entry is cleared, the count drops by one, a page is freed iff its count reaches zero, and the TLB is coherent |
| TlbKernel.Mmu.PageInsert | ucore/kern/mm/pmm.c:289-308 | Exactly the one entry changes, counts follow, the page replaced is freed iff its count reaches zero, and the same page mapped again keeps its count |
| Tlb.LowRoundTrip | ucore/kern/include/thumips_tlb.h:26-38 | What the hardware reads from the low register made of a page table entry: valid iff present, dirty iff writable, and the frame of the entry |
| Tlb.KernelSegments | cpu/src/tlb.v:56-61 | Addresses from 0x80000000 to 0xBFFFFFFF go to their low 29 bits whatever the TLB holds |
| Tlb.OthersNeedEntry | cpu/src/tlb.v:62-135 | Any other address gets through only if an entry for its pair of pages exists |
| Pids.PidTable.GetPid | ucore/kern/process/proc.c:162-194 | An identifier in range that no process has, with the cached gap still right, through restarts and wrap-around |
| Pids.PidTable.Fork | ucore/kern/process/proc.c:419-468 | A new identifier that no process has, iff fewer than 4095 processes are listed: the test is on nr_process, which counts the idle process that is not on the list; leaving processes keep the cached gap right |
| Vmas.Mm.FindVma | ucore/kern/mm/vmm.c:77-101 | The cached search gives what a search without a cache gives |
| Vmas.Mm.InsertVma | ucore/kern/mm/vmm.c:105-143 | The area is in its place, the list sorted and without overlap, and none of the overlap assertions fires |
| Vmas.Mm.MmMap | ucore/kern/mm/vmm.c:160-189 | EINVAL iff the range touches no page, or one outside the user range or that meets an area; else exactly one area is added, of whole pages, that begins less than a page before addr and ends less than a page after addr + len |
| Vmas.MapThenCheck | ucore/kern/mm/vmm.c:160-189 | After mm_map a check of any part of the range is true iff the flags allow the access and a write to a stack stays out of its first page |
| Vmas.UserPagesExactly | ucore/kern/mm/vmm.c:160-189 | The test on the rounded limits is the test on the pages that the range touches |
| Vmas.CoversExactly | ucore/kern/mm/vmm.c:160-189 | The area mapped covers the range iff addr + len does not run past the address space |
| Vmas.Carried | ucore/kern/mm/vmm.c:160-189 | A range that does run past it is accepted iff it ends in the user page where it begins, behind the first byte of that page, and passes for that one page |
| Vmas.MapAroundTheWorld | ucore/kern/mm/vmm.c:160-189 | Such a range: 0xFFFFFF00 bytes from 0x10000800 become the one page at 0x10000000 |
| Vmas.Mm.UserMemCheck | ucore/kern/mm/vmm.c:437-462 | True iff the range is a user range and every byte of it lies in an area with the access, wrap-around and the stack guard included |
| PrintNum.DivU10Divides | ucore/kern/include/thumips.h:23-38 | The shifts and adds of __divu10 divide every 32-bit number by ten, and no sum overflows |
| PrintNum.DivU5Divides | ucore/kern/include/thumips.h:40-48 | The same for __divu5 and five |
| PrintNum.Print | ucore/kern/libs/printfmt.c:91-117 | printnum puts out the numeral of the number, padded on the left to the width |
| PrintNum.NumeralDenotes | ucore/kern/libs/printfmt.c:91-117 | The numeral denotes the number and has no leading zero |
| PrintNum.NumeralIsUnique | ucore/kern/libs/printfmt.c:91-117 | It is the only digit string that does |
| PrintNum.PrintedLength | ucore/kern/libs/printfmt.c:91-117 | As many characters as the width or the digits ask for, whichever is more |

## Findings

Six properties that one would expect do not hold of the code. In each case the model follows the
code, a concrete input shows the failure, and the exact condition is proved.

1. **Freeing a large run of pages** (`ucore/kern/mm/buddy_pmm.c:189-217`, the assertion at line 198).
   The first loop of `buddy_free_pages` climbs to an order past the largest one and trips its
   assertion if and only if the run holds an aligned run of 2048 frames.
   `BuddyPmm.BuddyManager.FreePages` states both directions (`HoldsBigRun`), and
   `BuddyRuns.FreeTooMuch` is an input: the 2048 pages of a zone, all taken and then freed at once.
   Runs that `alloc_pages` can hand out are shorter, so the runs of `BuddyRuns.Serve` never meet it.

2. **Size and block count of a file** (`ucore/kern/fs/sfs/sfs_inode.c:768-809`). A growing
   `sfs_truncfile` that finds no room for all blocks returns with the old size and with the blocks it
   did get. From then on the block count is not the size rounded up, and truncating the file to the
   size it has trips the assertion at line 780. On a disk that does not fail the count stays in step
   if and only if it is not the case that the free blocks suffice for the next block of the file but
   not for all of them (`Partway` in `SfsFile.TruncFile`). `SfsRuns.GrowWithoutRoom` and
   `SfsRuns.SmallDisk` give the input: an empty file on a disk with one free block, grown to 8192
   bytes.

3. **Size of a file after a write that found no space** (`ucore/kern/fs/sfs/sfs_inode.c:519-524`).
   `sfs_io_nolock` moves the size to where it stopped also if it wrote nothing. A write that begins
   past the last block and finds no block leaves a size beyond the blocks. A read of the bytes
   between then allocates blocks, and reports that there is no space if there is none. On a disk that does not fail this happens if and only if the first block of the
   write is the one behind the last, the free blocks do not suffice for it (`Blocked` in
   `SfsFile.Io`), and the write begins later than that block's first byte (`Landed`).
   `SfsRuns.WritePastEnd` on the disk of `SfsRuns.SmallDisk` gives the input: one byte written at
   offset 4097 of a file of one block on a full disk.

4. **Forwarding of `$0`** (`cpu/src/id.v:636-662`). The register file ignores writes to `$0`, the
   forwarding paths do not. `addiu $0,$0,1` followed by `addu $1,$0,$0` leaves 2 in `$1`
   (`PipelineZero.ZeroLeaks`). Forwarding is right for every other register, and for `$0` if and only
   if the newest write to it in flight writes zero (`PipelineRuns.ForwardingIsExact`). The refinement
   theorems therefore ask that only zeros are aimed at `$0`.

5. **Translations after `lcr3` alone** (`ucore/kern/mm/pmm.c:36-39`, called without a flush at
   `ucore/kern/process/proc.c:485`, `666` and `790`). `lcr3` leaves the entries of the previous
   directory in the TLB, and they go on answering. The translations are those of the new directory
   if and only if it agrees with the previous one on every page in the TLB; for the empty
   `boot_pgdir`, if and only if none of these pages is present in the previous one
   (`TlbRuns.LoadExactly`, and `AllAlike` in `TlbRuns.Serve` for any state). In terms of the
   operations, a page of another directory is in the TLB only if a miss came before an `lcr3` and
   neither `page_insert`, `page_remove_pte` nor `proc_run` came after that miss
   (`TlbRuns.ExposedOnly`). `TlbRuns.StaleAfterLcr3` gives the input. The call in `load_icode`
   meets the condition: the empty directory is current and pages have been mapped into the new one
   (`TlbRuns.MapThenLoad`).

6. **Ranges that wrap around** (`ucore/kern/mm/vmm.c:160-189`). `mm_map` computes `addr + len` in 32
   bits and does not notice the carry. The area it maps covers the range asked for if and only if
   `addr + len` is below 2^32 (`Vmas.CoversExactly`). With a carry the request is accepted if and
   only if the sum ends in the user page where the range begins, behind the first byte of that page,
   and no area is there (`Vmas.Carried`, `Vmas.Mm.MmMap`). `Vmas.MapAroundTheWorld` gives the input.

Smaller observations: `PauseRequest` of `cpu/src/id.v:663-677` adds nothing to the stall that
`control.v` derives from a data access alone; when zeroing a new block fails, the block stays
allocated without an owner (`ucore/kern/fs/sfs/sfs_inode.c:65-75`), which the model's invariant
allows for; a file that shrinks and grows again within one block shows its old bytes;
`sfs_bmap_get_nolock` reads a variable that is never set for block indices from 12 + 1024 on
(lines 227-232), although a file may be 128 MB long.

## Left out

- BuddyBlocks.BlocksAreMaximal: says what a merged block set is; that the loops of the source reach one is stated by FreePagesSub, AllocPages and InitMemmap.
- BuddyBlocks.CanonicalFormIsUnique: speaks of block sets only; lists, counters and flags follow from them by the table invariant.
- PipelineRuns.RunCommits: assumes a clean run; ProgramCommits derives that from the program.
- PipelineProof.FlushIsPrecise: the store of the instruction in EX in the cycle of a flush is suppressed as in control.v; that a faulting store itself leaves memory alone depends on address translation, which the pipeline model does not contain.
- SfsRuns.Serve: requests that would need more than 12 + 1024 blocks are passed over.
- SfsRuns.Reclaim: the count of users of the inode, its links and the writing back of its dirty copy are not modelled; the method is the path of a file without links.
- SfsFile.Io: a request that begins within reach of the blocks ends within the direct and single indirect blocks; past them the source goes on with a variable it never set.
- SfsInode.Sfs.ClearBlock: one block, as sfs_block_alloc asks for.
- SfsInode.Sfs.BmapGet: slots up to 12 + 1024; for larger indices the source has no branch of its own and returns a variable it never set, so there is no value to state.
- TlbKernel.Mmu.TlbMiss: ends where the page fault handler begins; which frame answers while pages of another directory are in the TLB is stated by HardwareWalks.
- Vmas.Mm.UserMemCheck: for a process with its own memory description; the comparison with the kernel range for kernel threads is not modelled.
- SchedKernel.Machine.Schedule: proc_run's register switch is not modelled; its change of directory with the flush is a step of TlbRuns.Serve.
- Processor: coprocessor 0, the choice of the exception and its target (a flush with any target on any cycle is an input), interrupt latching, reset, address translation and faults on the pipeline's bus, and the devices behind the bus, whose waiting is an input.
- Instructions: division, unaligned and halfword accesses do not exist in the source; ERET, SYSCALL, MTC0, MFC0 and TLBWI are not part of the instruction model. A word that is no instruction changes nothing; the exception it raises is a flush.
- File system: directories, names, the VFS layer, loading and evicting inodes, the on-disk copy of an inode written by fsync, and the super block other than its free count. Inodes are values in memory.
- Devices: a failing block operation is assumed to change nothing on the disk; which operations fail is a parameter.
- Locks and interrupt disabling: kernel code between local_intr_save and local_intr_restore is one step; steps of different processes interleave freely.
- Other wait queues: waiting for a child or the keyboard appears as a step that wakes a process not waiting for a semaphore.
- Processes: address spaces, fork's copying, loading programs, signals other than the kill flag.
- Memory: copy_range, dup_mmap, exit_mmap, page fault service, the page directories' own pages (whether get_pte finds one is a parameter), and the rest of do_exit and do_execve around their lcr3 calls.
- kmalloc: page2kva is multiplication by the page size; the PG_slab flag and page_link.next are folded into one owner entry per page; SET_PAGE_CACHE is implied by the slab.
- Printing: bases 8, 10 and 16 as in the source, unsigned 32-bit numbers; vprintfmt's parsing of formats is not modelled.
- Self-tests of the kernel (check_*), drivers, the boot loader, the user library and programs would add easy members only.
