# A verified model of the nuvix kernel

nuvix is a small SMP kernel for RISC-V. This project models its most intricate parts in Dafny and proves what they are
for. Code that works in place keeps that form: classes and arrays with loops and invariants, each method proved against
a specification. Code that many CPUs or tasks execute at once is a step system: every critical section is one atomic
step, steps of different actors interleave freely, and the results hold of every run.

| module | what it models |
|---|---|
| RbTree | the red-black tree on the pointer heap |
| Memblock, Buddy | the boot-time reservation table and the buddy allocator |
| Cow | copy-on-write sharing between any number of address spaces, with stale translation caches |
| Vma, VmaHeap | the map of an address space: split, unmap, protect, placement, mmap and brk; its insertion and removal on the pointer heap |
| Balloc, Bmap, Dir | ext2 block allocation, the block map with three levels of indirection, directories as bytes |
| Mapping | the page cache |
| Kconfig | the simplifier of Kconfig expressions over three-valued logic |
| Wait, Sched, Timer | mutexes and completions, run queues, timers with synchronous cancel |
| Signals, Pipe | signals with stop and continue, pipes |
| Virtqueue, VirtioBlk | the split virtqueue (section 2.7 of VIRTIO 1.2) and the block driver's request slots on top of it |
| Arith, Errno | shared arithmetic facts and error codes |

`dafny verify dfyconfig.toml` checks the whole project.

## Findings

Places where the code does not do what it seems to promise. Each has a witness and the exact condition.

- The assertion in `mapping_make_room` (mm/mapping.c:89-90) can fail. `mapping_purge` pins a page without taking it off
  the LRU list (mm/mapping.c:312-320), and a concurrent `mapping_get` on a full cache may pick it as its victim.
  Witness: `Mapping.VictimBusy`, a run from an empty cache. Condition: `Mapping.VictimIff`; the assertion holds if and
  only if no thread is between the two halves of a purge of the first page on the list.
- The assertion in `mapping_dirty` (mm/mapping.c:198) can fail for a user that keeps a reference while another thread
  purges the page. Witness: `Mapping.DirtyDetached`. Condition: `Mapping.DirtyIff`; it holds if and only if the page was
  not purged since the reference was taken. A task that keeps the host's mutex from the time it gets the reference is
  safe whatever the others do: `Mapping.DirtyUnderMutex`.
- `ext2_alloc_block` (fs/ext2/balloc.c:65-105) can report success without a block: if the superblock counts free blocks
  and no group does, the loop ends and the caller's variable is never set. Witness: `Balloc.SuccessWithoutBlock`.
  Condition: the last clause of `Balloc.Super.AllocBlock`; with no free block counted in any group and readable
  descriptors it succeeds if and only if the parameters are sane and the superblock's count is positive. With counts that
  agree this cannot happen.
- `pipe_write` (fs/pipe.c:143-145) loses the count of what it wrote when a signal interrupts it while it takes the mutex
  again after waiting: it returns -EINTR instead of the count. Witness: `Pipe.LostCount`. Condition: the clause of
  `Pipe.WriteCall.Attempt` on `r.value.Err? && done > 0`; an error after progress happens if and only if that lock is
  interrupted after something was written. A write of at most the size of the pipe is never affected.
- The Kconfig simplifier turns `A=y && A!="2"` into `A=y` for a tristate symbol A (scripts/kconfig/expr.c:540-553): it
  takes two different constants for two different values. But a comparison of A with a constant that reads as a number is
  one of numbers, with y as 2 (scripts/kconfig/expr.c:998-1028 and 1072-1083), so at A=y the value changes from n to y.
  Witness: `Kconfig.TwoIsYes`. Condition: `Kconfig.ConstantRule`; the rewrite keeps the value under every valuation if and
  only if the two constants do not stand for the same value. Nothing in the callers rules such constants out. The
  simplifier as a whole is proved for expressions in which no two of y, m, n and the constants stand for the same value
  (`Kconfig.EliminateDups`).
- The rewrite of `!A || A` to y (scripts/kconfig/expr.c:479-483) is right if and only if A is not m
  (`Kconfig.ExcludedMiddle`). It is made for boolean symbols only, and these are never m (scripts/kconfig/symbol.c:412-413).

## Model

| member | source | states |
|---|---|---|
| RbTree.Insert | lib/rbtree.c:45-88 | linking a node and rebalancing: the in-order sequence gains exactly that node, next to its parent on the given side, and the heap is a red-black tree again with consistent parent pointers, a black root, no red-red edge and equal black heights |
| RbTree.Erase | lib/rbtree.c:152-191 | the in-order sequence loses exactly that node, the heap is a red-black tree on the remaining nodes, and the node is left detached |
| RbTree.Link | include/nuvix/rbtree.h:26-33 | the new node hangs as a red leaf at the place where the tree had nothing |
| RbTree.ChangeChild | lib/rbtree.c:8-19 | the parent or the root names the new child, the child names the parent, and no other cell changes |
| RbTree.Rotate | lib/rbtree.c:21-43 | either rotation changes the cells exactly as the pure description of a turn says |
| RbTree.Turn | lib/rbtree.c:21-43 | on linked cells that turn re-associates the focused subtree and nothing else |
| RbTree.InsertColor | lib/rbtree.c:45-88 | from a red leaf in a hole of a red-black tree: the result is red-black with the leaf in its place of the in-order sequence; the loop ends |
| RbTree.RecolorStep | lib/rbtree.c:53-59 | a red uncle: after recolouring, the invariant of the loop holds two levels up, with the same in-order sequence |
| RbTree.InnerStep | lib/rbtree.c:60-64 | an inner grandchild: after the first rotation the invariant holds with the child on the outside |
| RbTree.OuterStep | lib/rbtree.c:65-67 | an outer grandchild: after the second rotation the whole tree is balanced |
| RbTree.EraseFixup | lib/rbtree.c:90-150 | a subtree that lost a black node: the tree is red-black again with the same in-order sequence; the loop ends and the sibling exists whenever it is dereferenced |
| RbTree.SibRedStep | lib/rbtree.c:98-103 | a red sibling: after the rotation the subtree is still short, now beside a black sibling |
| RbTree.NoRedNephewStep | lib/rbtree.c:104-109 | no red nephew: after recolouring the parent is the short subtree |
| RbTree.NearRedStep | lib/rbtree.c:110-115 | a red near nephew: after the rotation the far nephew is red |
| RbTree.FarRedStep | lib/rbtree.c:116-119 | a red far nephew: after the rotation nothing is short any more |
| RbTree.Unlink | lib/rbtree.c:157-185 | taking the node, or its successor in its place, out of the links: the in-order sequence without the node, and which subtree may be short |
| RbTree.FindSuccessor | lib/rbtree.c:166-168 | the leftmost node of the right subtree, with the way down to it |
| RbTree.Extreme | lib/rbtree.c:193-211 | the first or last node of the in-order sequence, none if the tree is empty |
| RbTree.Step | lib/rbtree.c:213-245 | the neighbour of a node in the in-order sequence, none at the end or for a detached node |
| Memblock.Table32.Reserve | mm/memblock.c:12-52 | the covered addresses become exactly the union with the new range, per kind; the table stays sorted with same-kind regions apart; each error exactly when its cause holds, a full table only if nothing can be merged, and then nothing changes |
| Memblock.Table32.MergePass | mm/memblock.c:24-33 | one pass finds the hull of everything that touches the range, the number it counted is exactly the number of regions the next loop drops, and it is positive exactly if a region of the kind touches the range |
| Memblock.Table32.Compact | mm/memblock.c:37-44 | the regions that stay are moved to the front in order |
| Memblock.Table32.InsertAt | mm/memblock.c:47-49 | the hull is inserted at its place |
| Memblock.MergeOne | mm/memblock.c:24-33 | because regions of a kind do not touch, none that the pass went by is reached when the hull grows later |
| Memblock.Table32.FindFit | mm/memblock.c:67-86 | the lowest aligned range that no reservation meets, none only if there is none |
| Memblock.Table32.EarlyAlloc | mm/memblock.c:54-93 | reserves exactly that lowest range; -ENOMEM only if none exists, -ENOSPC only if the table is full and the lowest range merges with nothing; a size of zero fails |
| Buddy.Zone.AllocPages | mm/buddy.c:94-121 | fails if and only if there is no aligned run of 2^k free pages, and otherwise takes exactly one such run; free plus allocated pages stay the managed pages |
| Buddy.Zone.FreePages | mm/buddy.c:148-167 | a head of an allocated block loses one reference, and with the last one exactly its pages become free; anything else changes nothing |
| Buddy.Zone.AllocatedBlock | mm/buddy.c:123-146 | true exactly for the head of an allocated block of that order with no other flag |
| Buddy.Zone.MergeBlock | mm/buddy.c:35-48 | the pages become free and the free blocks stay fully coalesced |
| Buddy.Zone.AddBlock | mm/buddy.c:19-25 | the block joins its free list and the page descriptors say so |
| Buddy.Zone.DelBlock | mm/buddy.c:27-33 | the block leaves its free list |
| Buddy.Zone.Split | mm/buddy.c:110-113 | cutting a block down frees exactly the upper halves |
| Buddy.Zone.ReleaseRange | mm/buddy.c:50-64 | exactly the pages of the range become free, and greedy blocks leave no two free buddies |
| Buddy.Zone.Init | mm/buddy.c:169-196 | exactly the pages of RAM that no reservation touches become free |
| Buddy.Zone.Snapshot | mm/buddy.c:66-78 | the counts per order, whose weighted sum is the number of free pages |
| Buddy.Zone.RoundTrip | mm/buddy.c:94-167 | allocating and freeing at once restores the same free blocks |
| Buddy.Canonical | mm/buddy.c:35-48 | the free pages alone determine the free blocks |
| Buddy.RunIffBlock | mm/buddy.c:103-109 | there is an aligned run of 2^k free pages if and only if there is a free block of order k or more |
| Buddy.AllocThenFree | mm/buddy.c:94-167 | any two states that allocation and freeing lead through have the same free blocks |
| Buddy.FreePlusUsed | mm/buddy.c:94-167 | free pages and allocated pages add up to the managed pages |
| Buddy.TotalFree | mm/buddy.c:66-78 | the sum over the free lists is the number of free pages |
| Buddy.GreedyStep | mm/buddy.c:56-63 | the largest aligned block at each point never leaves two free buddies |
| Cow.StepRefines | arch/riscv/pgtable.c:190-447 | every step of every address space does to the memory of every address space exactly what it would do if no page were shared |
| Cow.StepKeeps | arch/riscv/pgtable.c:126-447 | every step keeps the invariant: exact reference counts, writable only if sole, no reachable freed page |
| Cow.Safe | arch/riscv/pgtable.c:234-262 | after every run from boot: the reference count is the leaves plus the owners in flight, a writable leaf has its page to itself, and no cached translation reaches a freed page or writes to a page another live address space sees |
| Cow.Isolated | mm/page_fault.c:28-81 | a run in which a live address space takes no step leaves its memory as it was |
| Cow.ForkedApart | arch/riscv/pgtable.c:396-447 | after a fork the child has what the parent has, and neither sees what the other does afterwards |
| Cow.CloneRefines | arch/riscv/pgtable.c:396-447 | the child of a finished clone reads what the parent reads, address by address |
| Cow.StoreRefines | mm/page_fault.c:33-37 | a store through any cached translation, however old, is seen at its own address or nowhere |
| Cow.CowUnmapRefines | mm/page_fault.c:43-51 | replacing a shared page by a copy shows nothing |
| Cow.CloneProtectKeeps | arch/riscv/pgtable.c:425-434 | taking write permission from a parent leaf keeps the invariant |
| Cow.ProtectKeeps | arch/riscv/pgtable.c:234-262 | changing write permission, granted at a reference count of one only, keeps the invariant |
| Cow.UnmapLeafKeeps | mm/vma.c:195-220 | unmapping into a batch keeps the invariant |
| Cow.FreeKeeps | mm/vma.c:19-27 | freeing a batch only after the flush keeps the invariant |
| Cow.TearKeeps | arch/riscv/pgtable.c:126-180 | tearing down the table of a dead address space keeps the invariant |
| Cow.ProtectPermits | arch/riscv/pgtable.c:234-262 | after a change of protection the leaf can be written if and only if that was asked for and its page is held by nobody else; no other leaf changes |
| Cow.MapPermits | mm/page_fault.c:38-81 | after a fault entered a new page the leaf names it and can be written if and only if the mapping asked for that |
| Cow.RunObeys | arch/riscv/pgtable.c:234-262 | over every run: a leaf can be written only if writing is the last thing asked for at its address, and so can a cached translation, unless it was withdrawn and no flush has come since |
| Cow.Obedient | arch/riscv/pgtable.c:234-262 | the same from boot, when nothing was asked for |
| Cow.ReadOnlyHolds | mm/vma.c:222-246 | once a withdrawal of write permission has been flushed, no leaf and no cached translation of that address can write until writing is asked for again, whatever else any address space does |
| Cow.StepDoes | mm/page_fault.c:28-81 | what each step is for, on the state after it: the fault copies, unmaps, maps and gives back; the clone enters and counts; freeing drops one reference and frees at the last |
| Cow.NothingLeaks | mm/page_fault.c:28-81 | when nobody has a page in flight, the pages in use are exactly those in some table, and each count is the number of leaves |
| Cow.NobodyStuck | mm/page_fault.c:28-81 | whoever is in the middle of an operation can take a step of its own that brings it nearer to the end |
| Vma.Find | mm/vma.c:47-62 | the VMA that holds the address, none exactly if no VMA does |
| Vma.FindIntersection | mm/vma.c:64-82 | the lowest VMA that meets the range, none exactly if none does |
| Vma.Link | mm/vma.c:97-107 | the place of a new VMA in the tree, none exactly if a VMA is in the way |
| Vma.Mm.Insert | mm/vma.c:84-112 | the map gains exactly the addresses of the VMA; each error exactly when its cause holds |
| Vma.Mm.Remove | mm/vma.c:114-121 | the map loses exactly the addresses of the VMA |
| Vma.Mm.Split | mm/vma.c:140-166 | a split changes nothing at any address |
| Vma.SplitView | mm/vma.c:140-166 | both halves say of each address what the whole said, file position included |
| Vma.Mm.SplitRange | mm/vma.c:168-193 | the map is cut at both ends of the range without changing anything at any address; it fails exactly if a cut that is needed finds no memory, and then nothing changed |
| Vma.Mm.UnmapRange | mm/vma.c:195-220 | empties exactly the range, VMAs and leaves; it fails exactly if a cut finds no memory, and then nothing changed |
| Vma.UnmapView | mm/vma.c:195-220 | dropping the VMAs of a cut range empties exactly that range |
| Vma.Mm.ProtectRange | mm/vma.c:222-246 | rewrites the flags of exactly the addresses from the start to the first hole or the end; succeeds exactly if no cut lacks memory and there is no hole |
| Vma.ProtectView | mm/vma.c:222-246 | new flags on a run of VMAs without a hole change exactly the flags of its addresses |
| Vma.HighestGap | mm/mmap.c:57-66 | the highest fitting gap below the stack guard, 0 only if there is none |
| Vma.FindUnmapped | mm/mmap.c:46-67 | the hint if it is free and allowed, and otherwise the highest fitting gap, 0 only if there is none |
| Vma.RangeEnd | mm/mmap.c:29-44 | succeeds exactly for an aligned, non-empty range that is allowed, with the page-aligned end; each error exactly from its cause |
| Vma.VmProtGrants | mm/mmap.c:9-20 | the flags allow reading exactly if reading or writing was asked for, writing exactly if writing was, and executing exactly if executing was |
| Vma.Mm.Mmap | mm/mmap.c:69-120 | succeeds exactly under the stated conditions; then exactly the returned range is mapped anew, readable, writable and executable bit by bit as asked, reading included where writing is; without MAP_FIXED it was empty, and is the hint if that is free; on failure nothing changes |
| Vma.Mm.Munmap | mm/mmap.c:128-142 | succeeds exactly for an allowed range whose cuts find memory; then exactly the range is empty, and otherwise nothing changes |
| Vma.Mm.Mprotect | mm/mmap.c:144-166 | each address up to the first hole gets bit by bit the permissions asked for, and stays mapped to what it was; succeeds exactly if nothing is in the way |
| Vma.Mm.Brk | mm/mmap.c:168-197 | the break moves exactly if it may go there, nothing is mapped between and memory is found; then exactly the pages between are mapped or unmapped; otherwise nothing changes |
| VmaHeap.Heap.Insert | mm/vma.c:84-112 | on the pointer heap: -EINVAL and -EEXIST exactly from their causes; otherwise the VMAs in the order of the red-black tree gain the new one at its place, and the tree is red-black again |
| VmaHeap.Heap.Descend | mm/vma.c:97-107 | the empty link where the VMA belongs between its neighbours, or a VMA in the way |
| VmaHeap.Heap.Remove | mm/vma.c:114-121 | on the pointer heap: the VMAs in order lose exactly that of the node, which is left detached |
| VmaHeap.DescentBelow | mm/vma.c:101-104 | a step of the descent keeps what lies before and behind the link on their sides of the VMA |
| VmaHeap.SameInsertion | mm/vma.c:97-111 | from the same VMAs, the tree as a value and the heap end with the same VMAs in the same order |
| Balloc.Super.AllocBlock | fs/ext2/balloc.c:65-105 | with agreeing counts, success means a block that was free and now is in use, with one free block less; no space exactly if the count is zero; an I/O error exactly if a group it comes to cannot be read; the exact condition of success without a block |
| Balloc.Super.AllocGroup | fs/ext2/balloc.c:38-63 | takes the first free bit of the group and moves both counts |
| Balloc.Super.FreeBlock | fs/ext2/balloc.c:107-150 | exactly that block becomes free and the counts follow; a failure changes nothing |
| Balloc.Super.UpdateFree | fs/ext2/balloc.c:21-36 | the group count and the superblock count move together |
| Balloc.ZerosSet | fs/ext2/balloc.c:52-60 | setting or clearing a bit changes the number of zero bits by one |
| Balloc.OneBit | fs/ext2/balloc.c:107-150 | one bit of one group is one block of the file system, and no other |
| Balloc.SuccessWithoutBlock | fs/ext2/balloc.c:65-105 | a file system on which success is reported with nothing allocated |
| Bmap.PathOfBlock | fs/ext2/bmap.c:9-40 | a logical block has a path if and only if it is below 12+p+p^2+p^3, and the path leads back to it |
| Bmap.BlockOfPath | fs/ext2/bmap.c:9-40 | every valid path is the path of exactly one logical block |
| Bmap.Inode.Lookup | fs/ext2/bmap.c:65-84 | the physical block that the tree maps, 0 for a hole; -EFBIG exactly beyond the largest block, -EIO exactly if an indirect block on the way cannot be read |
| Bmap.Inode.GetBranch | fs/ext2/bmap.c:87-108 | walks to the data block, or to the first missing pointer with the chain above it; fails exactly if an indirect block on the way cannot be read |
| Bmap.Inode.AllocBranch | fs/ext2/bmap.c:134-163 | new, different blocks, all marked used, chained on the disk; after a failure the disk is as it was; success needs enough free blocks and follows from them if nothing fails, and no space is reported only for too few |
| Bmap.Inode.FreeBranch | fs/ext2/bmap.c:118-132 | gives back exactly the blocks whose release does not fail |
| Bmap.Inode.Splice | fs/ext2/bmap.c:165-179 | one pointer and the sector count change |
| Bmap.Inode.Create | fs/ext2/bmap.c:181-223 | maps the requested block and leaves every other mapping; after any failure the file is as it was and only blocks whose release failed too stay in use; every reachable block is used and reachable once; -EFBIG exactly beyond the largest block, -EIO if the way cannot be read, a mapped block is always found otherwise, and a missing one is got if the free blocks do and nothing fails |
| Bmap.CreatedMap | fs/ext2/bmap.c:181-223 | inserting a branch maps one logical block and no other |
| Bmap.InsertBlocks | fs/ext2/bmap.c:165-179 | the blocks reachable afterwards are the old ones and the new branch, each once |
| Bmap.Inode.Trim | fs/ext2/bmap.c:226-274 | one tree loses exactly what is at or beyond the kept size, or after a failure some of it, with everything still counted; fails exactly if an indirect block that reaches past that size cannot be read or a block that must go cannot be given back |
| Bmap.Inode.TrimKids | fs/ext2/bmap.c:248-265 | the same for the pointers of one indirect block |
| Bmap.Inode.Truncate | fs/ext2/bmap.c:276-300 | after success exactly the blocks from the kept size on are unmapped; what is given back is exactly what is no longer reachable; the sector count stays proportional to the reachable blocks; it fails exactly if something it must read or give back fails |
| Bmap.TruncatedMap | fs/ext2/bmap.c:276-300 | trimming all trees clears exactly the logical blocks from the kept size on |
| Bmap.NothingInTheWay | fs/ext2/bmap.c:226-274 | if every block of a tree can be read and given back, nothing makes trimming it fail |
| Bmap.AbsentAfter | fs/ext2/bmap.c:181-209 | the number of blocks that a logical block lacks is the depth less the level at which the walk found the hole |
| Bmap.CreateBeside | fs/ext2/bmap.c:181-223 | growing one file, whatever fails, changes no mapping of another and keeps their blocks apart |
| Bmap.TruncateBeside | fs/ext2/bmap.c:276-300 | truncating one file changes no mapping of another |
| Dir.FindBlock | fs/ext2/dir.c:120-140 | for any bytes: the first live record of that name, damage exactly if a damaged record comes first, and not found only at the end |
| Dir.FindAgrees | fs/ext2/dir.c:120-140 | in a tiled block a name is found if and only if a live record bears it, with the inode of the first |
| Dir.AddBlock | fs/ext2/dir.c:252-289 | for any bytes: the first record with enough slack is split or taken over, and nothing outside it changes; errors change nothing |
| Dir.AddInserts | fs/ext2/dir.c:252-289 | a tiled block stays tiled, with exactly one more live entry |
| Dir.AddFails | fs/ext2/dir.c:252-289 | a tiled block is full if and only if no record has the slack |
| Dir.Delete | fs/ext2/dir.c:202-221 | the record is merged into the one before it, or emptied if it is the first |
| Dir.DeleteRemoves | fs/ext2/dir.c:202-221 | a tiled block stays tiled, with exactly that entry gone |
| Dir.SetReplaces | fs/ext2/dir.c:188-200 | a tiled block stays tiled, with exactly that entry replaced |
| Dir.Init | fs/ext2/dir.c:223-250 | the block is tiled and holds exactly the two dots |
| Dir.IsEmptyBlock | fs/ext2/dir.c:325-348 | where the walk stops, and that everything before is one of the two dots |
| Dir.Directory.Find | fs/ext2/dir.c:142-170 | the first match over all blocks, holes passed over; each error exactly from its cause |
| Dir.FindWhole | fs/ext2/dir.c:142-170 | what is found is an entry of the directory, and not found means that no entry has the name |
| Dir.Directory.Add | fs/ext2/dir.c:291-323 | the directory gains exactly one entry; it grows only if no block has the slack, and errors change nothing |
| Dir.Directory.Append | fs/ext2/dir.c:85-118 | a new block is one empty record, and takes any entry |
| Dir.Directory.Remove | fs/ext2/dir.c:202-221 | the directory loses exactly the entry that was found |
| Dir.Directory.Retarget | fs/ext2/dir.c:188-200 | exactly the entry that was found changes its inode |
| Dir.Directory.IsEmpty | fs/ext2/dir.c:350-374 | true exactly if nothing but the two dots is left |
| Dir.Directory.Read | fs/ext2/dir.c:429-471 | one call hands out exactly the items between where it began and where it stopped |
| Dir.ReadBlock | fs/ext2/dir.c:399-427 | the items of the records up to where the reader was full, the block ended or damage began |
| Dir.Directory.ReadAll | fs/ext2/dir.c:399-471 | a reader that resumes where it stopped gets every live entry exactly once, in order, whatever the sizes of its calls |
| Mapping.Safe | mm/mapping.c:64-253 | in every run from an empty cache: one page per key, at most 256 pages, LRU pages clean and equal to the backend unless their last write failed, one hold on the host per dirty or in-writeback page |
| Mapping.StepKeeps | mm/mapping.c:64-344 | every step keeps the invariant, exact reference counts included |
| Mapping.StepRefines | mm/mapping.c:99-253 | every step changes what the system holds for a key as a plain store would, as long as no write of that key failed |
| Mapping.RunRefines | mm/mapping.c:99-344 | over every run in which no write of a key fails, the system holds for it what a plain store would |
| Mapping.ReaderSees | mm/mapping.c:184-188 | a user with the page's mutex sees the contents of the store |
| Mapping.StepDoes | mm/mapping.c:99-344 | what each step is for, on the state after it: entering, loading, checking, locking, writing, marking, dropping, writing back and purging |
| Mapping.FoundIsHad | mm/mapping.c:99-182 | a thread that finds a page has, whatever others did since, a reference to a loaded page of its key if and only if no load of it failed |
| Mapping.EnteredIsHad | mm/mapping.c:99-182 | a thread that enters a page can always end its load, and has a reference to a loaded page of its key if and only if the read succeeded |
| Mapping.HadIsRead | mm/mapping.c:184-188 | with such a reference the page can be locked once its mutex is free, and then shows what the store holds for the key unless the page was discarded |
| Mapping.TokenWaits | mm/mapping.c:99-182 | no steps of others change where a thread is or the key of its page, and its page has an error exactly if it had one or a load of it failed meanwhile |
| Mapping.NobodyStuck | mm/mapping.c:99-344 | a thread can take its next step, or waits for a mutex whose holder can take its own |
| Mapping.FlushDurable | mm/mapping.c:273-300 | with others acting in between: no page of the host is dirty at the end, and success means that no earlier write failed and the backend holds what the system held for every key of the host |
| Mapping.FlushUnderMutex | mm/mapping.c:273-300 | the same for the holder of the host's mutex in any run in which tasks use the mutexes as the code asserts |
| Mapping.TameUnderMutex | mm/mapping.c:24-28 | in every such run nobody else is in the middle of an operation on the host's pages |
| Mapping.OthersUnderMutex | mm/mapping.c:24-28 | what other tasks do meanwhile is what FlushDurable allows them |
| Mapping.FlushInRun | mm/mapping.c:273-300 | a flush as a part of one run of the whole system, in which every action of every task is allowed by the mutexes: at its end no page of the host is dirty, and success means that no earlier write failed and the backend holds what the system held for every key of the host when it began |
| Mapping.FlushActs | mm/mapping.c:287-298 | from any point of the flush on, whatever the others do between its actions, its last action leaves nothing to write back; without an error nothing was lost |
| Mapping.VictimIff | mm/mapping.c:88-90 | the assertion holds if and only if no purge has pinned the page |
| Mapping.VictimBusy | mm/mapping.c:302-320 | a run after which the assertion fails |
| Mapping.FullMeansBusy | mm/mapping.c:79-97 | no room only if each of 256 pages is in use or not yet written |
| Mapping.DirtyIff | mm/mapping.c:190-205 | the assertion holds if and only if the page was not purged |
| Mapping.DirtyDetached | mm/mapping.c:302-344 | a run after which that assertion fails |
| Mapping.DirtyUnderMutex | mm/mapping.c:190-205 | in every run, a task that has had the host's mutex since it got a reference, and has neither dropped it nor discarded the page, meets the assertion |
| Mapping.StillFound | mm/mapping.c:99-182 | while a task keeps mutex and reference, no action of any other task takes the page out of the hash table |
| Mapping.CutFlag | mm/mapping.c:324-328 | the assertion in mapping_purge holds: a page whose mutex is free is not being written |
| Kconfig.EliminateYnValue | scripts/kconfig/expr.c:316-397 | dropping constants keeps the value under every sane valuation |
| Kconfig.ExprEqValue | scripts/kconfig/expr.c:252-303 | expressions that compare equal have equal values |
| Kconfig.EqualToItself | scripts/kconfig/expr.c:252-303 | every expression is equal to itself, whatever constants are in it |
| Kconfig.ExprEqIff | scripts/kconfig/expr.c:252-303 | without y and n as operands, two expressions compare equal if and only if they differ in no more than order and grouping of operands |
| Kconfig.Reordered | scripts/kconfig/expr.c:252-303 | the same operands in another order compare equal |
| Kconfig.CommonGone | scripts/kconfig/expr.c:150-250 | no operand is left on both sides, and nothing else is removed |
| Kconfig.EliminateYnDrops | scripts/kconfig/expr.c:316-397 | afterwards y and n are operands of nothing |
| Kconfig.EliminateEqValue | scripts/kconfig/expr.c:150-190 | what is removed from both sides is one common value |
| Kconfig.TransformValue | scripts/kconfig/expr.c:694-849 | the transformation keeps the value |
| Kconfig.TransformNormal | scripts/kconfig/expr.c:694-849 | afterwards negation is only on symbols |
| Kconfig.TransformPlain | scripts/kconfig/expr.c:694-849 | afterwards no boolean symbol is compared for equality with y, m or n |
| Kconfig.Transform | scripts/kconfig/expr.c:694-849 | the De Morgan recursion ends, and the result weighs no more |
| Kconfig.JoinOrValue | scripts/kconfig/expr.c:431-493 | a join of two alternatives has their value |
| Kconfig.CompareEqual | scripts/kconfig/expr.c:998-1083 | the comparison of a tristate symbol with a constant, as a number or as a string, is equal if and only if the constant stands for the value of the symbol |
| Kconfig.JoinAndValue | scripts/kconfig/expr.c:495-587 | a join of two conditions has their value, unless two different constants in them stand for the same value |
| Kconfig.DupsValue | scripts/kconfig/expr.c:596-651 | a pass over all pairs of operands keeps the value if no two constants stand for the same value, and brings in no further constant |
| Kconfig.DupsProgress | scripts/kconfig/expr.c:596-651 | a pass without a join changes nothing, and one with a join leaves something for the next step to drop |
| Kconfig.NoJoinsDeduped | scripts/kconfig/expr.c:596-651 | an expression in which a pass joins nothing has no operand that is redundant beside another |
| Kconfig.EliminateDups | scripts/kconfig/expr.c:664-686 | the loop ends, and no operand of the result is redundant beside another, at any level; it keeps the value under every sane valuation if no two of y, m, n and the constants of the expression stand for the same value |
| Kconfig.ConstantRule | scripts/kconfig/expr.c:540-553 | this rule keeps the value under every sane valuation if and only if its two constants do not stand for the same value |
| Kconfig.RuleIff | scripts/kconfig/expr.c:540-553 | under one valuation it keeps the value unless the constants clash and the symbol has the value they stand for |
| Kconfig.TwoIsYes | scripts/kconfig/expr.c:540-553 | an expression and a valuation for which the simplifier changes the value |
| Kconfig.ExcludedMiddle | scripts/kconfig/expr.c:479-483 | this rule is right if and only if the symbol is not m |
| Wait.NoLostWakeup | kernel/mutex.c:9-79 | in every run at least as many queued tasks are runnable as the resource can satisfy, so a free mutex with waiters has a runnable one |
| Wait.AvailableWins | kernel/completion.c:47-73 | in every run, if the resource is available and somebody waits, some waiter can take its next pass and gets it, whatever signal is pending or deadline passed |
| Wait.PassOutcome | kernel/completion.c:108-149 | in every run a pass wins if and only if the resource is available, and gives up if and only if it is not and the wait must end |
| Wait.NeverMoreTaken | kernel/completion.c:17-45 | until complete_all or saturation, successful waits and the count add up to the notifications |
| Wait.NoLostSignal | kernel/completion.c:108-149 | a task switched out in an interruptible wait has no signal, and one that sleeps until a deadline has a timer still to fire |
| Wait.StepKeeps | kernel/wait.c:9-68 | every step keeps the invariant |
| Wait.StepDoes | kernel/completion.c:17-149 | what each step is for, on the state after it: unlocking frees the mutex and runs the first sleeper, complete counts one more up to the maximum and runs the first sleeper, complete_all runs everyone, a trylock takes what is free, and a pass takes it, gives up or goes on to sleep |
| Wait.WakeUpOne | kernel/wait.c:32-41 | wakes the first sleeper of the queue and nobody else |
| Wait.WakeUpAll | kernel/wait.c:52-59 | makes exactly the tasks of the queue runnable |
| Sched.Safe | kernel/sched.c:13-250 | in every run: a task is queued at most once and on its own CPU, on_rq says whether, the load count is right, and an idle CPU with work has need_resched set |
| Sched.EnqueueNeverFails | kernel/sched.c:13-21 | in no run does the assertion of enqueue_task fail, for any of its callers |
| Sched.RunsInTurn | kernel/sched.c:23-33 | a task at position k is at the head after exactly k picks of its CPU |
| Sched.Fifo | kernel/sched.c:192-235 | a pick moves every queued task one place, the first to the CPU; nothing else moves any |
| Sched.SelectCpu | kernel/sched.c:35-56 | the least loaded CPU, and of those the first after the last placement |
| Sched.PublishKeeps | kernel/sched.c:93-116 | publishing keeps the invariant and meets the assertion of enqueue_task |
| Sched.WakeKeeps | kernel/sched.c:118-140 | waking keeps the invariant and meets the assertion |
| Sched.SwitchKeeps | kernel/sched.c:192-250 | a switch keeps the invariant |
| Sched.ExitKeeps | kernel/sched.c:263-278 | an exit keeps the invariant |
| Sched.StepDoes | kernel/sched.c:93-335 | what each step is for, on the state after it: a published or woken task is runnable and the last of the queue of its CPU, or still on it; a blocked task is off the CPU and no longer counted; a rotated one is the last of the queue; the head of the queue, or idle, runs |
| Timer.Safe | kernel/timer.c:39-165 | in every run the first pointer is the minimum by deadline and sequence, states and queue agree, and a task sleeps for a drain only while its timer drains |
| Timer.FiresInOrder | kernel/timer.c:133-165 | a timer that fires is due and the minimum; when the tick returns none is due |
| Timer.SyncReleases | kernel/timer.c:110-131 | when timer_cancel_sync returns the handler has nothing to do with the timer |
| Timer.StaysReleased | kernel/timer.c:110-165 | and no step of anyone gives it back until it is started again |
| Timer.Place | kernel/timer.c:54-70 | the descent finds the place at which the queue takes the timer, and whether it is the first |
| Timer.CancelKeeps | kernel/timer.c:84-96 | cancelling removes a queued timer and marks a running one as draining |
| Timer.StepDoes | kernel/timer.c:39-165 | what each step is for, on the state after it: a start queues the timer with its deadline, a tick takes the first one if it is due, the end of a callback makes it idle and wakes the sleepers |
| Timer.CancelStops | kernel/timer.c:84-108 | 1 exactly if it was queued and no longer is, 0 exactly if it was idle, -EBUSY exactly while its callback runs, which is then draining |
| Timer.StaysQueued | kernel/timer.c:39-165 | a started timer keeps its place and deadline until it is cancelled or is the one that fires |
| Virtqueue.Vq.Add | drivers/virtio/virtqueue.c:63-94 | -ENOSPC exactly without enough descriptors; otherwise one more chain that carries the buffers, with free list and chains still a partition; its head is published, and no publication that the device may still have to read is overwritten in the available ring |
| Virtqueue.AvailPush | drivers/virtio/virtqueue.c:88-91 | writing the next slot of the available ring leaves the slots of all outstanding publications as they were |
| Virtqueue.Vq.GetBuf | drivers/virtio/virtqueue.c:106-140 | the cookie and length of the oldest returned head, whose descriptors rejoin the free list; its assertions hold |
| Virtqueue.Vq.Outstanding | drivers/virtio/virtqueue.c:115-120 | the number of outstanding chains is the difference of the 16-bit indices, through wraparound |
| Virtqueue.Vq.Tail | drivers/virtio/virtqueue.c:128-133 | following the NEXT flags finds the end and the length of the chain |
| Virtqueue.TakePartition | drivers/virtio/virtqueue.c:63-94 | moving descriptors from the free list to a chain keeps the partition |
| Virtqueue.GivePartition | drivers/virtio/virtqueue.c:128-136 | giving a chain back keeps the partition |
| VirtioBlk.RoomForOne | drivers/block/virtio-blk.c:142-147 | 16 slots of at most three descriptors always leave three for a reserved slot |
| VirtioBlk.Blk.Submit | drivers/block/virtio-blk.c:103-147 | the queue has room for the request, whatever the other slots do |
| VirtioBlk.Blk.Reserve | drivers/block/virtio-blk.c:79-90 | the first free slot, none only if all are taken |
| VirtioBlk.Blk.Collect | drivers/block/virtio-blk.c:190-222 | every returned request is a submitted one, and its result is recorded |
| VirtioBlk.Blk.Finish | drivers/block/virtio-blk.c:149-158 | a waiter gets the result of the device's answer to its own request |
| Signals.Run | kernel/signal.c:77-239 | in every run the pending flag is right, SIGKILL and SIGSTOP are never blocked, SIGCONT is never pending with a stop signal, and the task is where the steps say; if a SIGCONT or SIGKILL went through after the last stop signal was taken, the task is running, whatever stop was taken or tested for before |
| Signals.ResumedStays | kernel/signal.c:91-129 | over every sequence of steps: once a SIGCONT or SIGKILL has gone through and no stop signal is taken after it, the task is not stopped and nothing is on its way to stop it |
| Signals.Task.SendBegin | kernel/signal.c:91-120 | the signal is pending afterwards unless it is ignored and not blocked, in which case it is pending exactly if it was; of the others exactly the opposite ones leave; the queue loses the entries of the cancelled signals and gains the new one at its end exactly if it becomes pending and there is memory |
| Signals.SendSets | kernel/signal.c:91-120 | the same on the steps of a run: a signal that has an effect is pending afterwards, one that has none is as before, and exactly the opposite signals leave |
| Signals.SentIsTaken | kernel/signal.c:91-226 | in every sequence of steps a signal that has an effect is not lost: unless something takes it away, the next get_signal at which it is not blocked takes it, or SIGKILL, or a lower one that is ready |
| Signals.Task.SendFinish | kernel/signal.c:121-122 | the task runs and nothing that went before can still stop it |
| Signals.Task.GetSignal | kernel/signal.c:169-226 | SIGKILL first, then the lowest pending signal that is not blocked, none only if there is none; its own entry of the queue, its action and the intent to stop |
| Signals.Task.GetFault | kernel/signal.c:178-217 | the signal of the fault, fatal exactly if it is blocked or has no handler |
| Signals.Task.TakeAction | kernel/signal.c:200-212 | the action as it was, reset to the default if it asks for that, the mask to return to, and the intent to stop exactly for a stop signal with the default action |
| Signals.Task.Dequeue | kernel/signal.c:131-146 | the signal and its entry leave, at most one entry per signal stays |
| Signals.Task.Flush | kernel/signal.c:77-89 | exactly the signals of the mask and their entries leave |
| Signals.Task.StopSet | kernel/sched.c:166-180 | the task stops and the intent is used up |
| Signals.Task.Delivered | kernel/signal.c:228-239 | exactly the mask of the action and the signal are blocked in addition |
| Signals.Task.SetAction | kernel/signal.c:350-388 | the action without the two unblockable signals; ignoring discards what is pending |
| Signals.Task.ProcMask | kernel/signal.c:390-435 | block, unblock and set, never for the two unblockable signals |
| Signals.Task.Suspend | kernel/signal.c:326-348 | the mask for the wait, with the old one saved |
| Signals.Task.Restore | arch/riscv/signal.c:61-87 | the mask from the frame without the two unblockable signals |
| Pipe.Ring.Read | fs/pipe.c:38-97 | what is read is the next stretch of what was accepted, as much as is there, wanted and can be stored |
| Pipe.Ring.Write | fs/pipe.c:99-169 | appends a prefix of the data; a call of at most the size of the pipe waits only while it has written nothing |
| Pipe.WriteCall.Attempt | fs/pipe.c:99-169 | one attempt of a call: what is appended and returned, each error only from its cause, and exactly when an error hides progress |
| Pipe.Call | fs/pipe.c:99-169 | over a whole call with other readers and writers in between, a write of at most the size of the pipe is one contiguous piece of the stream, behind what was there before the call |
| Pipe.LostCount | fs/pipe.c:143-145 | a call that writes a full pipe and returns -EINTR |
| Pipe.Ring.Fill | fs/pipe.c:129-130 | the wrapped difference of the 32-bit counters is the number of bytes in the pipe, at most its size |

## Left out

- Weak memory ordering and the insides of spinlocks: a critical section is one atomic step under sequential consistency.
- Hardware access, trap entry, fences, DMA mapping, the device tree and the radix layout of page tables: page tables are
  maps from addresses to leaves.
- Accessed and dirty bits and the instruction cache in page tables.
- Vma's tree is a value with the shape and order of the tree. VmaHeap carries insertion and removal over to the pointer
  heap of RbTree; lookups, splits and the walks of mmap are on the value only.
- Offsets of file mappings are unbounded; 64-bit wrap-around of a file offset is not modelled.
- Cow.Safe: an address space dies only when no CPU caches a translation of it; the switch away from a dying address space
  that brings this about is not modelled.
- The order of operations inside fork, exec and process exit outside the page tables.
- ext2_free_inode_branch and ext2_free_blocks (fs/ext2/bmap.c:302-351), inode allocation, and names across directories.
- A failed block or page read is one error code, EIO, in Balloc and Bmap, where the page cache could also report -ENOMEM.
- Blocks that ext2_bmap_create has mapped beyond the size of a directory when appending fails are not part of a directory.
- Mapping.FlushDurable: the host has a mutex and its users hold it as the code asserts; Mapping.TameUnderMutex derives
  this over runs. For a host without a mutex a flush can miss the failure of a concurrent writeback.
- Mapping.RunRefines: a key whose write to the backend failed is exempt, as the code marks the page clean.
- Threads that write to a page and drop its mutex without mapping_dirty, and the wake-ups of the flusher.
- The order in which holds on a host are given back, which others may do in steps of their own.
- Kconfig.EliminateDups: for expressions with two constants that stand for the same value only termination and the
  normal form are proved, as the value can change.
- Kconfig lists and ranges, empty expressions, and the two rewrites that collapse m on purpose.
- reinit_completion, which its callers must not race with waiters.
- Wait.NoLostWakeup: there are at most 2^32 - 1 tasks, the range of the completion's count.
- Timer.Safe: the 64-bit start sequence does not wrap.
- Virtqueue.Vq.Add: at least one buffer; for none the source publishes a head that has no descriptor of its own, and no
  driver asks for that.
- Virtqueue.Vq.GetBuf: the device returns only heads that are outstanding.
- VirtioBlk.Blk.Collect: an invalid status byte counts as EIO, where the driver panics; the timeout of a request, which is
  an assertion, never expires.
- pipe_release and the SIGPIPE that goes with -EPIPE; the number of readers is an input of a write.
- Process groups, sessions, the exec loader, the VFS above these files, terminals and printing.
