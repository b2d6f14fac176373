# Verified models of the kernel

These modules model the parts of the kernel that are algorithms rather than register traffic, and prove
what the kernel relies on about them. Code that changes an array, a buffer or the fields of an object in
place is modelled as methods that do the same, proved against value-level specifications; code whose point
is the interleaving of cores and threads is modelled as a step system, in which each access to shared data
is a step and a theorem speaks of every sequence of steps. `dafny verify dfyconfig.toml` checks everything.

| Files | What they model |
|---|---|
| `BoundaryTags`, `HeapLaws`, `KernelHeap` | the kernel's heap, and the user library's heap on the same layout |
| `PageTables`, `Frames`, `Spaces`, `Teardown`, `Boot`, `Processes`, `Vmm` | physical frames, two-level page tables, page faults, fork, teardown, and runs of these |
| `Scheduler`, `IntrusiveQueue` | cores, context switches, queues of threads, the timer, the reaper |
| `SemaphoreSteps` | the semaphore, whose lock is held across a context switch; the blocking lock |
| `BoundedBuffer`, `BufferSteps` | the bounded buffer, alone and under any number of producers and consumers |
| `ConditionSteps`, `ReusableBarrierSteps` | the condition variable, and the reusable barrier built on it |
| `OneShotBarrier`, `FutureSteps` | the one-shot barrier and the future, with their circulating token |
| `BlockIo`, `FileBlocks`, `BlockCache` | byte-range reads, the block lists of i-nodes, the block cache |
| `Directories`, `PathWalk` | directory records and path look-up |
| `Audio` | the ring of sixteen pages that plays a file |
| `Numerals`, `Printf`, `Circle` | formatted output, and the circle |
| `Common` | an option type, and sums and counting |

The model's terms:

- Words are 32 bits. Integers are unbounded in Dafny, so a place where the code can wrap has the remainder
  written out, and the lemma beside it says exactly when the wrap does no harm.
- `Debug::panic` and a failed `ASSERT` are results or states from which nothing follows.
- Heap. A pointer is the index of the word that it addresses. `Blocks` maps the index of each header to its
  tag, and the ghost list `free` is the chain through the free blocks. The kernel's heap allocates its own
  lock as its first block; the size of the lock is an argument.
- Frames. Each managed frame has one role: free, held by the code that allocated it, one of the kernel's
  tables, a directory, the table for one directory entry, or the frame of one page. Pages and frames are
  numbered, an address being 4096 times its number. A process is named by the frame of its directory. The
  kernel half of the address space ends at 2 GB, which the memory must not exceed. The cores interleave at
  single changes of memory (`Frames.Run`), and what one core has checked or allocated another does not spoil
  (`Frames.StaysEnabled`). A frame is in the hands of code only within an operation: `Processes` has the runs
  of whole operations, between which no frame is.
- Scheduler. The switch of context.s is one step: the registers of the old thread are saved, those of the
  new one loaded, and then the function given to `block` runs on the new stack. Queue operations are single
  steps, because each is done under the queue's own lock. A thread may hold several others that it has taken
  out of queues, the last taken first, and may be preempted or go to sleep with them.
- The semaphores inside the bounded buffer, the one-shot barrier and the future are counters: one step raises
  the count, another lowers it once it is positive. `SemaphoreSteps.StepCounts` shows that the semaphore with
  its lock, its queue and its hand-over is one; a thread that waits is one whose step comes later.
- Files. A device is its block size, the size that it reports, and what its `read_block` delivers; the disk
  reports 2^32 - 1 bytes, as the code says it does.

## Where the code and its comments part

The models follow the code.

- kernel/heap.cc calls its search first fit, but it takes the best of the first 20 blocks that fit.
- kernel/block_io.h promises -1 for a read that begins beyond the end; `read_all` of 0 bytes returns 0.
- `%p` prints an address as a signed number, so that one above 2^31 has a minus sign.
- `find` in kernel/ext2.h is described as looking up one name, and walks a path.
- The assertion in `Future::set` is no protection against two calls that overlap: calls of `get` may return
  different values (`FutureSteps.RacingSetters`; `FutureSteps.OneValueExactly` has the exact condition).
- A format whose last conversion is a `w` at its end is read beyond its end (`Printf.OverrunExample`;
  `Printf.OverrunExactly` has the exact condition).
- Mapping a page that is mapped already loses its first frame (`Vmm.Machine.Map` says which).
- The double indirect branch of the block cache is not reached with blocks of 65536 bytes, because the square
  of the block size wraps to 0 (`FileBlocks.DoubleLimitIs`).
- A request of more than 2^32 - 4 bytes wraps and gets a block that is too small
  (`HeapLaws.PayloadHoldsRequest` has the exact condition).
- The zero flag together with a precision gives a width that neither asks for (`Numerals.Width` says when).

## Model

| member | source | states |
|---|---|---|
| `KernelHeap.Heap.constructor` | kernel/heap.cc:126-138 | on memory with any contents the heap becomes one free block between two taken ones, from which its lock is allocated, and is in order |
| `KernelHeap.Heap.UserInit` | t0.dir/sbin/heap.c:15-19 | the user library's heap becomes one free block between two taken ones |
| `KernelHeap.Heap.Remove` | kernel/heap.cc:85-99 | the block is unlinked from the doubly linked list, and nothing else is written |
| `KernelHeap.Heap.MakeAvail` | kernel/heap.cc:101-110 | both tags are written and the block becomes the head of the list |
| `KernelHeap.Heap.MakeTaken` | kernel/heap.cc:112-115 | both tags are written with the taken sign |
| `KernelHeap.Heap.Malloc` | kernel/heap.cc:140-189 | null exactly if no free block is big enough, else the smallest of the first 20 that fit, in list order; of it the ints needed and fewer than 4 more are taken, and what is left behind them is free; no live payload changes |
| `KernelHeap.Heap.Search` | kernel/heap.cc:156-174 | the scan ends with the best of the first 20 fits, or with none |
| `KernelHeap.Heap.Free` | kernel/heap.cc:191-222 | the block joins its free neighbours and heads the list; freeing a free block panics and changes nothing; no other live payload changes |
| `KernelHeap.Heap.Store` | kernel/heap.cc:185 | what a client writes into its payload leaves the heap in order |
| `KernelHeap.Heap.UserMalloc` | t0.dir/sbin/heap.c:125-161 | the user library's first fit, with the same guarantees |
| `KernelHeap.Heap.Realloc` | t0.dir/sbin/heap.c:193-218 | on success the new block starts with the old contents, as far as both reach, down to the last byte; blocks and list are those of malloc and then free of the old block, which is freed also when there is no room; all other payloads stand |
| `HeapLaws.InitialShape` | kernel/heap.cc:131-136 | the first layout tiles the array and is coalesced |
| `HeapLaws.ChosenIsUnique` | kernel/heap.cc:150-174 | the rule of the search determines the block |
| `HeapLaws.AllocKeepsShape` | kernel/heap.cc:176-186 | allocation keeps the tiling, the list of exactly the free blocks, and that no two free blocks are neighbours |
| `HeapLaws.FreeKeepsShape` | kernel/heap.cc:191-222 | so does freeing, whichever neighbours are free |
| `HeapLaws.FreeUndoesMalloc` | kernel/heap.cc:140-222 | freeing what was just allocated restores blocks and list, up to the head of the list |
| `HeapLaws.NothingLiveIsInitial` | kernel/heap.cc:126-222 | a heap with nothing live is the initial heap |
| `HeapLaws.TilingCovers` | kernel/heap.cc:61-67 | every int of the array is in exactly one block |
| `HeapLaws.PayloadsDisjoint` | kernel/heap.cc:185 | no int is in two live payloads |
| `HeapLaws.PayloadHoldsRequest` | kernel/heap.cc:146-147 | the payload holds the bytes asked for if and only if adding 3 did not wrap |
| `HeapLaws.MallocTakesLittle` | kernel/heap.cc:146-186 | for every request the block handed out has the ints needed for it and fewer than 4 more, the rest of the block it is cut from is free, and no other block changes |
| `HeapLaws.MallocHandsOut` | kernel/heap.cc:140-189 | what malloc returns was not live and is, and everything live stays as it was |
| `HeapLaws.ReallocMoves` | t0.dir/sbin/heap.c:193-218 | what realloc returns was not live and is, the old block is live no more, and every other live block stays live with its size |
| `HeapLaws.StepKeepsShape` | kernel/heap.cc:140-222 | any operation keeps the invariant |
| `HeapLaws.RunKeepsShape` | kernel/heap.cc:126-222 | so does any run of malloc, free and realloc from the start; and a run that ends with nothing live ends where it began |
| `Frames.AllocKeeps` | kernel/physmem.cc:20-41 | allocation takes a frame nobody uses and zeroes it, and every frame in use keeps role and contents |
| `Frames.DeallocKeeps` | kernel/physmem.cc:43-51 | release threads the frame onto the list and leaves everything in use alone |
| `Frames.StepKeeps` | kernel/vmm.cc:20-115 | each single change that the cores make to memory keeps the whole invariant |
| `Frames.RunKeeps` | kernel/vmm.cc:20-115 | so does every interleaving of such changes |
| `Frames.StaysEnabled` | kernel/vmm.cc:20-115 | what one core has checked or allocated before a change no change of another core spoils, each keeping to its own process and frames |
| `Processes.EveryFrameHasOneOwner` | kernel/process.cc:56-129 | in every run of new processes, page faults, forks, delete_private and delete_pd each frame in [start, avail) is on the free list, or a kernel table, or has exactly one process, and only one of these |
| `Processes.DestroyUndoesFork` | kernel/process.cc:56-113 | destroying a child puts every frame where it was before the fork, and those never used before on the free list |
| `Processes.SettledMeans` | kernel/physmem.cc:20-51 | when no code holds a frame, each has one owner, by what the list and the tables in memory say |
| `Spaces.OnePlace` | kernel/physmem.cc:20-51 | within an operation too, each frame in [start, avail) is once on the free list, or a kernel table, or held by the code that allocated it, or at the one spot of one process that refers to it |
| `Spaces.NoSharing` | kernel/vmm.cc:20-30 | no two private pages, of one process or two, are on one frame, and none is on a free or kernel frame |
| `Spaces.PageRole` | kernel/vmm.cc:20-44 | a frame is the frame of a page exactly if the process's tables translate the page to it |
| `PageTables.UserReaches` | kernel/vmm.cc:20-30 | a store by user code to a private page goes where the tables map it: both entries are present, writable and open to user mode |
| `Processes.UserReachesInEveryRun` | kernel/vmm.cc:20-62 | so it is for every page of every process in every run |
| `Spaces.KernelReaches` | kernel/vmm.cc:50-57 | under every directory the kernel half maps each frame but the first to itself, with the rights that the code writes, and nothing beyond memory |
| `Spaces.OthersSeeTheSame` | kernel/process.cc:87-113 | what is done to one process changes no translation of another |
| `Spaces.ForkedOnNewFrames` | kernel/process.cc:106-111 | no page of a child is on a frame that was in use before, nor on another page's |
| `Teardown.OnlySpecialsLeft` | kernel/vmm.cc:64-91 | after delete_private the private half has exactly the APIC mappings it had |
| `Teardown.GivenBackOnce` | kernel/vmm.cc:93-115 | the free list grows by exactly what the process owned, each frame once |
| `Boot.BootDone` | kernel/vmm.cc:120-128 | the finished kernel tables are the identity on memory, and the invariant holds with no process yet |
| `Vmm.Machine.constructor` | kernel/physmem.cc:54-63 | with nothing allocated the invariant holds, whatever memory contains |
| `Vmm.Machine.AllocFrame` | kernel/physmem.cc:20-41 | panics exactly if the list is empty and all frames were handed out, else takes the head of the list, or the next new frame |
| `Vmm.Machine.DeallocFrame` | kernel/physmem.cc:43-51 | the frame becomes the head of the list |
| `Vmm.Machine.Map` | kernel/vmm.cc:20-30 | one page gets its frame, for user code to write, and every other translation stays; exactly the table if there was none and the page's frame change role, and the frame of a page that was mapped already is nobody's then; panics exactly if a table is needed and there is no frame, and then nothing has changed |
| `Vmm.Machine.Unmap` | kernel/vmm.cc:32-44 | one translation goes and its frame is freed; without one nothing changes |
| `Vmm.Machine.PageFault` | kernel/vmm.cc:143-160 | below 2 GB a panic; above, a zeroed frame of its own appears at the page, for user code to write, and nowhere else; all that changes hands are frames nobody had, and the process has them |
| `Vmm.Machine.MakePd` | kernel/vmm.cc:50-62 | a new directory shows the kernel half and the APICs, and no other page; it has taken free frames only, for itself and the APICs' tables |
| `Vmm.Machine.CopyPage` | kernel/process.cc:101-112 | one page of the child gets a frame with the parent's contents, unless the child has the page or the parent has not; the frame was free, and is the child's |
| `Vmm.Machine.CopyPrivate` | kernel/process.cc:88-113 | the loops do so for the whole private half and leave the parent as it was; all they take is free frames, for the child's pages and for tables where the parent has one |
| `Vmm.Machine.Fork` | kernel/process.cc:67-129 | with a free slot the child's private half maps the same pages to equal contents, for user code to write, everything of everyone else stands, and the lowest slot holds the child; all that changes hands are frames nobody had, and the child has them; without a slot, -1 and no change |
| `Vmm.Process.ShareWith` | kernel/process.cc:116-124 | the child's semaphores and files are the parent's |
| `Vmm.Process.FreeSlot` | kernel/process.cc:72-78 | the lowest slot without a child |
| `Vmm.Machine.DeletePrivate` | kernel/vmm.cc:64-91 | of the private half only the APIC pages and their tables are left, and every other frame of it is free; panics exactly on a foreign directory |
| `Vmm.Machine.DeletePd` | kernel/vmm.cc:93-115 | exactly the frames of the process come free; panics exactly on the running directory |
| `Vmm.Machine.MapKernel` | kernel/vmm.cc:20-30 | the kernel's own tables gain the identity mapping of one frame |
| `Vmm.Machine.GlobalInit` | kernel/vmm.cc:120-128 | the kernel's tables are complete and have every frame that is not free, or memory has run out |
| `Scheduler.AnyRun` | kernel/threads.h:85-120 | in every run each thread is in exactly one place, no stack is on two cores, no `block` nests in another, idle threads stay home, only threads with saved registers are queued, and the ready queue is served in order |
| `Scheduler.TimerSafe` | kernel/pit.cc:138-148 | while a core is inside `block` the timer's handler does nothing: the thread it finds active is idle or marked, which is why the early store to activeThreads is safe |
| `Scheduler.PickGoes` | kernel/threads.h:97-111 | whatever it was asked, `block` goes to the head of the ready queue if there is one; else back to its caller if it may, or to the core's idle thread, which looks again |
| `Scheduler.ChosenRuns` | kernel/threads.h:114-119 | from then on, whatever the other cores and the timer do, the core's own steps can be made and lead to the chosen thread, preemptible, and the old one is where `block` was to put it |
| `Scheduler.ReturnsOnlyWhenEmpty` | kernel/threads.h:97-101 | `block` comes back without a switch only if the queue was empty and it was allowed to |
| `Scheduler.ServedInTurn` | kernel/queue.h:23-45 | the i-th thread in the ready queue is the one taken after i others |
| `Scheduler.TimerYields` | kernel/pit.cc:138-148 | outside `block` the timer takes the core from a thread unless it must not be preempted |
| `Scheduler.WokenInTurn` | kernel/threads.cc:46-50 | the thread that has waited longest is waked, and goes to the end of the ready queue |
| `Scheduler.StepKeeps` | kernel/threads.h:85-120 | each step of each core keeps the invariant |
| `Scheduler.BlockStepPlaces` | kernel/threads.h:85-120 | no step of `block` loses or doubles a thread |
| `Scheduler.HandStepPlaces` | kernel/threads.cc:38-50 | scheduling, waking and reaping move one thread from one place to another |
| `Scheduler.ReaperSafe` | kernel/threads.cc:38-44 | from when the reaper takes a thread until it is freed, also while the reaper sleeps on the heap's lock, the thread has stopped, no core is on, coming to or leaving it, no queue holds it, and nobody else has it in hand |
| `Scheduler.StoppedStaysOff` | kernel/threads.cc:119-130 | a thread that stopped never runs again, so the assertion in `stop` meets only idle threads |
| `Scheduler.NeverStuck` | kernel/threads.h:97-119 | inside `block` a core can always take its next step |
| `Scheduler.InitialOk` | kernel/threads.cc:89-99 | the state that threadsInit leaves is in order |
| `IntrusiveQueue.Queue.Add` | kernel/queue.h:23-32 | the node is appended |
| `IntrusiveQueue.Queue.Remove` | kernel/queue.h:34-45 | the first node is removed and returned, or null from an empty queue |
| `IntrusiveQueue.Queue.RemoveAll` | kernel/queue.h:47-53 | the queue is empty and following `next` from the result meets what it held, in order |
| `IntrusiveQueue.ChainLeads` | kernel/queue.h:7-53 | the links of the chain lead through exactly its nodes |
| `SemaphoreSteps.AnyRun` | kernel/semaphore.h:19-57 | initial count and ups are count and granted downs, a positive count means no waiter, the queue is served in order, whoever sleeps is queued or about to be scheduled, and interrupts outside are as they were |
| `SemaphoreSteps.StepKeeps` | kernel/semaphore.h:19-57 | each step keeps the invariant, with the lock handed over the switch |
| `SemaphoreSteps.StepRefines` | kernel/semaphore.h:19-57 | each step is one operation of an atomic semaphore or nothing, although the count is tested before the switch and the thread queued after it |
| `SemaphoreSteps.StepCounts` | kernel/semaphore.h:19-57 | each step is none, one or two steps of a plain counter, an up that finds somebody waiting raising the count and letting that one through |
| `SemaphoreSteps.NeverStuck` | kernel/atomic.h:235-269 | whoever has the lock can go on, and a thread to be scheduled is there to be scheduled |
| `SemaphoreSteps.MutualExclusion` | kernel/blocking_lock.h:8-15 | between lock and unlock of a blocking lock there is at most one thread |
| `SemaphoreSteps.LockStepKeeps` | kernel/blocking_lock.h:8-15 | owners and count are one in all, also while an owner sleeps |
| `BoundedBuffer.Ring.Put` | kernel/bb.h:25-32 | an item is appended to what the ring holds |
| `BoundedBuffer.Ring.Get` | kernel/bb.h:34-44 | the oldest item is removed and returned |
| `BoundedBuffer.SizeThatFits` | kernel/bb.h:28 | the index is right in every state if and only if the size is at most 2^31 |
| `BufferSteps.AnyRun` | kernel/bb.h:25-44 | what is taken is a prefix of what is put, 0 <= n <= N and head < N, the counts and the threads between their calls account for N slots, and a thread with slot and lock finds room or an item |
| `BufferSteps.ArgumentsComeOut` | kernel/bb.h:25-44 | thread by thread, the arguments of put are, in order, what the thread has put and what it is bringing, and what get has returned is, in order, what the thread has taken |
| `BufferSteps.StepKeeps` | kernel/bb.h:25-44 | each access of each thread keeps this |
| `BufferSteps.StuckOnlyWhenFullOrEmpty` | kernel/bb.h:25-44 | when nobody can go on, all who wait are producers and the buffer is full, or consumers and it is empty |
| `ConditionSteps.AnyRun` | kernel/condition.h:56-96 | one thread at most has the lock, with interrupts off; elsewhere they are as they came |
| `ConditionSteps.NothingLost` | kernel/condition.h:98-126 | a finished notifyAll leaves the queue empty, and no thread whose wait began before is in it ever after |
| `ConditionSteps.NotifyWakes` | kernel/condition.h:98-126 | notify(limit) wakes the first of the queue, as many as the limit or all there are, and nobody else; so notifyOne wakes one |
| `ConditionSteps.OnlyTheHolder` | kernel/condition.h:98-112 | nothing is interleaved with the loop of notify |
| `ConditionSteps.WaitsForNotify` | kernel/condition.h:56-92 | whoever calls wait stays there until somebody notifies |
| `ConditionSteps.OnlyNotifyWakes` | kernel/condition.h:76-86 | and goes to the end of the queue if nobody has notified yet |
| `ConditionSteps.StepKeeps` | kernel/condition.h:56-126 | each step of wait and notify keeps the invariant |
| `ConditionSteps.NeverStuck` | kernel/atomic.h:200-232 | whoever has the lock can go on |
| `ReusableBarrierSteps.AnyRun` | kernel/barrier.h:48-69 | arrivals are N for each epoch and N - count; who leaves after arriving in epoch e saw N(e + 1) arrivals; the assertion fails only for N = 0; who sleeps while nobody wakes has arrived in the present epoch, which lacks arrivals |
| `ReusableBarrierSteps.OwnStepKeeps` | kernel/barrier.h:48-69 | each step of the barrier keeps its counts in step with the condition's epoch |
| `ReusableBarrierSteps.InnerStepKeeps` | kernel/condition.h:56-126 | each step inside the condition does too |
| `ReusableBarrierSteps.NeverStuck` | kernel/barrier.h:48-69 | whoever has the lock can go on, and whoever wants it can take it when it is free |
| `OneShotBarrier.AnyRun` | kernel/barrier.h:20-29 | nobody is through before the last arrival, and from then on there is exactly one token |
| `OneShotBarrier.PanicsWhenOverrun` | kernel/barrier.h:21-22 | an arrival panics exactly if it is one too many, or the barrier is for none or more than 2^31 |
| `OneShotBarrier.NotStuck` | kernel/barrier.h:23-28 | after the last arrival some thread in sync can go on |
| `OneShotBarrier.Progress` | kernel/barrier.h:20-29 | and each step brings the end nearer |
| `FutureSteps.OneValue` | kernel/future.h:27-39 | if calls of set do not overlap, all calls of get return one value, and set was called with it |
| `FutureSteps.RunKeeps` | kernel/future.h:27-39 | in every run there is one token once the value is there, and none before |
| `FutureSteps.NotStuck` | kernel/future.h:33-39 | once the value is there some thread in get can go on |
| `FutureSteps.RacingSetters` | kernel/future.h:27-32 | for any two values and two threads or more, calls of set that overlap have a run in which one get returns the one value and another the other |
| `FutureSteps.OneValueExactly` | kernel/future.h:27-39 | all gets agree in every run if and only if calls of set are kept apart or there is only one thread |
| `BlockIo.Read` | kernel/block_io.cc:6-33 | -1 beyond the end, else the bytes from the offset to the end of its block, of the file or of the wish |
| `BlockIo.ReadAll` | kernel/block_io.cc:35-46 | all bytes asked for that the device has, in place, and the loop ends |
| `BlockIo.WithinBlock` | kernel/block_io.cc:13-31 | bytes of one block lie together in it |
| `FileBlocks.ShortFile` | kernel/Ext22.h:220-222 | a file of at most twelve blocks needs nothing of its indirect references |
| `FileBlocks.WordsOfEncoded` | kernel/Ext22.h:224-226 | references written as little-endian words are read as the numbers written |
| `FileBlocks.ListIsWritten` | kernel/Ext22.h:220-238 | the list is the direct references, those written in the single indirect block, and those written in the blocks that the double indirect block names, in order |
| `FileBlocks.LimitIsLength` | kernel/Ext22.h:227 | the code's limit is the length of that list if and only if the block size is not 65536 |
| `FileBlocks.ReadBlock` | kernel/Ext22.h:220-238 | the block whose number is at that place in the i-node's list of direct, single and double indirect blocks |
| `FileBlocks.ListAt` | kernel/Ext22.h:220-238 | quotient and remainder find the place in the list |
| `FileBlocks.DoubleLimitIs` | kernel/Ext22.h:227 | the limit in the code covers all double indirect blocks if and only if the block size is not 65536 |
| `FileBlocks.NodeReadBlock` | kernel/ext2.cc:138-158 | panics exactly beyond the single indirect block or the sector count, else reads the same block as the other code |
| `FileBlocks.FileByte` | kernel/block_io.cc:35-46 | each byte read of a file is that byte of the disk block that the list names |
| `BlockCache.Cache.constructor` | kernel/Ext22.h:111-127 | all rooms are free |
| `BlockCache.Cache.Get` | kernel/Ext22.h:143-167 | always what reading without a cache gives; and for the first 65535 calls each set is a list that throws out the least recently used |
| `BlockCache.Cache.Take` | kernel/Ext22.h:169-218 | a miss reads the block and gives it a room |
| `BlockCache.Cache.Victim` | kernel/Ext22.h:171-186 | a free room, or one with the lowest stamp in a full set |
| `BlockCache.Hit` | kernel/Ext22.h:155-163 | a room used again moves to the end of the order |
| `BlockCache.Miss` | kernel/Ext22.h:169-205 | the first in the order of a full set gives way |
| `BlockCache.Oldest` | kernel/Ext22.h:180-186 | the lowest stamp is the least recently used |
| `Directories.Find` | kernel/ext2.cc:160-170 | the number of the last record of that name, or 0 |
| `Directories.EntriesAreWritten` | kernel/ext2.h:181-200 | records written one behind the other, each with number, length, name length, kind, name and padding, are read as their entries |
| `Directories.OneMatch` | kernel/ext2.cc:160-170 | with distinct names, the one record's |
| `Directories.StrEq` | kernel/libk.cc:14-24 | equality of C strings |
| `PathWalk.FindPath` | kernel/ext2.h:258-296 | the fold of directory look-up over the components; null at the first that is missing; at a link the part of the path behind it; a panic for one longer than 256 |
| `PathWalk.ComponentsAreWritten` | kernel/ext2.h:262-275 | names written with slashes between them are the components |
| `PathWalk.FoundExactly` | kernel/ext2.h:258-296 | a node is found if and only if each component is an entry of the directory that those before it lead to, and the last entry is the node's |
| `PathWalk.MissingExactly` | kernel/ext2.h:282-286 | nothing is found if and only if some component has no entry in the directory that those before it lead to |
| `PathWalk.LinkExactly` | kernel/ext2.h:287-293 | the walk stops at a link if and only if some component is its entry there, and what is behind it is left |
| `PathWalk.SlashesDoNotMatter` | kernel/ext2.h:262-263 | leading, trailing and repeated slashes change nothing |
| `PathWalk.PathsCompose` | kernel/ext2.h:258-296 | looking up p/q is looking up q from where p leads |
| `PathWalk.WalkJoined` | kernel/ext2.h:258-296 | the walk along joined paths, also when the first ends early |
| `Audio.HearsTheFile` | kernel/audio.h:447-463 | if the hardware stays less than 65536 bytes ahead of the refill position, all that is heard is the file's data in order |
| `Audio.PlaysTheFile` | kernel/audio.h:447-463 | so it is from the state in which the constructor leaves the player |
| `Audio.PollKeeps` | kernel/audio.h:451-460 | a turn of the loop keeps written at 4096 times index and rewrites no page the hardware is in |
| `Audio.RefillShows` | kernel/list_wave.h:158-179 | reading one page moves the part of the file in the ring on by a page |
| `Audio.Wave.constructor` | kernel/list_wave.h:119-136 | the ring begins with the first sixteen pages of the data |
| `Audio.Wave.RebuildData` | kernel/list_wave.h:158-179 | one page is read, as far as the file goes, and the offset advances |
| `Audio.Wave.Turn` | kernel/audio.h:451-464 | the counters and the ring after one turn, and shut-down once the size is reached |
| `Numerals.FmtInt` | kernel/snprintf.cc:400-488 | the sign, zeros, digits and spaces of the text in their order |
| `Numerals.Convert` | kernel/snprintf.cc:433-440 | the digits, least significant first, at most eleven |
| `Numerals.AtMostElevenDigits` | kernel/snprintf.cc:433-440 | no 32-bit value needs more in base 8, 10 or 16 |
| `Numerals.RoundTrip` | kernel/snprintf.cc:400-488 | reading the text gives the value back for every width, precision and set of flags |
| `Numerals.TextLooks` | kernel/snprintf.cc:400-488 | where spaces, sign, zeros and digits stand, how many there are, and that the digits are a numeral without zeros in front, in capitals exactly on demand |
| `Numerals.FieldLooks` | kernel/snprintf.cc:361-396 | each character of a string in its field, and the length |
| `Numerals.Width` | kernel/snprintf.cc:442-451 | the width is max(min, sign + max(precision, digits)) if and only if the zero flag does not meet a precision above the digits and a width above both |
| `Numerals.FmtStr` | kernel/snprintf.cc:361-396 | the string in its width, cut at the precision |
| `Printf.Dopr` | kernel/snprintf.cc:112-359 | the state machine ends, and puts out what the grammar of the format says |
| `Printf.LiteralText` | kernel/snprintf.cc:138-143 | text without percent signs is copied as it is, up to the limit |
| `Printf.OverrunExactly` | kernel/snprintf.cc:337-347 | a format is read beyond its end if and only if its last conversion, found by a scan of the format alone, has a `w` at the end of the format as its letter, and the output before that conversion is below the limit |
| `Printf.OverrunExample` | kernel/snprintf.cc:337-347 | "%w" is, "now" and "%%w" are not |
| `Printf.NumberReadsBack` | kernel/snprintf.cc:234-322 | a number put out anywhere in a format with any flags, width, precision, asterisks and size reads back as its argument, with the base, sign and capitals of its letter, and the format goes on behind it |
| `Printf.SpecIsWritten` | kernel/snprintf.cc:144-232 | flags in any order, width and precision are those written in the format |
| `Printf.LettersPut` | kernel/snprintf.cc:271-341 | what each letter puts out that puts out no number, and which arguments it takes |
| `Circle.DrawCircle` | kernel/vga.cc:273-297 | the pixels are exactly those that lie, in any of the eight ways around the centre, at a column of the octant and its nearest row; no column is left out |
| `Circle.Step` | kernel/vga.cc:288-295 | one pass keeps d at its closed form, the row the highest nearest one, and, below a radius of 2^28, d within 32 bits |
| `Circle.StepEast` | kernel/vga.cc:288-290 | with a negative decision variable the row stays nearest |
| `Circle.StepDown` | kernel/vga.cc:291-294 | otherwise the row below is, and d keeps its closed form |
| `Circle.NearestIsOne` | kernel/vga.cc:273-297 | there is only one nearest row |

## Left out

- `KernelHeap.Heap.Realloc`: when memory has run out the code frees the old block anyway; of that case only the state of the heap is claimed.
- `KernelHeap.Heap.Malloc`: takes the request below 2^32 bytes and an array of fewer than 2^31 - 1 ints, which the 32-bit types of the code imply.
- `Vmm.Machine.Unmap`: takes a private page other than an APIC's; nothing in the kernel calls it.
- `FileBlocks.ReadBlock`: takes block numbers below the code's limit for double indirect blocks, whose references on the way lie on the disk; in the triple indirect branch of the code the references are not multiplied by the block size, so that no layout is claimed for it.
- `BlockCache.Cache.Get`: from call 65536 on the 16-bit stamps repeat, and only coherence is claimed.
- `Directories.Find`: takes a directory whose records tile it, each of at least 8 bytes; a record of length 0 would never end.
- `Printf.Dopr`: what `fmtfp` makes of a number is an argument, the number that `%n` stores is not modelled, and widths and precisions are unbounded.
- `Printf.SpecIsWritten`: takes a width and a precision in digits; those that asterisks take from the arguments have no law of this form.
- `Audio.HearsTheFile`: bytes beyond the end of the file are not claimed; the ring keeps older ones there.
- `Processes.EveryFrameHasOneOwner`: whole operations follow one another; operations of different processes that interleave are runs of `Frames.RunKeeps`, in which the frames in the hands of code are a place of their own.
- `ReusableBarrierSteps.AnyRun`: the 64-bit epochs do not wrap.
- The i-node cache of kernel/Ext22.h, which drops its lock between looking and filling, and its array of directory entries, which assumes that no record has number 0.
- `Ext2::get_node`'s arithmetic on the i-node tables, and mounting a file system.
- Translation look-aside buffers: `invlpg` and reloading cr3 have no counterpart; translations are those of the tables.
- The retries of spin locks, `monitor` and `mwait`; weak memory, since all atomics of the source are sequentially consistent.
- Liveness of scheduling: fairness of the timer, and a thread's loss of preemption after `block` returns without blocking.
- Port and memory-mapped drivers, start-up assembly, program loading, system-call dispatch, parsing of wave headers and pictures, the other drawing functions and the games.
- `fmtfp`, which works on floating point.
