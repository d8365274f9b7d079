# Sparrow kernel: a verified model

Sparrow is a small 32-bit x86 kernel. This project models its memory manager,
its threads, locks and processes, its pipes and disk driver, its file system and
its path handling, and proves what every run of them keeps.

| module | what it models |
|---|---|
| `Bitmaps` | packed bitmaps with first-fit search |
| `Lists` | the intrusive doubly linked list |
| `Common` | the option type, sequences without repetition, and facts about slices and finite sets |
| `Paging` | address pools, frame pools and the self-mapped page tables, read and written through the MMU walk |
| `Heap` | arenas, seven block sizes, free lists and page reclamation, on top of `Paging` |
| `Sync` | scheduler, semaphores and re-entrant locks as a step machine, preempted wherever interrupts are on |
| `Processes` | fork, exit, wait and the process tree, with pids that are reused |
| `IoQueues` | the ring buffer, pipes, and producers and consumers that sleep |
| `Ide` | splitting transfers into commands, and the handshake with the disk interrupt |
| `Sectors`, `DirSlots` | what the bytes of a sector mean: words of an indirect table, directory entries, and a directory as a finite map |
| `Volume` | inodes, block maps and the block bitmap: who owns which block |
| `Files` | `file_write` and `file_read` |
| `Directory` | entries inserted, searched, deleted and listed in a directory's blocks |
| `FileSystem` | files and directories created and removed on a volume, with their rollbacks |
| `Format` | the layout of a partition and the volume a format leaves |
| `InodeTable` | inodes as bytes in the table, and the list of open inodes |
| `Paths`, `DirTree` | path normalisation, path search, and the directory tree |
| `Namespace` | the volume on disk refines the directory tree |

How the pieces fit. `Volume.Valid` is the invariant of a mounted partition: every
used block has exactly one reference in exactly one inode, files own the blocks
their size calls for, directories count their entries, and the inode bitmap is
exact. Every successful operation of `Files`, `Directory` and `FileSystem` keeps
it, says what happened to the one or two inodes it is about, and leaves the
meaning of all others alone. That is about inodes in memory; whether an inode
that has been closed is read back from the inode table as it was is
`Volume.Reopens`, and each of these operations says exactly which inodes still
are: all of them iff the numbers it stores are below 256. `DirTree` works on directories as rows of entries
and proves the path theorems; `Namespace` ties a volume to the tree it spells
out, byte for byte, and shows that the operations on one are the operations on
the other. `Namespace.Mounted.Run` puts them together: over every script of calls
volume, table and tree stay in step, up to the first lost block, endless loop or
halt; while inode numbers stay below 256 every inode survives being closed, and
no call meets a foreign slot (`Namespace.RunFresh`, from a fresh format).

Where the code does not keep what it means to keep, the model follows the code,
and the contract gives the exact condition, in terms of sizes, free blocks or
states that a caller can see beforehand:

- A write that would bring a file to exactly 71680 bytes passes the size test and
  then trips the assertion on the block count (`Files.Outcome`); the bytes from
  71168 on can be written but not read (`Files.AppendedReadsBack`).
- A write that runs out of blocks takes all that were free and stores nothing.
  As long as the file stays open the volume is consistent iff at most the first
  block of a new file was free; once it is closed and read back from its slot,
  iff no block was free (`Files.OutOfBlocks`). `sys_mkdir` leaves the volume
  inconsistent iff the entry fails after the child's block was taken
  (`FileSystem.MakeDir`).
- Deleting a directory entry never returns iff it is the only one of an indirect
  block (`Directory.DeleteEntry`).
- `inode_sync` reaches the right slot iff the number is below 256
  (`InodeTable.SyncExactly`, `InodeTable.LostInode`); so a file or directory
  created with a higher number, and the inode whose slot it overwrites, are lost
  once closed, and nothing else is (`Volume.Saved`, `Volume.PersistentExactly`).
  Unlinking such a file halts the kernel (`FileSystem.RemovalOf`). Such a
  directory, opened again, is a blank copy with number 0, or the inode that
  overwrote its slot (`Volume.NotReopened`): `sys_rmdir` refuses the one, and in
  place of the other removes the inode in the slot if that looks empty
  (`FileSystem.RmdirOf`, `FileSystem.RmdirLost`); an entry added to a blank copy
  overwrites the root's slot (`Volume.BlankDirectory`).
- The one-sector buffer that `file_write` lends to `inode_sync` is overrun iff slot
  number % 256 straddles two sectors, first for number 6 (`InodeTable.SyncFits`).
- `malloc_page` succeeds iff there are addresses, frames and, for user pages,
  kernel frames for the page tables missing; failing for want of frames it leaves
  addresses marked without pages (`Paging.Pager.MallocPage`).
- `sys_unlink` removes the file the path names iff the search uses all its names;
  "/f/x" removes the file "/f" (`DirTree.UnlinkExactly`). Names of 16 characters
  are read back from their entry iff the low byte of the inode number is 0
  (`Sectors.LongNameReads`).
- The bitmap-sizing loop of a format ends iff the free sectors are not 1 modulo
  4097 (`Format.StopsExactly`); the fresh volume is consistent iff it has at least
  eight blocks (`Format.FormatSound`).
- init can sleep beside a child that is already hanging, exactly when it adopts
  one while waiting (`Processes.LostExactly`), which a run from the start reaches
  (`Processes.InitCanMissAChild`).
- `rmdir` keeps the tree iff the last name of the path is not "."
  (`DirTree.RmdirKeepsTree`); `getcwd` after `chdir` gives the washed path unless
  the path is made of two or more slashes and an unset buffer holds something
  (`DirTree.ChdirGetcwd`); counting the names of a path has the same flaw
  (`Paths.PathDepthCnt`).
- `pipe_write` blocks although its own count says there is room, iff the data
  exceeds the 2047 bytes that really fit (`IoQueues.IoQueue.PipeWrite`). A consumer
  goes to sleep beside a byte exactly in taking the lock, after waiting for it, with
  a byte there by then (`IoQueues.BesideExactly`); no run does so iff nobody
  consumes, or one thread does and nobody else can block on the queue
  (`IoQueues.NeverBesideExactly`).

Where a comment of the source disagrees with its code, the code is followed: a
file "uses" i_size / 512 + 1 blocks (sparrow/fs/file.c:299-303), and the read
limit is 139 (sparrow/fs/file.c:503).

## Model

| member | source | states |
|---|---|---|
| `Bitmaps.FirstRun` | sparrow/lib/kernel/bitmap.c:22-44 | the least start of `cnt` consecutive clear bits, or -1 iff there is no such run |
| `Bitmaps.Bitmap.Scan` | sparrow/lib/kernel/bitmap.c:22-44 | the search that skips past each blocking bit terminates and finds that least start; a request for 0 bits fails |
| `Bitmaps.Bitmap.Init` | sparrow/lib/kernel/bitmap.c:8-12 | every bit becomes clear and no byte after the map changes |
| `Bitmaps.WithBitTest` | sparrow/lib/kernel/bitmap.c:47-59 | masking a byte sets or clears one bit and leaves the other seven |
| `Bitmaps.Bitmap.Set` | sparrow/lib/kernel/bitmap.c:47-59 | one bit of the map changes and nothing else |
| `Lists.InsertBefore` | sparrow/lib/kernel/list.c:13-28 | a consistent row with the element put before its neighbour; only the two neighbours and the element are written |
| `Lists.Remove` | sparrow/lib/kernel/list.c:41-48 | a consistent row without the element; only its two neighbours are written |
| `Lists.List.constructor` | sparrow/lib/kernel/list.c:5-10 | the empty list |
| `Lists.List.Push` | sparrow/lib/kernel/list.c:31-33 | the list as a sequence gains the element in front |
| `Lists.List.Append` | sparrow/lib/kernel/list.c:36-38 | the list as a sequence gains the element at the end |
| `Lists.List.Unlink` | sparrow/lib/kernel/list.c:41-48 | the sequence without that element, which is then in it no more |
| `Lists.List.Pop` | sparrow/lib/kernel/list.c:51-55 | the first element, and the sequence without it |
| `Lists.List.Empty` | sparrow/lib/kernel/list.c:101-103 | true iff the sequence is empty |
| `Lists.List.Find` | sparrow/lib/kernel/list.c:58-67 | true iff the element is in the sequence; the walk ends |
| `Lists.List.Traverse` | sparrow/lib/kernel/list.c:73-87 | the first element the callback accepts, null iff there is none |
| `Lists.List.Len` | sparrow/lib/kernel/list.c:90-98 | the length of the sequence |
| `Paging.SelfMap` | sparrow/kernel/memory.c:173-186 | whatever the tables hold, the address from pde_ptr walks to the directory entry and the one from pte_ptr to the true page-table entry, or faults iff there is no table |
| `Paging.StoreEntry` | sparrow/kernel/memory.c:189-231 | storing through that address changes this page's entry and, in the kernel's directory, that of its alias 3 GB away, and no other |
| `Paging.LowPages` | sparrow/boot/loader.S:203-204 | in the kernel's directory, whose slots 0 and 768 share a table, the first 4 MB always repeat the kernel's first 4 MB |
| `Paging.UserReaches` | sparrow/kernel/memory.c:189-231 | in every state of the invariant a write in user mode, which asks for present, writable and user at both levels, reaches the mapped pages of the two address pools, each in its frame, and faults in the others |
| `Paging.BootValid` | sparrow/kernel/memory.c:43-114 | the machine the loader and mem_pool_init leave, with that shared table, satisfies the invariant, and a set address bit is a mapped page; all entries have full rights |
| `Paging.NewTable` | sparrow/kernel/memory.c:214-226 | hanging a zeroed frame under an empty directory slot changes no page's entry |
| `Paging.Pager.Palloc` | sparrow/kernel/memory.c:156-167 | a frame nobody uses, now marked in its pool; 0 iff the pool is full, with nothing changed |
| `Paging.Pager.ClearTable` | sparrow/kernel/memory.c:221-226 | clearing a new table through the self-map zeroes that frame and no other |
| `Paging.Pager.AddTable` | sparrow/kernel/memory.c:214-227 | the directory slot gets a kernel frame that was free, and the records stay consistent |
| `Paging.Pager.PageTableAdd` | sparrow/kernel/memory.c:189-231 | the page becomes mapped to the frame and no other managed page changes, a table is made iff it was missing; it fails only for user pages with the kernel pool empty; a user-mode write to the page reaches its frame |
| `Paging.Pager.SetPte` | sparrow/kernel/memory.c:202-229 | the entry is empty before, as asserted, and maps the page after; a user-mode write anywhere in the page reaches its frame |
| `Paging.Pager.VaddrGet` | sparrow/kernel/memory.c:117-152 | the first-fit run of addresses is marked and none of its pages was mapped; 0 iff there is no run |
| `Paging.Pager.MapNext` | sparrow/kernel/memory.c:252-261 | one page mapped onto a frame that was free, or nothing left to take |
| `Paging.Pager.MapRun` | sparrow/kernel/memory.c:251-262 | all pages of the run mapped onto fresh frames, iff enough frames are free beforehand, or a proper prefix of them |
| `Paging.Pager.MallocPage` | sparrow/kernel/memory.c:234-263 | it succeeds iff there is a run of addresses, a frame for each page and, for user pages, a kernel frame for each missing table; then exactly the first-fit run is marked and mapped onto frames that were free and distinct; without frames the run stays marked and a prefix mapped, and bit and page no longer agree; every other record stays consistent; after success a user-mode write to any page of the run reaches its frame |
| `Paging.Pager.Pfree` | sparrow/kernel/memory.c:465-480 | the frame's bit is cleared in the pool its physical address belongs to |
| `Paging.Pager.UnmapNext` | sparrow/kernel/memory.c:528-566 | the assertions hold, the page is unmapped and its frame returned |
| `Paging.Pager.UnmapRun` | sparrow/kernel/memory.c:524-566 | the pages of the run are unmapped and exactly their frames returned |
| `Paging.Pager.MfreePage` | sparrow/kernel/memory.c:514-570 | pages, frames and address bits of the run are given back, and nothing else |
| `Paging.FreeUndoesMalloc` | sparrow/kernel/memory.c:234-263 | freeing an allocation restores address pool, mapping and frame pool exactly |
| `Paging.ExactAfterMalloc` | sparrow/kernel/memory.c:234-263 | after an allocation of the whole run an address bit is still set iff its page is mapped |
| `Paging.ExactAfterFree` | sparrow/kernel/memory.c:514-570 | after a release too |
| `Paging.NotExact` | sparrow/kernel/memory.c:255-258 | after an allocation that ran out of frames it is not |
| `Paging.PageRunExact` | sparrow/kernel/memory.c:234-570 | over every run of malloc_page with frames enough and mfree_page, an address bit is set iff its page is mapped |
| `Paging.Pager.Run` | sparrow/kernel/memory.c:234-570 | over every script of calls, until frames run out: that, every record agrees, and what is held is disjoint and can be returned; user mode reaches every page held, in its frame |
| `Paging.MapStep` | sparrow/kernel/memory.c:189-231 | mapping a marked page onto a taken, unused frame keeps the three records in agreement |
| `Paging.UnmapStep` | sparrow/kernel/memory.c:483-488 | unmapping a page and returning its frame keeps them in agreement |
| `Heap.BlockInArena` | sparrow/kernel/memory.c:342-351 | every block lies in its arena's page, past the header, and block2arena finds that arena |
| `Heap.BlockDescInit` | sparrow/kernel/memory.c:329-339 | seven sizes doubling from 16, each with as many blocks as fit in a page behind the header |
| `Heap.LiveApart` | sparrow/kernel/memory.c:354-462 | two live pointers never overlap |
| `Heap.LiveClearOfHeaders` | sparrow/kernel/memory.c:342-351 | no live pointer overlaps any arena header |
| `Heap.LiveInArena` | sparrow/kernel/memory.c:348-351 | the bytes of a live pointer lie in the arena that block2arena gives |
| `Heap.FullArena` | sparrow/kernel/memory.c:606-615 | an arena counts all its blocks free iff every one of them is in the free list |
| `Heap.ArenaHasLive` | sparrow/kernel/memory.c:606-617 | an arena that exists has a live block |
| `Heap.NothingHeld` | sparrow/kernel/memory.c:573-621 | with nothing live there is no arena page left |
| `Heap.AddArenaInv` | sparrow/kernel/memory.c:422-451 | cutting a fresh page into blocks keeps the heap invariant and makes nothing live |
| `Heap.PopBlockInv` | sparrow/kernel/memory.c:453-458 | taking the front block keeps the invariant, the arena's count included |
| `Heap.PopBlockLive` | sparrow/kernel/memory.c:453-458 | it makes that block live and nothing else |
| `Heap.PushBlockInv` | sparrow/kernel/memory.c:602-607 | returning a block keeps the invariant |
| `Heap.PushBlockLive` | sparrow/kernel/memory.c:602-607 | it ends the life of that block and of nothing else |
| `Heap.DropArenaInv` | sparrow/kernel/memory.c:606-617 | purging an entirely free arena keeps the invariant |
| `Heap.DropLargeInv` | sparrow/kernel/memory.c:598-601 | so does giving a large arena back |
| `Heap.Heap.constructor` | sparrow/kernel/memory.c:329-339 | empty free lists, and nothing live |
| `Heap.Heap.TakePages` | sparrow/kernel/memory.c:390-391 | it succeeds iff malloc_page can, with the run first fit finds, whose pages are the only ones added; they are fresh, owned and clear of every arena |
| `Heap.Heap.MallocLarge` | sparrow/kernel/memory.c:387-408 | a pointer past the header at the run first fit finds, iff addresses and frames suffice, with room for the size in the fewest pages; it alone becomes live |
| `Heap.Heap.ClassFor` | sparrow/kernel/memory.c:411-420 | the least size class that fits |
| `Heap.Heap.NewArena` | sparrow/kernel/memory.c:422-451 | iff a page can be had, it is cut into blocks, all of them free and none of them in the list before |
| `Heap.Heap.MallocSmall` | sparrow/kernel/memory.c:409-461 | a new block of the least class that fits: the front of its free list, or the first block of a fresh page if the list is empty; it fails iff that page cannot be had; it alone becomes live |
| `Heap.Heap.Malloc` | sparrow/kernel/memory.c:354-462 | which pointer, null or halt is the answer, from the size, the free lists, addresses and frames beforehand; a pointer is new, large enough and the only change to what is live; failure changes nothing that is live; pages outside arenas stay as they were |
| `Heap.Heap.Reclaim` | sparrow/kernel/memory.c:606-617 | every block of a free arena is found in the list as asserted, and the page is given back, no other |
| `Heap.Heap.Free` | sparrow/kernel/memory.c:573-621 | the pointer and nothing else stops being live; its block goes to the end of the free list, or an arena without live blocks goes, and exactly its pages are unmapped |
| `Heap.Heap.Run` | sparrow/kernel/memory.c:354-621 | over every script of requests and releases, up to a failed assertion, each request is answered from what is free then; what is held is exactly what is live, pairwise disjoint; holding nothing leaves no arena, and the pages mapped are those mapped at the start unless a request in range found no pages |
| `Sync.ReachableSafe` | sparrow/thread/sync.c:21-85 | in every reachable state: one running thread, READY iff in the ready list once, a tag in at most one list, mutual exclusion, balanced re-entry counts, and no lost wakeup |
| `Sync.StepInv` | sparrow/thread/thread.c:173-278 | every step of every interleaving keeps the invariant |
| `Sync.RunInv` | sparrow/thread/thread.c:173-278 | so does every run |
| `Sync.ContinueInv` | sparrow/thread/sync.c:21-85 | inside lock_acquire and lock_release every assertion holds at every step |
| `Sync.HolderTestSound` | sparrow/thread/sync.c:59-85 | the test of `holder` with interrupts on says "mine" iff the caller has the lock |
| `Sync.DispatchInv` | sparrow/thread/thread.c:190-204 | from a state where nobody runs, schedule finds a thread to run; an empty ready list implies idle is blocked |
| `Sync.PreemptInv` | sparrow/thread/thread.c:173-204 | a timer interrupt at any point keeps the invariant |
| `Sync.PreemptExactly` | sparrow/thread/thread.c:173-204 | a timer interrupt gives the front of the ready list its turn and puts the running thread at the end |
| `Sync.CallsExactly` | sparrow/thread/sync.c:59-86 | an acquisition of a lock the caller has is a re-entry, any other queues; a woken thread goes to the front of the ready list, a new one to its end; exit hands over |
| `Sync.CountsExactly` | sparrow/thread/sync.c:59-86 | each lock_acquire that returns adds one open acquisition and each lock_release takes one away, for the caller and that lock alone |
| `Sync.UpInv` | sparrow/thread/sync.c:44-56 | sema_up finds the value 0 and a waiter that can be woken, and keeps the invariant |
| `Sync.UpWake` | sparrow/thread/sync.c:44-56 | after sema_up a waiter left in the queue has a woken thread ahead of it that will retest |
| `Sync.EnqueueMid` | sparrow/thread/sync.c:25-35 | a thread that finds the value 0 is not in the queue yet, and queues and blocks consistently |
| `Sync.TakeStep` | sparrow/thread/sync.c:36-38 | taking the semaphore makes the taker the one owner |
| `Sync.SleepInv` | sparrow/thread/thread.c:239-249 | thread_block for any other reason keeps the invariant |
| `Sync.StartInv` | sparrow/thread/thread.c:145-155 | so does starting a thread |
| `Sync.InitInv` | sparrow/thread/thread.c:218-236 | the state after thread_init, with main running and init and idle ready, satisfies it |
| `Sync.Cpu.ThreadUnblock` | sparrow/thread/thread.c:251-266 | the assertions hold; the thread becomes ready at the front, and nothing else of the lists changes |
| `Sync.Cpu.Schedule` | sparrow/thread/thread.c:173-204 | a running thread goes to the end of the ready list and the front runs, or it runs on alone; a thread that is not running hands over to the front, or to idle; the assertions hold |
| `Sync.Cpu.ThreadBlock` | sparrow/thread/thread.c:239-249 | the caller sleeps with that status, the front of the ready list runs, or idle; the invariant holds |
| `Sync.Cpu.SemaDown` | sparrow/thread/sync.c:21-41 | one round of the loop: at value 0 the caller joins the end of the queue and hands over, else it takes the unit and runs on; both assertions hold |
| `Sync.Cpu.SemaUp` | sparrow/thread/sync.c:44-56 | the value goes up to 1 and the first waiter goes to the front of the ready list, nobody else; both assertions hold |
| `Processes.ReachableSafe` | sparrow/userprog/wait_exit.c:124-187 | in every run each parent number names the actual, living, non-hanging parent and no recycled pid; each exited process is reaped exactly once with its own status; nobody but init waits beside a hanging child |
| `Processes.StepInv` | sparrow/userprog/wait_exit.c:87-187 | fork, exit and wait, preempted between their parts, keep the invariant |
| `Processes.RunInv` | sparrow/userprog/wait_exit.c:87-187 | so does every run of them |
| `Processes.StartInv` | sparrow/thread/thread.c:218-236 | init, main and idle with pids 1, 2 and 3 satisfy it |
| `Processes.WaitReturns` | sparrow/userprog/wait_exit.c:124-160 | wait returns a child iff one is hanging, with its pid and the status it exited with, and removes it and nobody else; -1 iff there is no child; the pid of that child becomes free |
| `Processes.LostExactly` | sparrow/userprog/wait_exit.c:112-120 | an exit leaves somebody waiting beside a hanging child iff init waits and a hanging child is adopted |
| `Processes.LostNowhereElse` | sparrow/userprog/wait_exit.c:124-187 | no other call does |
| `Processes.InitCanMissAChild` | sparrow/userprog/wait_exit.c:112-120 | a run from the start that ends with init asleep beside a hanging child |
| `Processes.NoChildYet` | sparrow/userprog/fork.c:13-36 | nobody is yet a child of the pid a fork has taken |
| `Processes.ForkEndInv` | sparrow/userprog/fork.c:181-203 | inserting the child keeps the invariant |
| `Processes.ForkChild` | sparrow/userprog/fork.c:181-203 | the child has the pid taken and the caller as parent, nobody else changes, and a wait of the caller does not find itself childless |
| `Processes.ExitBeginInv` | sparrow/userprog/wait_exit.c:163-173 | so does adoption by init |
| `Processes.ExitEndInv` | sparrow/userprog/wait_exit.c:178-187 | so does waking the parent and hanging |
| `Processes.ReapInv` | sparrow/thread/thread.c:377-411 | so does removing a process and releasing its pid |
| `Processes.Table.ForkTakePid` | sparrow/thread/thread.c:67-74 | the lowest free pid is marked, and is nobody's pid or parent number; with no pid left the code goes on with pid 0 |
| `Processes.Table.AdoptChildren` | sparrow/userprog/wait_exit.c:112-120 | exactly the children of that pid get init as their parent |
| `Processes.Table.SysExitAdopt` | sparrow/userprog/wait_exit.c:163-173 | the status is recorded in eight bits with its sign, exactly the children of the caller get init as parent, the invariant is kept |
| `Processes.Table.FindPid` | sparrow/thread/thread.c:425-434 | the process with that pid, or none |
| `Processes.Table.SysExitHang` | sparrow/userprog/wait_exit.c:178-187 | the parent is found and woken iff it waits, the process hangs, and nobody else changes |
| `Processes.Table.Traverse` | sparrow/userprog/wait_exit.c:87-108 | the first child, or first hanging child, in list order |
| `Processes.Table.SysWait` | sparrow/userprog/wait_exit.c:124-160 | one round: reap, report no child, or wait |
| `IoQueues.PutItems` | sparrow/device/ioqueue.c:77-97 | storing at the head appends to the queue, wrap-around included |
| `IoQueues.GetItems` | sparrow/device/ioqueue.c:51-74 | reading at the tail takes the oldest byte |
| `IoQueues.IoQueue.Full` | sparrow/device/ioqueue.c:21-25 | true iff 2047 bytes are queued |
| `IoQueues.IoQueue.Empty` | sparrow/device/ioqueue.c:28-32 | true iff no byte is queued |
| `IoQueues.IoQueue.Length` | sparrow/device/ioqueue.c:100-112 | the number of bytes queued |
| `IoQueues.IoQueue.PutChar` | sparrow/device/ioqueue.c:77-97 | on the buffer: the queue gains the byte at its end, as in the step of the machine of all users |
| `IoQueues.IoQueue.GetChar` | sparrow/device/ioqueue.c:51-74 | on the buffer: the queue loses its first byte, which is returned, as in the step of the machine |
| `IoQueues.IoQueue.PipeRead` | sparrow/shell/pipe.c:41-60 | the first min(count, length) bytes in order, without ever finding the queue empty |
| `IoQueues.IoQueue.PipeWrite` | sparrow/shell/pipe.c:63-81 | the bytes written are appended; it blocks, with the queue full, iff the data exceeds what really fits |
| `IoQueues.WaiterSlotFree` | sparrow/device/ioqueue.c:35-42 | whoever has just taken the lock finds neither a consumer nor a producer registered, as asserted |
| `IoQueues.StepOk` | sparrow/device/ioqueue.c:51-97 | every step of any number of producers, consumers and key strokes keeps the bytes, the slots and the lock consistent |
| `IoQueues.FifoAlways` | sparrow/device/ioqueue.c:51-97 | in every interleaving of producers and consumers the bytes put are those got followed by those in the buffer, at most 2047, and no assertion on the waiting slots fails |
| `IoQueues.MovesExactly` | sparrow/device/ioqueue.c:51-97 | a key's or a caller's own byte is put iff there is room, the oldest byte is got iff there is one, at the call and after every wait |
| `IoQueues.RingIsFull` | sparrow/device/ioqueue.c:21-25 | full means 2047 bytes |
| `IoQueues.BesideExactly` | sparrow/device/ioqueue.c:56-63 | a step leaves a consumer asleep beside a byte iff it takes the lock after having waited for it and a byte is there |
| `IoQueues.CrowdedExactly` | sparrow/device/ioqueue.c:82-89 | the same for a producer and room |
| `IoQueues.TwoConsumers` | sparrow/device/ioqueue.c:56-63 | any two consumers have a run in which one sleeps beside a byte |
| `IoQueues.BlockingProducer` | sparrow/device/ioqueue.c:51-97 | so have a consumer and a producer that blocks |
| `IoQueues.NeverBesideExactly` | sparrow/device/keyboard.c:194-196 | no run does iff nobody consumes, or one thread does and no other can block; in particular one consumer and the guarded keyboard |
| `Ide.SelectMeans` | sparrow/device/ide.c:61-76 | the registers decode to the same address, count and drive, 256 going out as 0, in LBA mode |
| `Ide.Drive.Read` | sparrow/device/ide.c:126-169 | the commands move each sector of the range once, in order, and the buffer holds them |
| `Ide.Drive.Write` | sparrow/device/ide.c:172-212 | the commands cover the range once, it holds the data afterwards, and every other sector is unchanged |
| `Ide.StepInv` | sparrow/device/ide.c:79-83 | every step of driver and interrupt, expected, early or spurious, keeps the handshake invariant |
| `Ide.HandshakeSafe` | sparrow/device/ide.c:215-229 | in every run outstanding commands equal expecting_intr plus disk_done.value, no semaphore assertion fails, one thread is past the lock, and a sleeping driver is woken by the next interrupt |
| `Ide.HandshakeReachable` | sparrow/device/ide.c:215-229 | the same for every state reached from a fresh channel, for any set of threads |
| `Sectors.TableRoundTrip` | sparrow/fs/file.c:407-407 | a table of 128 addresses written to a sector reads back as itself |
| `Sectors.EntryRoundTrip` | sparrow/fs/dir.c:113-121 | an entry copied into a sector reads back as itself |
| `Sectors.LongNameReads` | sparrow/fs/dir.c:113-121 | an entry with a name of 16 characters reads back under that name iff the low byte of its inode number is 0 |
| `Sectors.EntriesPut` | sparrow/fs/dir.c:222-229 | writing one slot of a sector changes that entry and no other |
| `Sectors.EntriesClear` | sparrow/fs/dir.c:355-356 | zeroing one slot empties it and no other |
| `DirSlots.InsertOk` | sparrow/fs/dir.c:124-236 | filling a free slot extends the map by that name and the count by one, and keeps names and inodes distinct |
| `DirSlots.DeleteOk` | sparrow/fs/dir.c:239-369 | emptying a slot removes that name from the map and one from the count |
| `DirSlots.EmptyExactly` | sparrow/fs/dir.c:432-437 | two live entries iff the names are exactly "." and ".." |
| `DirSlots.LiveSeqMap` | sparrow/fs/dir.c:372-429 | the list of live entries holds each entry of the map, once |
| `Volume.OwnedExactly` | sparrow/fs/file.c:67-77 | a block's bit is set iff exactly one reference of exactly one inode leads to it |
| `Volume.Conservation` | sparrow/fs/file.c:67-77 | free blocks and owned blocks add up to the volume |
| `Volume.AttachInv` | sparrow/fs/file.c:339-434 | taking free blocks and putting them into one inode keeps ownership exact |
| `Volume.DetachInv` | sparrow/fs/dir.c:310-321 | giving blocks back and clearing their references keeps it exact |
| `Volume.NodeFrame` | sparrow/fs/file.c:437-464 | what an inode means depends on its own blocks only |
| `Volume.NotSoundLeak` | sparrow/fs/fs.c:786-791 | a used block without a reference makes the volume inconsistent, whoever is taken to own what |
| `Volume.Partition.AllocBlock` | sparrow/fs/file.c:67-77 | the first free block is marked and nothing else changes; -1 iff none is free |
| `Volume.Partition.InodeRelease` | sparrow/fs/inode.c:208-267 | every block of the inode, its table, its number and its slot are given back and nothing else; the assertions on block 0 hold; all other inodes keep their meaning; for an inode that is not open it halts iff its slot carries another number |
| `Volume.Partition.SyncInode` | sparrow/fs/inode.c:45-80 | slot number % 256 of the table then holds this inode, every other slot what it held, and blocks and inodes in memory are unchanged |
| `Volume.SavedOne` | sparrow/fs/inode.c:45-80 | after one inode is stored, another one still opens as it was iff the number stored is below 256 or not congruent to its own, and the stored one opens as it is iff its number is below 256 |
| `Volume.SavedTwo` | sparrow/fs/fs.c:793-799 | the same after parent and child are stored |
| `Volume.PersistentExactly` | sparrow/fs/inode.c:83-138 | a volume whose inodes all survive being closed stays one iff the numbers stored are below 256 |
| `Volume.ClearedOk` | sparrow/fs/inode.c:179-205 | clearing the slot of a released inode changes how no other opens |
| `Volume.NumberDecides` | sparrow/fs/inode.c:83-138 | a slot with the number asked for holds the inode as it is in memory, and an inode reopens iff its number is below 256 and is in its slot |
| `Volume.Unsaved` | sparrow/fs/file.c:344-348 | an inode changed and not stored leaves table and memory in step iff it is the same or not in the table |
| `Volume.NotReopened` | sparrow/fs/fs.c:377-384 | what opening gives for an inode that does not reopen: from 256 on a blank copy with number 0, below 256 the inode from 256 on that was stored to the slot, as it is in memory if still in use |
| `Volume.BlankDirectory` | sparrow/fs/inode.c:45-80 | no name is found in a blank copy, and storing one that was given a block takes the slot of the root |
| `Files.AllocBlocks` | sparrow/fs/file.c:339-359 | distinct free blocks for the positions asked for, the direct ones already in the inode; stopping early means none is left |
| `Files.FirstBlock` | sparrow/fs/file.c:281-296 | a file written for the first time gets one block, not block 0, iff one is free |
| `Files.GrowDirect` | sparrow/fs/file.c:332-360 | within the direct blocks: grown, owned exactly, or failed with the bytes untouched |
| `Files.GrowAcross` | sparrow/fs/file.c:361-408 | the same where the first indirect blocks and the table are new |
| `Files.GrowIndirect` | sparrow/fs/file.c:409-434 | the same where the table exists |
| `Files.Grow` | sparrow/fs/file.c:298-435 | it succeeds iff enough blocks are free; failing takes all that were free, keeps the volume consistent iff none was, and leaves the inode alone iff none was or it had indirect blocks |
| `Files.WriteData` | sparrow/fs/file.c:437-464 | the bytes of the file become the old ones followed by the buffer |
| `Files.FileWrite` | sparrow/fs/file.c:248-469 | contents become old followed by buffer, other inodes and all invariants are kept, and exactly the needed blocks are taken; which inodes still open as they were after the closing inode_sync; it succeeds iff the new size is below 71680 and the free blocks pay for every absent block position and the table; after a write that finds no block, `OutOfBlocks` says from the state beforehand whether the volume is consistent while the file is open and once it is closed, and whether table and memory still agree |
| `Files.NeedCounted` | sparrow/fs/file.c:281-434 | the blocks a write takes are one for each absent block position up to its end, and the table if it is absent and needed |
| `Files.WriteFailed` | sparrow/fs/file.c:281-348 | a write that finds no block leaves the volume consistent iff at most the first block of a new file was free, the table in step iff none was free, the blocks were indirect or the table does not have the inode, and, the inode read back, a consistent volume iff none was free |
| `Files.ReadBackOf` | sparrow/fs/inode.c:83-138 | the same write seen after the file is closed: its inode is what it was before, and every block that was free is lost |
| `Files.FirstBlockLost` | sparrow/fs/file.c:281-348 | a new file, one free block and 600 bytes: no block is found, the volume is consistent while the file is open and not once it is closed |
| `Files.AppendedReadsBack` | sparrow/fs/file.c:472-503 | appended bytes read back as written iff the file stays below 139 blocks |
| `Files.Collect` | sparrow/fs/file.c:508-558 | the addresses of all blocks of the range, direct and indirect |
| `Files.ReadData` | sparrow/fs/file.c:560-579 | exactly that slice of the contents |
| `Files.FileRead` | sparrow/fs/file.c:472-583 | the bytes from the position on, as many as were asked for or are left; -1 iff some were asked for at the end of the file, halted iff the block limit is passed or the position is beyond the end |
| `Files.ReadOn` | sparrow/fs/file.c:472-583 | reading a bytes and then b gives what reading a + b gives, ends of file and halts included |
| `Files.WritePosOk` | sparrow/fs/file.c:439-461 | the position a write leaves is inside the file, or 0 - 1 when the file is empty |
| `Files.Seek` | sparrow/fs/fs.c:604-638 | the position asked for iff it lies inside the file, else -1 and no change |
| `Directory.AddBlock` | sparrow/fs/dir.c:159-214 | a new block for the entry, with the table when it is the first indirect one; without enough blocks nothing changes |
| `Directory.FreeSlot` | sparrow/fs/dir.c:219-231 | the first free slot of a sector |
| `Directory.FindFree` | sparrow/fs/dir.c:155-233 | the first free slot of the directory, absent blocks counted as free |
| `Directory.InsertEntry` | sparrow/fs/dir.c:124-236 | the entry goes to the first free slot, the map gains exactly that name, blocks taken as needed; full, out of space and success are told apart exactly and a failure changes nothing; it succeeds iff there is a free slot and blocks for it, full iff every slot is live |
| `Directory.ScanBlock` | sparrow/fs/dir.c:278-298 | the slot of the inode if it is there, the number of proper entries, and whether this is the first block; the assertion holds |
| `Directory.FindHit` | sparrow/fs/dir.c:263-305 | the entry for the inode and whether it is alone in its block |
| `Directory.DeleteEntry` | sparrow/fs/dir.c:239-369 | the map loses exactly that name, an emptied direct block is given back, the directory's inode is stored, with the exact effect on how others open; it hangs iff the entry is alone in an indirect block; it finds nothing iff no live entry has the number |
| `Directory.NameSlot` | sparrow/fs/dir.c:75-87 | the first slot of a sector with the name |
| `Directory.SearchEntry` | sparrow/fs/dir.c:29-95 | lookup in the map for every non-empty name; the empty name is found iff there is a free slot |
| `Directory.IsEmpty` | sparrow/fs/dir.c:432-437 | true iff only "." and ".." are there, and then no block but the first |
| `Directory.EmptyBlocks` | sparrow/fs/dir.c:440-449 | an empty directory has no block but its first, so dir_remove's assertion holds |
| `Directory.ReadBlock` | sparrow/fs/dir.c:409-425 | the entry at the position if it lies in this sector; the assertion holds |
| `Directory.ReadAt` | sparrow/fs/dir.c:372-429 | entry pos / 24 of the live ones in slot order, none iff past the last |
| `Directory.OpenDir.Read` | sparrow/fs/dir.c:372-429 | the same, and the position moves by one entry iff there was one |
| `Directory.ListAll` | sparrow/fs/dir.c:372-429 | reading until nothing comes yields every entry of the map once, in order |
| `FileSystem.NewDirOk` | sparrow/fs/fs.c:744-779 | a new directory of one block with "." and ".." fits the invariant and disturbs no inode |
| `FileSystem.NewFileOk` | sparrow/fs/inode.c:161-176 | so does a new file without blocks |
| `FileSystem.PcbFdInstall` | sparrow/fs/file.c:33-52 | the first free descriptor from 3 on gets the place in the file table; -1 and no change iff there is none |
| `FileSystem.CreateFile` | sparrow/fs/file.c:104-197 | an empty file under the lowest free number, named in the open parent, both stored; all inodes still survive being closed iff that number is below 256; on any failure the volume is exactly as before, except that the file stays when only the descriptor fails; it succeeds iff a number, a place in the file table, a slot and the blocks for it are free |
| `FileSystem.StoredBoth` | sparrow/fs/fs.c:793-799 | storing parent and child changes no meaning, and all inodes survive being closed iff the child's number is below 256 |
| `FileSystem.MakeDir` | sparrow/fs/fs.c:732-823 | an empty directory named in the open parent, both stored; all inodes still survive being closed iff its number is below 256; consistent afterwards iff it did not fail after taking the child's block; no number iff every bit of the inode bitmap is set, no block iff none is free, made iff the free blocks pay for the first block and the entry, under the lowest free number |
| `FileSystem.RemoveEntry` | sparrow/fs/dir.c:457-461 | the common end of unlink and rmdir: gone, stuck in the endless loop iff its entry is alone in an indirect block, or halted iff the inode is neither open nor reopens |
| `FileSystem.Unlink` | sparrow/fs/fs.c:681-696 | refused iff the file is open; else entry, blocks, number and slot are given back and nothing else changes, it hangs iff its entry is alone in an indirect block, or it halts iff the file does not reopen |
| `FileSystem.RemoveDir` | sparrow/fs/fs.c:885-922 | the directory is read from its slot unless open: one that reopens is removed iff empty, any other is refused or has the inode in its slot removed in its place, exactly by what the slot holds; and what becomes of the volume in each case |
| `FileSystem.RmdirLost` | sparrow/fs/fs.c:905-917 | a directory that does not reopen is always refused from 256 on; below, the inode in its slot goes in its place iff that is an empty directory or a file of 48 bytes, and the assertion on the blocks holds |
| `FileSystem.RemoveForeign` | sparrow/fs/dir.c:457-461 | deleting by the number in the slot removes that inode, with its entry iff the parent names it |
| `FileSystem.RemoveStale` | sparrow/fs/dir.c:457-461 | if the inode in the slot is gone already, the block it had is marked free, and the volume stays consistent iff that block is free |
| `FileSystem.DanglingName` | sparrow/fs/dir.c:457-461 | an inode removed in this way that another directory names leaves that entry naming nothing |
| `FileSystem.SizeTest` | sparrow/fs/dir.c:432-449 | the size alone tells an empty directory, and a file of 48 bytes passes for one; both have one block |
| `Format.StopsExactly` | sparrow/fs/fs.c:89-101 | the sizing loop ends iff the free sectors are not 1 modulo 4097 |
| `Format.Fixpoint` | sparrow/fs/fs.c:95-101 | the only value it can end with |
| `Format.Alternates` | sparrow/fs/fs.c:95-101 | otherwise two values alternate |
| `Format.SizeBitmap` | sparrow/fs/fs.c:89-101 | it computes that value, and the bitmap has a bit for each block left |
| `Format.InitBitmap` | sparrow/fs/fs.c:142-156 | a bit is set iff it is past the last block, or is bit 0 of a volume of at least eight blocks |
| `Format.RegionsTile` | sparrow/fs/fs.c:104-120 | every sector of the partition lies in exactly one region and no other sector in any; two sectors, the block bitmap, one sector of inode bitmap, 608 of inode table and the data blocks follow each other |
| `Format.TableSects` | sparrow/fs/fs.c:84-86 | the inode table takes 608 sectors and the inode bitmap one |
| `Format.FormatSound` | sparrow/fs/fs.c:142-201 | the fresh volume is consistent, with an empty root, iff it has at least eight blocks |
| `Format.FormatPersistent` | sparrow/fs/fs.c:171-180 | the fresh inode table holds the root's inode and is blank otherwise, so every inode survives being closed |
| `InodeTable.DecodeBytes` | sparrow/fs/inode.c:52-60 | an inode encoded as bytes decodes to itself |
| `InodeTable.Locate` | sparrow/fs/inode.c:19-42 | sector and offset of an inode, and whether it straddles, all inside the table |
| `InodeTable.StoredSlot` | sparrow/fs/inode.c:62-79 | storing an inode changes its 76 bytes and no other inode's, straddling or not |
| `InodeTable.StoredElsewhere` | sparrow/fs/inode.c:62-79 | no sector outside the table changes |
| `InodeTable.SyncExactly` | sparrow/fs/inode.c:45-80 | it reads back with its memory-only fields reset, and others are untouched, iff the number is below 256 or the bytes were there already |
| `InodeTable.SyncFits` | sparrow/fs/inode.c:63-73 | one sector of buffer is enough iff the slot, number % 256, lies in one sector; it does for numbers below 6 and not for 6 |
| `InodeTable.LostInode` | sparrow/fs/inode.c:47-49 | an inode of number 256 or more, stored for the first time, reads back as inode 0 |
| `InodeTable.DeleteExactly` | sparrow/fs/inode.c:179-205 | the slot of the inode is zeroed and no other |
| `InodeTable.InodeCache.Open` | sparrow/fs/inode.c:83-138 | the one copy, counted up, or a new copy read from the table with count 1; at most one copy per number and counts equal to unclosed opens are kept iff what is read carries the number asked for |
| `InodeTable.InodeCache.Close` | sparrow/fs/inode.c:141-158 | the count goes down and the copy goes with its last user |
| `InodeTable.InodeCache.Sync` | sparrow/fs/inode.c:45-80 | slot number % 256 holds the inode with its memory-only fields cleared, every other slot and every sector outside the table what it held |
| `Paths.PathParse` | sparrow/fs/fs.c:286-306 | the first name and the rest, which together have the names of the path |
| `Paths.PathDepthCnt` | sparrow/fs/fs.c:309-328 | the number of names, iff there is a name or the unset byte is 0 |
| `Paths.ComponentsOfRender` | sparrow/fs/fs.c:286-306 | splitting inverts rendering |
| `Paths.WashedIsClean` | sparrow/shell/buildin_cmd.c:12-61 | a washed path has no ".", ".." or empty piece, and washing is idempotent |
| `Paths.WashPath` | sparrow/shell/buildin_cmd.c:12-61 | editing in place gives the stack normalisation of the names |
| `Paths.MakeClearAbsPath` | sparrow/shell/buildin_cmd.c:64-81 | absolute paths are washed, relative ones appended to the working directory first |
| `DirTree.ResolvePath` | sparrow/fs/fs.c:331-406 | resolving names from a directory leads to the directory whose path is their normal form |
| `DirTree.PathResolves` | sparrow/fs/fs.c:331-406 | every directory is found under its own path |
| `DirTree.SearchResolves` | sparrow/fs/fs.c:331-406 | a directory found by search_file is the one the names resolve to |
| `DirTree.SearchExactly` | sparrow/fs/fs.c:331-406 | a directory is found iff the names lead to one, and nothing iff a name is missing where those before it lead, with the names left over |
| `DirTree.UnlinkExactly` | sparrow/fs/fs.c:641-696 | unlink removes the file the path names iff the search used all its names, else the file that the names used lead to |
| `DirTree.ChdirGetcwd` | sparrow/fs/fs.c:990-1067 | getcwd after chdir gives the washed path, with the exact exception |
| `DirTree.AddTree` | sparrow/fs/fs.c:732-808 | mkdir and file creation keep the tree well formed |
| `DirTree.RemoveTree` | sparrow/fs/fs.c:690-695 | unlink and rmdir of a proper entry keep it |
| `DirTree.RmdirKeepsTree` | sparrow/fs/fs.c:885-922 | rmdir by path keeps it iff the last name is not "." |
| `DirTree.Vfs.SearchFile` | sparrow/fs/fs.c:331-406 | the loop computes the search, regular files and missing names included; it finds a directory iff the names lead to one |
| `DirTree.Vfs.Chdir` | sparrow/fs/fs.c:1047-1067 | it succeeds iff the names lead to a directory, and moves there |
| `DirTree.Vfs.WalkUp` | sparrow/fs/fs.c:1017-1029 | walking up by ".." ends at the root and collects the names of the path, deepest first |
| `DirTree.Vfs.Getcwd` | sparrow/fs/fs.c:990-1044 | turning them round gives the rendered path |
| `DirTree.Vfs.Mkdir` | sparrow/fs/fs.c:699-823 | a directory appears iff exactly the last name was missing, and is found afterwards |
| `Namespace.FindMatches` | sparrow/fs/dir.c:29-95 | looking a name up in the tree is looking it up in the bytes on disk |
| `Namespace.FileModels` | sparrow/fs/file.c:104-197 | the volume after file_create spells out the tree after file creation |
| `Namespace.DirModels` | sparrow/fs/fs.c:732-808 | the same for mkdir |
| `Namespace.OnlyName` | sparrow/fs/fs.c:641-696 | in a volume that spells out a tree, an inode that can be removed is named once |
| `Namespace.RemovedModels` | sparrow/fs/fs.c:641-922 | the volume after unlink or rmdir spells out the tree after removal |
| `Namespace.FormattedModels` | sparrow/fs/fs.c:182-201 | a fresh format spells out the tree that is the root alone, and all its inodes survive being closed |
| `Namespace.Mounted.Create` | sparrow/fs/fs.c:408-480 | under a parent that is the root or reopens, tree and volume stay in step, or neither changes; all inodes still survive being closed iff the new number is below 256 |
| `Namespace.Mounted.Mkdir` | sparrow/fs/fs.c:699-823 | the same; in step afterwards iff mkdir did not leak a block |
| `Namespace.Mounted.Write` | sparrow/fs/file.c:248-469 | a successful write appends to the file and changes no name; one too big changes nothing; after one that finds no block everything is in step iff no block was free, or only the first block of a new file that the table does not have |
| `Namespace.Mounted.Unlink` | sparrow/fs/fs.c:641-696 | refused iff the file is open; otherwise tree and volume stay in step, it hangs iff the entry is alone in an indirect block, or halts iff the file does not reopen |
| `Namespace.Mounted.Rmdir` | sparrow/fs/fs.c:885-922 | one that is open or reopens goes from tree and volume iff empty in the tree; any other from 256 on is refused; below 256 the inode in its slot may go in its place, from the tree too iff the parent names it |
| `Namespace.Mounted.Run` | sparrow/fs/fs.c:408-922 | over every script of create, mkdir, write, unlink and rmdir, with any arguments, volume, table and tree stay in step, each call doing to both exactly what the state before it calls for, up to the first lost block, hang or halt; while new numbers stay below 256 every inode survives being closed and no call halts on a slot or goes astray |
| `Namespace.RunFresh` | sparrow/fs/fs.c:142-922 | from a fresh format of at least eight blocks, what a script leaves when it has run through is a consistent volume that spells out a tree, and while numbers stay below 256 all its inodes survive being closed |
| `Namespace.EmptyThere` | sparrow/fs/dir.c:432-437 | a directory is empty in the tree iff only "." and ".." are on disk |

## Left out

- Boot loader, interrupt entry, thread switching, descriptor tables, port I/O and busy waiting: hardware; an interrupt is an atomic step.
- Console, keyboard map, shell line editing, ELF loading and `execv`.
- The memory copying of fork and the page reclamation of exit; a process that forks or exits changes the process tree only.
- Deadlock freedom of pipes and fairness of the scheduler: the source does not provide them.
- Paging.Pager.MallocPage: the kernel goes on through a null table address when no frame is left for a page table of a user page; the model stops there with `NoTable` and says nothing of what follows. One directory is modelled at a time, and the translation cache is not.
- Heap.Heap.Malloc: does not model the contents of blocks or their zeroing, nor the locks around the pools.
- Heap.Heap.Free: only live pointers are freed, as the source demands of its callers.
- Sync.ReachableSafe: semaphores other than those inside locks are modelled as sleeping and waking; the disk's is in `Ide`.
- Processes.Table.ForkTakePid: with no pid left the code sets a bit far outside the pid bitmap; the model stops there.
- Processes.ReachableSafe: init and kernel threads, which have no parent, do not exit; reading the pid after the page of the process was freed gives the same pid.
- IoQueues.IoQueue.GetChar: like `PutChar`, models the buffer past the wait loop.
- IoQueues.IoQueue.PutChar: models the buffer, past the wait loop; waiting and waking are steps of the machine of all users.
- Ide.Drive.Read: disks are at most 80 MB, as the driver asserts; a drive that fails makes the kernel panic and is not modelled.
- The on-disk copies of the two bitmaps: the copies in memory decide, and `bitmap_sync` is left out.
- What the overrun of the buffer that `file_write` lends to `inode_sync` does to the heap; `InodeTable.SyncFits` says when it happens.
- Operations in a directory that is a blank copy or another inode's, and path searches through one: `Volume.InHand` is a premise of creating and removing, `Volume.NotReopened` and `Volume.BlankDirectory` say what such a directory is, and a script stops there as astray.
- FileSystem.RemoveDir: if the slot holds an inode that is gone, with a block address outside the data area or the root's block, the model stops.
- Crash consistency of the disk.
- Failing `sys_malloc` inside file system calls.
- Files.FileWrite: buffers lie in user space, so that size plus count does not wrap; concurrent writers and the descriptor table are not modelled.
- Directory.InsertEntry: names of exactly 16 characters, whose field has no terminating zero, are excluded; `Sectors.LongNameReads` says what becomes of them. So are second names for an inode, which the kernel never makes.
- FileSystem.CreateFile: the free place in the table of open files is an input; the parent is the root or reopens, as it does in `FileSystem.MakeDir`.
- FileSystem.Unlink: that the inode is named nowhere else is a precondition here; `Namespace.OnlyName` derives it from the tree.
- Format.InitBitmap: the buffer has to reach past the bitmap, as it does for every disk the driver accepts; 32-bit wrap of the sector counts is not modelled.
- InodeTable.InodeCache.Open: copies are values identified by their number, which is what sharing one object amounts to while there is one copy per number; the padding bytes of an inode are not modelled.
- The rejected-writer path of `file_open`, which keeps the inode open, and descriptors shared across fork.
- Paths.WashPath: names of 16 or more characters and paths beyond the 512-byte buffers are excluded.
- DirTree.Vfs.Mkdir: that the inode number is fresh is an input; `FileSystem.MakeDir` allocates it.
