# MOS: a model of its hardest parts, with proofs

MOS is a small teaching kernel for MIPS with a user-level file server. This project models four connected
parts of it and three self-contained routines in Dafny, and proves what they are for.

* **Virtual memory** (`Mmu`, `Pmap`, `Tlb`, `Env`, `Syscall`, `Fork`, `Counts`, `Cow`, `VmRun`, `VmBoot`). Class
  `Machine` holds physical pages as words, reference counts, the free list, the TLB and the ASID bitmap, and
  the kernel's methods update them in place. Ghost fields say what the state means: a flat page table, the
  use of every page, the owner of every ASID. `Cow` is the same machine seen as a state machine over flat
  tables, next to one that copies at fork. `VmRun` and `VmBoot` put the two together: whatever list of operations
  the kernel's methods carry out from boot on, they are, with the values read and the results returned, those same
  operations of the eager machine; pages are conserved, but for the one that a refused sys_mem_alloc may lose; and
  where a run ends is decided by the list and the number of pages.
* **Scheduling and IPC** (`Queue`, `Sched`, `Kernel`). The tail queue with its real links, a specification of
  every kernel entry on values, and the methods that refine it.
* **Pipes** (`PipeClose`, `PipeFifo`). Close detection by comparing two reference counts under preemption, and
  the 32-byte ring preempted between any two accesses, its close checks being those.
* **File system** (`FsModel`, `FsOps`, `FsServer`, `FsFile`, `FsTruncate`, `FsTree`, `FsDir`, `FsCopy`,
  `FsStale`, `FsLaws`, `Image`, `Builder`, `ImageRead`). Class `Server` has the disk, the block cache and the
  bitmap; its invariant is that every block number in a slot is a used block that no other slot holds, one level
  below its file. Deep copy, truncation, creation and removal work on it, each with what it leaves of everything
  else. The image builder is proved to complete
  exactly for the trees that fit, to leave a disk that meets the server's own invariant, and that the booted
  server reads back the tree that went in.
* **Routines** (`Elf`, `Spawn`, `Print`): loading a segment, marshalling arguments, formatting a number.

Kernel entries are atomic, as on the machine (interrupts are off). User programs are preempted between any
two of their steps. A word is a 20-bit page number and 12 flag bits. The disk is an array of blocks; a block
is what was last stored in it (bytes, block numbers or records), and an all-zero block reads as any of them.

Where the code differs from what it says it does, the model follows the code:

* `duppage` does not clear PTE_D of a page that is already PTE_COW (`Cow.ForkIsolatesIff`), so a program can
  make parent and child share a writable page (`VmBoot.DirtyCowShared`).
* `env_alloc` does not look at the result of `env_setup_vm`, and without an ASID it leaves the new directory
  behind (`EnvVmm.EnvAlloc`, `Counts.RefCountsExact`).
* `sys_ipc_try_send` delivers first and then reports -E_INVAL for an unmapped page (`Sched.SendResultIff`,
  `Sched.RefusedYetDelivered`).
* `fork` maps descriptor pages before data pages, which the pipe's counts do not allow for: with
  another environment preempting the fork, a writer is told that a pipe is closed that has a reader
  (`PipeClose.ForkSweepMisleads`; exactly when, `PipeClose.WrongAnswerIff`), and a read or a write can end early
  for it (`PipeFifo.MisledEof`, `PipeFifo.ReadReturns`).
* `pipe_read` goes on until it has all bytes asked for or finds the pipe closed, where its comment has it
  return after at least one; and between its test and its check bytes can arrive that it then reports as the
  end of the file (`PipeFifo.EarlyEof`, `PipeFifo.ShortReadIff`).
* `file_create` does not set a type, and `dir_alloc_file` clears 16 bytes of a record
  (`FsStale.StaleDirectory`; exactly when, `FsStale.RemoveThenCreate`); when no record can be had,
  `file_create` returns -E_NOT_FOUND, not the cause.
* `dir_alloc_file` leaves the directory's size raised when it gets no block for it (`FsDir.GrowDir`).
* `file_truncate` counts the blocks of a directory one too many, so that a directory cut to a size other than 0 keeps
  a block beyond it (`FsTruncate.FileSetSize`, `FsTruncate.DirShrinkBreaks`).
* `elf_load_seg` maps the first page again when the file's part ends inside it and more is to be cleared
  (`ElfLoader.Outcome`); the file's bytes are lost and the last page may be missing (`ElfLoader.Damage`,
  `ElfLoader.DamageAt`).
* `init_stack` says it ends the pointers with a null; it stores the address of the last byte.

## Assumptions

* `pp_ref` (16 bits), `env_runs` and pipe positions (32 bits) do not wrap.
* `env_free` is applied to a runnable environment; `sys_set_env_status` is not used on the caller or on an
  environment blocked in receive; `envid` is valid in `sys_ipc_try_send`; `env_pri` is at least 1.
* File blocks are allocated at numbers up to f_size/BY2BLK, for a directory below it.

## Model

| member | source | states |
|---|---|---|
| VmBoot.NotObservable | MOS源码/user/lib/fork.c:120-163 | in any run from empty address spaces, each operation with its outcome (load and its word, store, system call, fork, exit) is that same operation on the machine that copies every page at fork, one after another: reference counts, TLB and copy-on-write pages cannot be observed |
| VmBoot.FromBoot | MOS源码/kern/pmap.c:88-310 | the kernel from boot with any list of operations: what each yields and what becomes of free pages, tables, environments and mappings is decided, operation by operation, from page count and list on; those that ran are, with their outcomes, that sequence of operations of the machine that copies at fork; a list of plain operations on live environments for which pages and ASIDs suffice runs to its end |
| VmBoot.NoPageGone | MOS源码/kern/pmap.c:127-310 | over any run, free pages, mapped pages, tables, directories and lost pages add up to the same; while no call has returned -E_NO_MEM none is lost |
| VmBoot.Enough | MOS源码/user/lib/fork.c:120-163 | with as many free pages and ASIDs at its start as its operations may need, a run stops only at an operation with another reason to: a refused address, a page not writable, a page that may not be shared |
| VmBoot.PlainRuns | MOS源码/user/lib/fork.c:120-163 | loads and stores where pages are given, allocation of writable pages, unmapping, fork and exit, on live environments, with enough pages and ASIDs, are all carried out |
| VmRun.Run | MOS源码/kern/pmap.c:219-310 | the trace of a list of operations is cut into one segment for each, exactly the operation's own step with its value after the paging it needs; memory at the first cut is the machine's and at each later one what the operation before made of it; the run ends exactly at the first operation that is not ready there or stops there, and every result is the one memory decides |
| VmRun.Perform | MOS源码/kern/tlbex.c:34-81 | one operation: it stops exactly when memory, address or permissions say so, a call returns exactly the error of its case, the steps are exactly demand allocation or the whole copy-on-write handler where needed, then the operation's own step with its value; tables, environments and mappings change exactly as the operation says, a page is lost only by a refused sys_mem_alloc, and none is gone otherwise |
| VmRun.DoStore | MOS源码/kern/tlbex.c:63-81 | a store's steps are one write of that word, preceded by a demand allocation if the page is unmapped and by the whole handler if it is copy-on-write; it stops exactly at an address no page is given for, without memory, or on a page neither writable nor copy-on-write |
| VmRun.HandlerPath | MOS源码/user/lib/fork.c:17-61 | the whole of cow_entry (page at UCOW, 1024 words copied one by one, remap, unmap) is a run of invisible steps |
| Cow.CowRefinesEager | MOS源码/user/lib/fork.c:17-163 | over every run from empty address spaces the same actions with the same observations are a run of the eager machine; each environment reads exactly what it would if fork had copied every page without PTE_LIBRARY |
| Cow.Simulates | MOS源码/user/lib/fork.c:85-163 | every step keeps the invariant (a page mapped PTE_D without PTE_LIBRARY has one mapping machine-wide) and is the eager step of the same action |
| Cow.RunInv | MOS源码/user/lib/fork.c:85-163 | the sharing invariant holds in every state of every run |
| Cow.ForkIsolatesIff | MOS源码/user/lib/fork.c:85-106 | duppage leaves a page that is PTE_COW and still PTE_D as it is: fork keeps every writable private page in one place if and only if the parent has no such page |
| VmBoot.DirtyCowShared | MOS源码/kern/syscall_all.c:148-170 | a run from boot outside that condition, with its states: sys_mem_alloc with PTE_D and PTE_COW, fork, the child stores a word, the parent reads that word |
| VmBoot.DirtyCowNotEager | MOS源码/user/lib/fork.c:85-106 | on the machine that copies at fork the parent reads in that run what it had before |
| ForkLib.Fork | MOS源码/user/lib/fork.c:120-163 | no ASID, no page for the directory, or a child; with a child, fork by system calls, page after page, is the fork step of the copy-on-write machine exactly when the free pages are more than the child's page tables |
| ForkLib.Sweep | MOS源码/user/lib/fork.c:144-152 | the ascending sweep turns the flat table into the forked one exactly when a page is free for each page table the child needs, a number fixed by the parent's table |
| ForkLib.Duppage | MOS源码/user/lib/fork.c:85-106 | exactly the child's and the parent's entry of the page change, to the same frame with the copy-on-write flags; without a page for the child's table only the parent's does; a page below UTEMP is refused |
| ForkLib.CowEntry | MOS源码/user/lib/fork.c:17-61 | refused exactly for pages that are not PTE_COW; fails exactly when no page, or none for the table of UCOW, is to be had, with nothing changed; otherwise the page ends up on a fresh frame with the old contents, writable, and no other mapping or page changes |
| Pmap.Machine.constructor | MOS源码/kern/pmap.c:88-112 | page_init establishes the invariant: pages below the boot mark are out of the allocator, all others free, once each |
| Pmap.Machine.PageAlloc | MOS源码/kern/pmap.c:127-143 | takes the head of the free list, zeroed, or fails with -E_NO_MEM exactly when the list is empty |
| Pmap.Machine.PageFree | MOS源码/kern/pmap.c:150-155 | the page goes back to the head of the free list |
| Pmap.Machine.PageDecref | MOS源码/kern/pmap.c:283-290 | the count goes down by one and the page is freed exactly at zero |
| Pmap.Machine.PgdirWalk | MOS源码/kern/pmap.c:173-202 | finds the entry's address in the two-level table, installing a zeroed table only when asked, without changing any translation; a failure changes no mapping and no count |
| Pmap.Machine.PageLookup | MOS源码/kern/pmap.c:257-280 | the two-level lookup equals lookup in the flat map |
| Pmap.Machine.PageInsert | MOS源码/kern/pmap.c:219-250 | the functional update of the flat map at one page, with counts, free list and TLB kept exact; fails exactly when the page table is missing and no page is free, and then no mapping, count or content has changed |
| Pmap.Machine.PageRemove | MOS源码/kern/pmap.c:294-310 | deletion from the flat map at one page, releasing one reference and flushing that one translation |
| Pmap.Machine.TlbInvalidate | MOS源码/kern/tlb_asm.S:3-28 | tlb_out removes the entry of (asid, page) and no other |
| Pmap.MapRoles | MOS源码/kern/pmap.c:219-250 | counts and roles stay exact when a mapping is added |
| Pmap.RemapRoles | MOS源码/kern/pmap.c:225-234 | inserting the page that is already there changes no count |
| Pmap.UnmapRoles | MOS源码/kern/pmap.c:283-310 | one mapping less: the count drops by one, and the last one returns the page to the free list |
| Pmap.WalkPte | MOS源码/kern/pmap.c:173-280 | an entry of the two-level structure is valid exactly when the flat map has it, and then they agree |
| Pmap.TlbAfterFlush | MOS源码/kern/pmap.c:243-247 | after the flush of (asid, page) the TLB stays coherent whatever that entry becomes |
| Tlb.Translate | MOS源码/kern/tlbex.c:34-49 | hit, or refill with any evictions: the translation used is always the environment's current entry; a hit leaves the TLB as it is, and after a refill the entry is in it |
| Tlb.TlbAdd | MOS源码/kern/tlbex.c:34-49 | a refill after arbitrary eviction keeps every entry of a live ASID equal to its environment's |
| Tlb.Window | MOS源码/kern/tlbex.c:34-49 | a read through the window on the page tables: hit, or refill by the same walk with any evictions, it finds the environment's own table, or its directory, and panics exactly where there is no table |
| Tlb.ReadVpd | MOS源码/user/lib/fork.c:144-152 | vpd[i] as a program reads it says whether the environment has that table, and which |
| Tlb.ReadVpt | MOS源码/user/lib/fork.c:144-152 | vpt[vpn] as a program reads it is the environment's current entry, wherever it has the table |
| Tlb.DoTlbRefill | MOS源码/kern/tlbex.c:34-49 | a mapped page is found with nothing changed; an unmapped one is demand-allocated exactly once, zeroed and writable; the kernel panics exactly at a forbidden address or when page and table cannot both be had |
| Tlb.PassiveAlloc | MOS源码/kern/tlbex.c:4-29 | panics if and only if the address is in a forbidden range or the free list is too short for the page and, if missing, its table; otherwise maps one zeroed page |
| Tlb.Load | MOS源码/kern/tlbex.c:34-49 | a load reads the word of the page mapped at that address, zero for a page allocated on demand; it panics exactly when that page can not be allocated |
| Tlb.Store | MOS源码/kern/tlbex.c:63-81 | a store changes one word of the mapped page if it is PTE_D and raises TLB Mod otherwise; it panics exactly when a page on demand can not be allocated |
| EnvVmm.EnvAlloc | MOS源码/kern/env.c:198-289 | an error exactly when there is no ASID or no page for the directory; else a new environment without mappings or tables, its directory entered in itself for the window, its ASID unused before and nothing in the TLB under it; without an ASID the directory just set up is left behind, counted and never used |
| EnvVmm.NewAsid | MOS源码/kern/env.c:32-46 | giving out a free ASID keeps the TLB coherent: a recycled ASID sees none of its predecessor's pages |
| EnvVmm.FreshAsid | MOS源码/kern/env.c:384-423 | nothing at all is in the TLB under an ASID that is not in use, whether of a page, a table or a directory |
| EnvVmm.FreeAsid | MOS源码/kern/env.c:32-61 | an ASID is free exactly when there are fewer than NASID environments |
| EnvVmm.RetireAsid | MOS源码/kern/env.c:57-61 | taking back an ASID leaves the other environments' translations coherent |
| EnvVmm.EnvFree | MOS源码/kern/env.c:384-423 | releases every mapping, table and the directory of the environment: each page is counted less by exactly what the environment held of it, the free list gains exactly the pages nobody else held, all others' mappings are as they were, and nothing is left in the TLB under its ASID, neither of a page nor of the window on its tables and directory |
| EnvVmm.FreeTable | MOS源码/kern/env.c:390-408 | one page table with all its mappings is released: each page is counted less by exactly the entries dropped, the table's page and those nobody else maps are free, and neither its pages nor the window on it are in the TLB |
| SyscallMem.SysMemAlloc | MOS源码/kern/syscall_all.c:148-170 | 0, -E_INVAL and -E_NO_MEM each exactly in its case by address and free list; on success one fresh zeroed page at the address and every other page's contents kept; refused for memory, no mapping, table or count changes and the last free page, if there was one, is lost |
| SyscallMem.SysMemMap | MOS源码/kern/syscall_all.c:186-215 | 0, -E_INVAL and -E_NO_MEM each exactly in its case; on success the flat map is updated at one place and no page's contents change |
| SyscallMem.SysMemUnmap | MOS源码/kern/syscall_all.c:227-243 | deletion at one place, no page's contents change |
| Counts.RefCountsExact | MOS源码/kern/pmap.c:127-310 | pp_ref of every page is the number of user entries, directory entries and directories that name it, and one more for a boot page or a directory that env_alloc left behind; no other operation makes or ends either use |
| Counts.PagesConserved | MOS源码/kern/pmap.c:127-310 | every page is in one place: the lengths of free list, mapped pages, tables, directories, lost pages and boot pages add up to all of memory |
| Counts.FreePagesUnreferenced | MOS源码/kern/pmap.c:127-155 | free pages are listed once, count zero and are named by nothing; an unnamed page is free, or lost by a failed system call or a failed env_alloc |
| Counts.ReleasedExactly | MOS源码/kern/env.c:384-423 | what is left of the references to a page when an environment's mappings, tables and directory go is what others held |
| Counts.GivesBack | MOS源码/kern/pmap.c:150-155 | whatever only drops references counts every page less by exactly what was dropped, and the free list gains exactly the pages whose count reached zero |
| Counts.PageRoundTrip | MOS源码/include/pmap.h:28-41 | pa2page undoes page2pa for every offset inside the page |
| Counts.Va2PaIsLookup | MOS源码/include/pmap.h:47-59 | va2pa's walk is lookup in the flat map |
| Queue.TailQueue.InsertTail | MOS源码/include/queue.h:203-209 | the pointer splicing appends to the represented sequence and keeps every link well formed |
| Queue.TailQueue.InsertHead | MOS源码/include/queue.h:193-201 | prepends, as above |
| Queue.TailQueue.Remove | MOS源码/include/queue.h:229-236 | removes the element wherever it is; applied to an element that its neighbours already bypass, it changes nothing |
| Queue.TailQueue.RemoveTwice | MOS源码/include/queue.h:229-236 | TAILQ_REMOVE repeated with no queue change between is idempotent |
| Queue.CutLinked | MOS源码/include/queue.h:229-236 | the links after a removal represent the sequence without the element |
| Sched.ScheduleInv | MOS源码/kern/sched.c:17-56 | schedule panics exactly on an empty queue and otherwise re-establishes that the queue holds the RUNNABLE environments once each with the current one at its head |
| Sched.ScheduleSays | MOS源码/kern/sched.c:36-54 | a yield, and a tick that uses up the count, put the head behind all others and run the next with its priority as its count; any other tick takes one from the count and changes nothing else |
| Sched.RecvSays | MOS源码/kern/syscall_all.c:493-513 | receiving blocks the caller, takes it out of the queue and runs the next, and panics exactly when there is no other |
| Sched.DestroySays | MOS源码/kern/env.c:428-438 | the destroyed environment is free and out of the queue; only if it was the current one does the next run |
| Sched.OpInv | MOS源码/kern/env.c:18-19 | every kernel entry keeps the run-queue invariant |
| Sched.RunInv | MOS源码/kern/env.c:18-19 | the run-queue invariant holds after every kernel entry of every run |
| Sched.WaitStep | MOS源码/kern/sched.c:36-54 | the slices ahead of a queued environment never grow, and shrink at every call of schedule |
| Sched.BoundedWaiting | MOS源码/kern/sched.c:36-54 | an environment that stays queued reaches the head within the head's remaining count plus the priorities of those between, counted in calls of schedule |
| Sched.IpcFrame | MOS源码/kern/syscall_all.c:531-572 | only a send that finds the target waiting touches its message; no delivered message is overwritten before the next receive |
| Sched.IpcRendezvous | MOS源码/user/lib/ipc.c:24-39 | when a receiver runs again, exactly one send since it blocked has delivered, and the value, sender and permission it reads are that send's |
| Sched.SendResultIff | MOS源码/kern/syscall_all.c:551-570 | the result is 0 exactly when the target was waiting and the page argument is good, while the message is delivered exactly when the target was waiting and srcva legal: with an unmapped srcva the sender gets -E_INVAL for a message that arrived |
| Sched.RefusedYetDelivered | MOS源码/kern/syscall_all.c:531-572 | a run in which the sender is told -E_INVAL and the receiver is runnable with its value |
| Kernel.Scheduler.Schedule | MOS源码/kern/sched.c:17-56 | the method on linked queue and table computes the specification's schedule, including the second removal after sys_ipc_recv |
| Kernel.Scheduler.SysYield | MOS源码/kern/syscall_all.c:69-73 | with another environment in the queue the caller goes to its end and the next runs with its own priority as count; alone, the caller goes on with a full count |
| Kernel.Scheduler.TimerInterrupt | MOS源码/kern/sched.c:36-54 | the last slice: as a yield; any other: the same environment, one slice less |
| Kernel.Scheduler.SysIpcRecv | MOS源码/kern/syscall_all.c:493-513 | a legal address: the caller is blocked, marked as receiving and out of the queue and the next runs; an illegal one: -E_INVAL and nothing changed |
| Kernel.Scheduler.SysIpcTrySend | MOS源码/kern/syscall_all.c:531-572 | -E_INVAL for an illegal srcva and -E_IPC_NOT_RECV for a target that does not wait, exactly then and with nothing changed; otherwise the target has value, sender and permission, is runnable and last in the queue, and the result is -E_INVAL exactly for an unmapped page, else 0 |
| Kernel.Scheduler.SysExofork | MOS源码/kern/syscall_all.c:385-409 | the child has the caller's priority, is not runnable and not in the queue; nothing else changes |
| Kernel.Scheduler.SysSetEnvStatus | MOS源码/kern/syscall_all.c:423-446 | the status is set and the environment joins the end of the queue, or leaves it, accordingly; any other value is refused with nothing changed |
| Kernel.Scheduler.EnvDestroy | MOS源码/kern/env.c:428-438 | the environment is free and out of the queue; the next runs exactly when it was the current one, and otherwise nothing else changes |
| Kernel.Scheduler.EnvCreate | MOS源码/kern/env.c:364-379 | the new environment is runnable with the priority given, and at the head of the queue |
| PipeClose.StepInv | MOS源码/user/lib/pipe.c:96-121 | no step lets a slot have a descriptor without its data page, but in a fork's child between the two; nor a count read earlier in the same uninterrupted stretch go stale; fork is one step for each of its pages |
| PipeClose.AnswerIff | MOS源码/user/lib/pipe.c:96-121 | a completed check answers closed if and only if the opposite end's slots and those half-way through close or dup are as many as those a fork has between descriptor and data page; with none of these, if and only if the opposite end is gone and nobody is half-way |
| PipeClose.ClosedForever | MOS源码/user/lib/pipe.c:96-121 | once closed is answered, no descriptor of the opposite end is mapped in any later state of any run, if and only if half-closed slots and those a fork has half-made were equally many |
| PipeClose.ClosedForeverNoFork | MOS源码/user/lib/pipe.c:96-121 | with no fork under way, closed is closed for ever |
| PipeClose.EndStaysGone | MOS源码/user/lib/fd.c:94-149 | no step reopens an end that nobody has open |
| PipeClose.DupOpens | MOS源码/user/lib/fd.c:116-149 | over any run, a dup that returns has the new slot on the old one's end, with its data page, exactly if the old one had them, whatever others do meanwhile; a dup of a slot onto itself leaves it closed |
| PipeClose.CloseCloses | MOS源码/user/lib/fd.c:94-105 | over any run, a close that returns leaves neither the descriptor nor its data page |
| PipeClose.ForkCopies | MOS源码/user/lib/fork.c:144-152 | over any run, when a fork ends the child has exactly the descriptors and data pages the parent has |
| PipeClose.NeverStuck | MOS源码/user/lib/fd.c:94-149 | an environment inside close, dup, fork or a close check can always take its next step |
| PipeClose.EqualCounts | MOS源码/user/lib/pipe.c:111-120 | the two counts agree exactly when the opposite end's slots and the half-closed ones balance those still waiting for their data page |
| PipeClose.ForkSweepMisleads | MOS源码/user/lib/fork.c:144-152 | a run of seven steps from a state with everything mapped and nobody half-way: fork maps two descriptor pages, another environment preempts it, asks and is told closed with a reader open |
| PipeClose.WrongAnswerIff | MOS源码/user/lib/fork.c:144-152 | over all runs: closed is answered with the opposite end open exactly when the forks under way have as many slots between descriptor and data page as the opposite end has open and others left half-closed; then some fork's sweep is past a descriptor and not past its data page |
| PipeFifo.Fifo | MOS源码/user/lib/pipe.c:136-224 | over every interleaving at the granularity of test, buffer access, increment and check, with other environments closing, duplicating and forking between, at most 32 bytes are in flight and what was read is a prefix of what was written |
| PipeFifo.StepInv | MOS源码/user/lib/pipe.c:136-224 | every single step keeps the ring's and both loops' invariants |
| PipeFifo.NeverStuck | MOS源码/user/lib/pipe.c:154-224 | neither loop ever gets stuck, whatever the other end and the other holders do |
| PipeFifo.ReadReturns | MOS源码/user/lib/pipe.c:136-172 | a read returns the number of bytes delivered since it began: all it asked for, or fewer exactly when its close check says closed, which is wrong exactly when the forks under way have as many slots waiting for their data page as there are writers and half-closed slots; with no such slot the writers have closed; begun after that it returns exactly the rest |
| PipeFifo.WriteReturns | MOS源码/user/lib/pipe.c:185-224 | a write appends exactly the first bytes it reports: all of them, or fewer exactly when its close check says closed, which is wrong exactly in the same case; begun after the readers had closed it reports what room there was, up to what it has |
| PipeFifo.TestSays | MOS源码/user/lib/pipe.c:154-205 | a read's test finds the ring empty exactly when all that was written has been delivered, a write's finds it full exactly when 32 bytes have not |
| PipeFifo.LateRead | MOS源码/user/lib/pipe.c:136-172 | a read begun with no writer left returns the number of bytes in flight, or what it asked for if that is less |
| PipeFifo.LateWrite | MOS源码/user/lib/pipe.c:185-224 | a write begun with no reader left returns the room there is in 32 bytes, or the number of its bytes if that is less |
| PipeFifo.ShortReadIff | MOS源码/user/lib/pipe.c:155-168 | a read cut short by closed leaves nothing behind if and only if no byte was counted between its last test and its check |
| PipeFifo.ShortWriteIff | MOS源码/user/lib/pipe.c:185-224 | a write cut short by closed leaves the ring full if and only if no byte was taken between its last test and its check |
| PipeFifo.EarlyEof | MOS源码/user/lib/pipe.c:155-168 | a run in which pipe_read returns 0 with a byte in the buffer, against its documented promise |
| PipeFifo.MisledEof | MOS源码/user/lib/pipe.c:155-168 | a run in which pipe_read returns 0 while a writer has the pipe open, another holder of the read end being half-way through fork |
| PipeFifo.CheckIs | MOS源码/user/lib/pipe.c:96-121 | the close check used here is the one PipeClose proves for the check under preemption |
| PipeFifo.Pipe.Read | MOS源码/user/lib/pipe.c:136-172 | the loop with no writer left: takes the oldest bytes, as many as asked for or there are |
| PipeFifo.Pipe.Write | MOS源码/user/lib/pipe.c:185-224 | the loop with no reader left: appends what fits |
| FsOps.Unique | MOS源码/fs/fs.c:367-481 | no block is in two slots (direct, indirect pointer or indirect entry) |
| FsOps.SameCell | MOS源码/fs/fs.c:367-402 | no block belongs to two file blocks, through the same or different indirect blocks |
| FsOps.AllocInv | MOS源码/fs/fs.c:211-244 | taking a free block keeps block ownership and changes no file |
| FsOps.FillInv | MOS源码/fs/fs.c:415-457 | a fresh block into an empty slot, or a slot emptied, keeps block ownership, types and sizes |
| FsOps.IndInv | MOS源码/fs/fs.c:379-393 | giving a file an indirect block, or taking an empty one away, keeps the invariant and every file block |
| FsOps.FreeInv | MOS源码/fs/fs.c:190-203 | freeing a block no slot holds keeps the invariant; the records it held read as blank |
| FsOps.PutDataInv | MOS源码/fs/fs.c:748-749 | writing a regular file's block changes that file block of that file only |
| FsOps.HeadInv | MOS源码/fs/fs.c:732-734 | a new name, size or type keeps the invariant when nothing lies beyond the size |
| FsServer.Server.ReadBlock | MOS源码/fs/fs.c:93-133 | called only on existing blocks in use, so neither panic is reached, and no contents change |
| FsServer.Server.AllocBlockNum | MOS源码/fs/fs.c:211-224 | the lowest free block, or -E_NO_DISK exactly when the bitmap is full |
| FsServer.Server.AllocBlock | MOS源码/fs/fs.c:228-244 | the block handed out was free, is in no slot and reads all zero |
| FsServer.Server.FreeBlock | MOS源码/fs/fs.c:190-203 | marks the block free and zeroes it in cache and on disk; other numbers change nothing |
| FsServer.Server.MapBlock | MOS源码/fs/fs.c:137-149 | a block not cached before reads as zeros after |
| FsServer.Server.CopyBlock | MOS源码/fs/fs.c:748-749 | memcpy of one cached block over another |
| FsFile.FileBlockWalk | MOS源码/fs/fs.c:367-402 | the slot of a file block, with each error in exactly its case; at most an empty indirect block is new |
| FsFile.FileMapBlock | MOS源码/fs/fs.c:415-439 | the block of a file block; nothing changes when it is there; -E_NO_DISK only with the disk full |
| FsFile.FileGetBlock | MOS源码/fs/fs.c:466-481 | the block is there and cached, at most one hole having been filled with a zero block |
| FsTruncate.FileClearBlock | MOS源码/fs/fs.c:443-457 | frees exactly the block of that file block and empties its slot, or changes nothing; -E_INVAL exactly past the largest block number, -E_NOT_FOUND exactly without the indirect block that would have the slot |
| FsTruncate.Commute | MOS源码/fs/fs.c:451-454 | freeing the block before emptying its slot leaves the same state as the other order |
| FsTruncate.NotInside | MOS源码/fs/fs.c:443-457 | no record lies in a block its own file holds, so clearing never overwrites the record in use |
| FsTruncate.FileTruncate | MOS源码/fs/fs.c:933-958 | frees exactly the blocks at or past the new block count and the indirect block when ten are enough; all freed blocks are zero; the first blocks, names, types and all other files are kept; the state stays a good one if and only if the file is regular, or cut to nothing, or a directory cut to whole blocks before a hole |
| FsTruncate.FileSetSize | MOS源码/fs/fs.c:962-974 | truncation when shrinking, only the size otherwise, for any file and size; the state stays a good one if and only if the file is regular or the directory's size is whole blocks, not less than before unless a hole follows |
| FsTruncate.DirShrinkBreaks | MOS源码/fs/fs.c:933-974 | a directory cut to a size between 0 and its own keeps a block beyond its size, or a size that is no number of blocks, whatever the owners |
| FsTree.TreeGrow | MOS源码/fs/fs.c:727-763 | a tree that does not contain the place being written reads the same after any growth elsewhere |
| FsTree.GrowThen | MOS源码/fs/fs.c:727-763 | growth at one record followed by growth inside it is growth at the first: every other record keeps name, size, type and contents, only holes are filled, and every block taken is in a slot |
| FsDir.DirLookup | MOS源码/fs/fs.c:502-533 | the first record with the name, or none anywhere in the directory; any other error only past the largest size, or at a hole with the disk full |
| FsDir.DirAllocFile | MOS源码/fs/fs.c:538-574 | the first record without a name, or one in a new block, empty and without blocks but with its old type; the directory keeps name, type, blocks and every record's name and is at most a block larger, no other file changes, and no block is taken that no slot holds; when the record's block is there nothing else changes; -E_INVAL only for a directory of the largest size, -E_NO_DISK only with the disk full |
| FsDir.FileCreate | MOS源码/fs/fs.c:899-919 | -E_FILE_EXISTS exactly when the name is in the directory, every other error with its cause; otherwise the first empty record, of whatever type it last had, has the name, and it succeeds whenever the name is new and there is a record, or blocks for one; the directory has that one name more, or on a failure none, and every other record in use keeps name, size, type and contents |
| FsDir.FileRemove | MOS源码/fs/fs.c:1099-1112 | exactly the file's blocks become free and zero, its record empty but for its type, every record elsewhere untouched |
| FsStale.RemoveThenCreate | MOS源码/fs/fs.c:899-919 | the removal followed by the creation, each exact, with every record that is not concerned as before; the new file lands on the removed record if and only if no record before that one was empty, and then it has the removed file's type |
| FsStale.StaleDirectory | MOS源码/fs/fs.c:899-919 | three calls with the states between them: mkdir a, remove that record, create b in it, in any directory without holes that has a record to spare: b is a directory |
| FsStale.MakeDir | MOS源码/fs/fs.c:625-649 | mkdir of one name: with the name there, 0 or -E_NOT_FOUND as its first record is a directory or a file, and nothing made; otherwise the first empty record becomes an empty directory; it makes one whenever the name is new and there is a record, or blocks for one; made or not, every other record in use, and every other name in the directory, is as before |
| FsCopy.CopyDeep | MOS源码/fs/fs.c:727-763 | on a clean destination outside the source: the copy is the equal tree made only of records and blocks that were free, or the disk is full; it succeeds whenever the free blocks exceed four for each block of the tree |
| FsCopy.Copy | MOS源码/fs/fs.c:767-787 | copying into a directory that is not inside the source: -1 exactly when the name is there, when the directory can be searched through; otherwise the directory has a new record with a tree equal to the source's, which reads as before; it completes whenever the free blocks suffice for the tree and the directory's growth; each failure has its cause. Complete or not, the directory keeps its name, type, blocks and the names of its records, the new one apart, and every other record in use keeps name, size, type and contents |
| FsCopy.CopyRecord | MOS源码/fs/fs.c:752-758 | one named record: an empty record found in place, copied recursively, the earlier copies undisturbed |
| FsCopy.AfterKidPart | MOS源码/fs/fs.c:751-759 | after a child's copy the destination's named records are the copies of the source's named records so far, in order, holes compacted |
| FsLaws.SourceUnchanged | MOS源码/fs/fs.c:727-763 | complete or not, a copy leaves every tree that does not contain the destination as it was |
| FsLaws.EqualTrees | MOS源码/fs/fs.c:822-882 | two equal trees cannot be told apart: a path leads to a record in both or in neither, and the two have one name, one size, one type and, for files, the same blocks |
| FsLaws.CopyReads | MOS源码/fs/fs.c:727-763 | after a complete copy every path under the destination leads to what it led to under the source, with the same contents |
| FsLaws.Disjoint | MOS源码/fs/fs.c:727-763 | after a complete copy no block is in both trees |
| FsLaws.EveryTreeWhole | MOS源码/fs/fs.c:727-763 | directories are never cyclic, so every tree has a height for the recursion to end on |
| Image.LinkedInv | MOS源码/tools/fsformat.c:172-184 | a block taken and linked, with its indirect block if needed, keeps the server's own invariant and is found by the server's walk |
| Image.LinkData | MOS源码/tools/fsformat.c:269-271 | filling the block before linking it, as the builder does, gives the same disk as after |
| Image.ReadBack | MOS源码/tools/fsformat.c:244-273 | byte k of a written file reads as byte k of the input |
| Image.HostKept | MOS源码/tools/fsformat.c:282-309 | a host's file or directory, with all that is under it, stays in the image whatever is written to other directories later |
| ImageBuilder.Builder.constructor | MOS源码/tools/fsformat.c:105-133 | the empty image is a valid disk |
| ImageBuilder.Builder.SaveBlockLink | MOS源码/tools/fsformat.c:172-184 | links the block taken last, or stops at a file too large or the end of the disk |
| ImageBuilder.MakeLinkBlock | MOS源码/tools/fsformat.c:187-192 | stops exactly at the largest directory or without blocks; otherwise the directory has one more zero block and BY2BLK more size, everything written before kept |
| ImageBuilder.CreateFile | MOS源码/tools/fsformat.c:207-241 | the first unused record of the directory, in an old or a new block; stops exactly when it needs a block that is not to be had |
| ImageBuilder.WriteFile | MOS源码/tools/fsformat.c:244-273 | completes if and only if the file's blocks fit on the disk and in a record; then the directory has a regular file with that name and exactly those bytes, everything written before kept |
| ImageBuilder.WriteDirectory | MOS源码/tools/fsformat.c:282-309 | completes if and only if all that is under the host's directory fits; then the directory has, recursively, all its files and their bytes |
| ImageBuilder.Build | MOS源码/tools/fsformat.c:311-340 | the whole program: it completes if and only if the arguments' block count fits the disk and no file or directory exceeds a record; the root then has exactly the arguments, in order |
| ImageBuilder.FlushBitmap | MOS源码/tools/fsformat.c:142-148 | a block's bit is set exactly when nextbno <= block < NBLOCK |
| ImageBuilder.LinkedOnce | MOS源码/tools/fsformat.c:136-192 | of the blocks from 3 on, exactly those before nextbno are in a slot, each in exactly one |
| ImageBuilder.Boot | MOS源码/fs/fs.c:348-352 | a server that starts from the image is in a valid state with the same contents |
| ImageBuilder.ReadFile | MOS源码/fs/fs.c:415-439 | for every file block the server's walk returns the block with the bytes that were written |
| ImageRead.BuildAndRead | MOS源码/tools/fsformat.c:311-340 | build, boot, read everything back through the server's cache: the host's tree, names and bytes, comes out as it went in, for every tree that fits |
| ImageRead.ReadHost | MOS源码/fs/fs.c:415-481 | every file and directory of the image, read block by block through the server, is the host's, and reading changes no contents |
| ImageRead.StaleOnImage | MOS源码/fs/fs.c:899-919 | the same three calls on the booted image of any files, with the states from the image on: the new file is a directory |
| ElfLoader.Space.LoadSeg | MOS源码/lib/elfloader.c:25-59 | succeeds if and only if the free pages cover the pages it maps and the tables these need, and takes exactly those; the segment is then loaded exactly (file bytes, then zeros, each page mapped once) if and only if the address is page-aligned, or the file's part reaches the end of its first page, or there is nothing to clear after it; refused, it has mapped the first pages of the list with their tables, and no other page is touched |
| ElfLoader.CoverNew | MOS源码/kern/env.c:303-322 | for pages not mapped before, each once, they are covered exactly when as many are free as there are pages and missing tables |
| ElfLoader.Space.MapPage | MOS源码/kern/env.c:303-322 | a fresh zeroed page with the bytes at the offset replaces what was mapped, whose page goes back; it fails exactly when there is no page for it or for the page table it needs |
| ElfLoader.Outcome | MOS源码/lib/elfloader.c:44-57 | the segment is exact if and only if the guard holds: outside it the first page is mapped a second time |
| ElfLoader.Damage | MOS源码/lib/elfloader.c:44-57 | outside the guard: every byte of the file reads as zero, and the last page is left as it was exactly when the zeros alone take one page less than the segment |
| ElfLoader.DamageAt | MOS源码/lib/elfloader.c:25-59 | 50 bytes of file at 4000, 200 in memory: page 0 is mapped twice, page 1 never |
| SpawnStack.InitStack | MOS源码/user/lib/spawn.c:8-86 | whenever the arguments fit and the three calls succeed, argc and every argument read back through the child's stack pointer are the parent's; otherwise the first error; the word after the pointers is the address of the last byte of the page, never null |
| SpawnStack.Decodes | MOS源码/user/lib/entry.S:5-6 | a page laid out so decodes to the argument list |
| PrintNumber.PrintNum | MOS源码/lib/print.c:201-274 | the in-place digits, padding and reversal produce the specified layout of sign, padding and digits |
| PrintNumber.Layout | MOS源码/lib/print.c:239-271 | where in the output the digits, the sign and the padding are, position by position, for either alignment and either padding |
| PrintNumber.OneNumeral | MOS源码/lib/print.c:214-228 | the digits are the one numeral of that number: digits of the base, letters in the case asked for, and no zero in front |
| PrintNumber.RoundTrip | MOS源码/lib/print.c:201-274 | stripping padding and parsing the output gives back sign flag and number, for every base, width and alignment |
| PrintNumber.RenderLength | MOS源码/lib/print.c:234-238 | the output is as long as the width, or as sign and digits need |
| PrintNumber.FewDigits | MOS源码/lib/print.c:214-228 | a 32-bit number never overruns the 70 spare characters of the buffer |

## Left out

- VmRun.Perform: sharing a page without PTE_LIBRARY by an explicit sys_mem_map or through IPC is not in the copy-on-write theorem; such mappings are covered by the reference-count and TLB results only.
- VmRun.Run: a run ends where the kernel panics, where fork or the handler fails, or where an operation cannot start (VmRun.Ready); nothing is said about what follows. Asking for a page that is copy-on-write from the start is such an operation; VmBoot.DirtyCowShared has the run.
- VmRun.DoStore: do_tlb_mod's saving of the trap frame on the exception stack is left out; it is a store to a page the programs do not use.
- ForkLib.Fork: fork is one step of the copy-on-write machine; other programs running during the sweep are considered only for pipes, in PipeClose. What a fork that runs out of pages leaves behind is pinned page by page in ForkLib.Duppage only.
- SyscallMem.SysMemAlloc: when page_insert fails the allocated page is lost, as in the source; such pages have the use Limbo and are the exception in Counts.FreePagesUnreferenced.
- Pmap.Machine.PageAlloc: the free list is a sequence, so the LIST macros' links are not modelled; the tail queue's are.
- EnvVmm.EnvAlloc: with no page for the directory the source goes on with whatever directory the slot last had; the model stops there with nothing changed.
- Tlb.Translate: translations of the kernel's own segments and the global bit are not modelled, nor the UPAGES and UENVS windows; the UVPT window is, for the tables of user addresses and for the directory (Tlb.Window).
- Sched.IpcRendezvous: what is received is value, sender and permission; the page that comes with a message is a mapping like any other and not followed here.
- Kernel.Scheduler.EnvCreate: loading the program's image is the subject of ElfLoader, not of the scheduler.
- PipeClose.ClosedForever: opening a new pipe is not a step; a pipe's slots are those of its three pages.
- PipeFifo.Fifo: one reader and one writer, other holders of either end neither reading nor writing; two readers or two writers lose increments in the source as well.
- FsServer.Server.AllocBlock: map_block's missing return value on its second path is taken as 0.
- FsDir.FileCreate: paths are not parsed; the directory and the name are given.
- FsDir.FileRemove: the questions put to the user before removal are left out; a removed directory's children keep their blocks, so that every used block is reachable is not true; what is claimed is that no operation that allocates takes a block that no slot then holds.
- FsCopy.CopyDeep: the destination is a record without blocks, so copying over an existing file is not covered; the copy of a tree into itself does not end in the source and is excluded.
- FsCopy.Copy: the source goes on with an uninitialised record when dir_alloc_file fails; here the copy ends with the error. Overwriting an existing file or directory in place is not modelled.
- FsTruncate.FileSetSize: flushing the parent directory is left out; what the server does after a size that leaves no good state is not followed.
- FsStale.MakeDir: one name in a directory; the walk along a path and the making of missing directories on the way are left out.
- ImageBuilder.WriteFile: what is on the disk when the build stops is not said; the byte order of words on the disk and block type tags are left out.
- ElfLoader.Space.LoadSeg: addresses do not wrap around 2^32; spawn_mapper has the same effect as load_icode_mapper and is not modelled apart.
- SpawnStack.InitStack: words are laid out little-endian; parent and child agree on the order in any case.
- PrintNumber.PrintNum: scanning of the format string, print_char and print_str are left out.
- Device input and output, the clock, the shell and its commands, environment variables, prompts and path handling are left out.
- move is left out: it leaves block numbers in the record it abandons, so block ownership does not survive it.
- Crash consistency and the freshness of the bitmap on the disk are left out: free_block does not write the bitmap, and directory edits set no dirty bit.
- LIST_INSERT_AFTER at a list's end, string.c, readelf, bintoc and the file server's request dispatch are left out.
