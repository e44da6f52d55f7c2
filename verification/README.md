# A verified model of the MOS kernel, its user library and its file server

MOS is a small MIPS R3000 teaching kernel. This project models its hard parts in Dafny and
proves what they promise: over all inputs, all runs and all interleavings. To check every file,
run `dafny verify dfyconfig.toml` in this directory.

## What is modelled

**Virtual memory** (`Mmu`, `Vm`, `VmRefs`, `VmFrames`, `VmOps`, `VmSpaces`, `VmTlb`, `VmStores`,
`VmCalls`, `VmEffects`, `VmOrphans`, `VmBoot`, `VmReached`, `VmKernel`; `Errors` has the error codes). Physical
memory is a map from page and word index to page-table entries, with `pp_ref` counts, the free list, the page directory of every ASID, and the TLB. `Vm` gives each
kernel routine as a function on that state and `VmKernel` has the routine itself, loops and
assignments included, proved against it. The invariant `VmRefs.Inv` says that counts are
references, that the free list is exactly the unused pages, that no page table is shared, that
the shared windows and the self-map stand, and that the TLB is coherent. `VmCalls.Reachable`
says so for every run from boot whose steps meet conditions that are each proved exact, and
`VmReached` has runs from boot that break them. `VmBoot` derives the boot state from what page_init
leaves.

**Scheduler and IPC** (`Queue`, `FreeList`, `Bitmap`, `Sched`, `SchedInv`, `SchedRuns`,
`SchedCalls`, `SchedTurns`, `SchedIpc`, `SchedKernel`). Queues are the pointer-to-pointer structures of `queue.h`, with
`Link = Null | Head | NextOf(elem)` for a pointer to a link word; `env_sched_list` and `env_free_list`
are such structures in `SchedKernel`, while `page_free_list` is a sequence in
`VmKernel`. `SchedInv.Running` is the invariant of `kern/env.c:18` together with the current environment at the head; it is proved for every kernel
entry, and from it bounded waiting, exact slices and one message per receive. `SchedCalls` gives the
answer of each call with its condition, `SchedTurns` what env_runs counts. `Machine` runs memory and
scheduler together: an environment has an address space exactly while it has an ASID.

**Copy-on-write fork** (`Cow`, `CowRel`, `CowPages`, `CowHandler`, `CowDup`, `CowSim`, `CowFork`,
`CowReached`). Each system call, load, store and byte of `memcpy` is one step of one of many environments. `CowSim.ForkRefinesCopy` is a forward simulation by
a machine whose fork copies every page at once.

**Pipes** (`PipeFifo`, `PipeReturns`, `PipeClosed`, `PipeEnds`, `PipeRuns`). One step is one access to shared memory or one system
call. The ring buffer has 32-bit wrapping positions. For the close test, the mapped descriptor
and data slots of all environments are the state, and a page's reference count is the number of
slots that map it, as the memory part proves. `PipeRuns` runs this on the scheduler, whose env_runs
the test compares.

**File system** (`FsBlocks`, `FsOwners`, `FsMap`, `FsFiles`, `FsSizes`, `FsDirs`, `FsEntries`, `FsRuns`,
`FsReads`, `FsPages`, `FsServer` for the server; `FsFormat`, `FsCapacity`, `FsWriter` for the image writer). The state is the bitmap, every struct File
with the block it lies in, the cache and the disk. `FsDirs.Sound` says that the in-use bits are the
reserved blocks and the blocks that some slot names, that no block is named twice, and that every struct
File can be reached from the root directory. `FsRuns.StepKeepsIff` gives, request by
request, the exact condition under which this survives. The image writer is proved to produce such a
state and the server to find every block in it (`FsFormat.FileIsFound`).

**Loader and initial stack** (`ElfLoad`, `InitStack`). One segment loaded page by page, and the page
with the arguments of a spawned program, as the child reads it.

Kernel calls are atomic because interrupts are masked in the kernel. Environments are named by
their ASID in the memory part and by their index in the scheduler part. What the hardware or a
caller decides is a parameter: which TLB entries a fill evicts, how environments interleave,
what the memory system calls answer to `init_stack`, and how many pages the kernel has left for
the file server.

## Where the code does not do what one would expect

Each of these is a lemma, and where the code meets the property under a condition, the
condition is proved exact.

- `pp_ref` is a `u_short`. One mapping too many wraps it, and `perm` bits above the flags, which no
  system call masks, put another page's number into the entry (`VmOps.CountExactIff`,
  `VmReached.WrapFromBoot`, `VmReached.WidePermReached`).
- `sys_mem_map` and `sys_mem_alloc` accept `PTE_G`, which defeats the ASID tag of TLB entries
  (`VmTlb.GlobalLeaks`, `VmReached.LeakReached`).
- The window at UVPT is meant to be read-only, but the directory entries that pgdir_walk makes are
  writable, so a program can store into its own page tables (`VmStores.StoreKeepsIff`,
  `VmStores.OwnEntryCleared`, `VmReached.LossReached`).
- `passive_alloc` backs any missing entry of that window, also one of the kernel's half of the
  directory, with a page that is counted but named by no slot, and that `env_free` does not give back
  (`VmCalls.RefillKeepsIff`, `VmOrphans.KernelHalfLost`).
- A second `TAILQ_REMOVE` is harmless only while the neighbours are unchanged
  (`Queue.RemoveNothingIff`, `Queue.StaleRemoveLoses`); `sys_set_env_status` on the caller itself or on a
  receiver leaves the machine's invariant (`SchedInv.SetKeepsIff`).
- `env_free` takes any environment off the scheduling list, queued or not, and leaves `env_ipc_recving`
  set (`SchedInv.DestroyIdleIff`). A child that was never queued, as in spawn's error path, has a NULL
  back pointer there. Two calls after boot this is a panic, or, if the caller received a page at address
  0 (`VmReached.ZeroPageReached`), a queue without a last link (`SchedRuns.BootThenPanic`).
- `pipe_read` tests for an empty pipe and for a closed one in separate steps. Bytes put in between are
  left when it reports the end, although its post-condition says that nothing has been written
  (`PipeReturns.EndMissed`); they are exactly the ones put after the pipe was empty (`PipeReturns.ReadReturns`).
- `mkenvid` repeats after 2^21 creations, and then the id of the first place is 0: `sys_exofork` returns to
  the parent what it returns to the child (`SchedCalls.ForkAnswers`, `SchedCalls.MkenvidRepeatsIff`).
- A parent's store between `duppage`'s look at a copy-on-write page and its map into the child can
  become visible to the child (`CowFork.LateFaultLeaks`, `CowFork.LateMapIff`, `CowReached.LeakReached`).
- A cached block that becomes an indirect block is not cleared, and its words are taken for
  block numbers (`FsMap.MapKeepsIff`, `FsRuns.DirtyReached`); the same holds for a cached block that
  becomes a block of struct Files (`FsEntries.EnterKeepsIff`, `FsRuns.NewStructIff`); blocks past a file's
  size are lost when its indirect block is dropped (`FsFiles.TruncateIs`).
- `file_remove` and `file_set_size` take directories as well, and `serve_map` hands out their blocks for
  writing. The struct Files in a dropped or overwritten block go with it, and the blocks they named stay
  in use with no owner (`FsDirs.CutKeepsIff`, `FsEntries.OverwriteKeepsIff`, `FsRuns.RemoveLoses`,
  `FsFormat.RemoveDirectoryLoses`).
- A handle kept open over the removal of its file still allocates blocks, for a struct File that has no
  name (`FsRuns.StaleHandleIff`).
- `elf_load_seg` maps a partly filled, unaligned first page a second time
  (`ElfLoad.LoadRealisesIff`).
- A comment in `init_stack` promises a zero `args[argc]`; the code stores the address of the last
  byte of the page (`InitStack.ChildStarts`).
- `cow_entry` keeps no permission bit but `PTE_D`: its comment asks to remove `PTE_COW`, but `!PTE_COW`
  is zero. The model does as the code does (`CowFork.CowEntry`).

## Model

| member | source | states |
|---|---|---|
| Mmu.IndicesNamePage | include/mmu.h:10-16 | directory and table index together name a virtual page: two addresses have the same pair exactly when they have the same page number |
| Mmu.LayoutIndices | include/mmu.h:95-110 | UTOP, UENVS, UPAGES and UVPT fall on directory boundaries, so each region of the layout is exactly a range of directory indices |
| Queue.RepUnique | include/queue.h:167-190 | the pointers of a tail queue stand for at most one sequence |
| Queue.InsertHeadRep | include/queue.h:193-200 | TAILQ_INSERT_HEAD keeps the queue well formed and puts the element in front |
| Queue.InsertTailRep | include/queue.h:203-209 | TAILQ_INSERT_TAIL keeps the queue well formed and appends the element |
| Queue.RemoveRep | include/queue.h:229-236 | TAILQ_REMOVE keeps the queue well formed and drops exactly that element, at whatever position |
| Queue.RemoveNothingIff | include/queue.h:229-236 | TAILQ_REMOVE changes nothing if and only if the element's remembered neighbours are linked to each other |
| Queue.ApartIff | include/queue.h:229-236 | removing an element that is not on the queue leaves a queue of the same elements if and only if the words it overwrites belong to no queued element or already hold what is written |
| Queue.RemoveTwice | kern/syscall_all.c:366-372 | removing an element a second time with no change in between is a no-op, as sys_ipc_recv followed by schedule needs |
| Queue.StaleRemoveLoses | include/queue.h:229-236 | with an insertion in between, the second removal empties the queue and loses the inserted element |
| Queue.TailQueue.constructor | include/queue.h:187-190 | TAILQ_INIT gives a well-formed empty queue |
| Queue.TailQueue.InsertAtHead | include/queue.h:193-200 | the macro's assignments on the link words have the effect of the insertion |
| Queue.TailQueue.InsertAtTail | include/queue.h:203-209 | the same for the tail, through the pointer to the last link |
| Queue.TailQueue.Delete | include/queue.h:229-236 | the same for removal, through the pointer to the previous link |
| FreeList.InsertHeadRep | include/queue.h:143-149 | LIST_INSERT_HEAD puts the element in front and keeps the list well formed |
| FreeList.InsertAfterRep | include/queue.h:115-124 | LIST_INSERT_AFTER inserts right behind the given element and nowhere else |
| FreeList.InsertBeforeRep | include/queue.h:131-137 | LIST_INSERT_BEFORE inserts right before the given element |
| FreeList.RemoveRep | include/queue.h:157-162 | LIST_REMOVE drops exactly that element |
| FreeList.TakeUndoesPut | kern/pmap.c:124-156 | page_alloc takes the page page_free put back, and the list is as it was before both |
| FreeList.LinkedList.InsertAtHead | include/queue.h:143-149 | the assignments on the link words have the effect of the insertion |
| FreeList.LinkedList.AddAfter | include/queue.h:115-124 | the same for LIST_INSERT_AFTER |
| FreeList.LinkedList.AddBefore | include/queue.h:131-137 | the same for LIST_INSERT_BEFORE |
| FreeList.LinkedList.Delete | include/queue.h:157-162 | the same for LIST_REMOVE |
| Bitmap.WordBits | kern/env.c:32-58 | setting or clearing bit k of a 32-bit word with a shifted mask changes bit k and no other |
| Bitmap.OneBit | fs/fs.c:176-222 | marking or clearing block b in the words of a bitmap changes the answer for b and for no other block |
| VmRefs.LinkCounts | kern/pmap.c:221-254 | a new entry naming a page and one more on its count keep every pp_ref equal to the number of user entries, user tables and directories naming the page |
| VmRefs.UnlinkCounts | kern/pmap.c:287-314 | dropping an entry and calling page_decref keeps counts equal to references and puts the page on the free list exactly when it was the last |
| VmOps.AllocKeeps | kern/pmap.c:124-141 | page_alloc hands out a page nothing names, cleared, and no translation changes |
| VmOps.WalkKeeps | kern/pmap.c:176-207 | pgdir_walk with create adds one empty page table, visible only through the UVPT window, or fails with everything unchanged because no page was free |
| VmOps.RemoveKeeps | kern/pmap.c:298-314 | page_remove empties that one translation, flushes it from the TLB, lowers that one count and keeps the whole invariant |
| VmOps.RemapKeeps | kern/pmap.c:226-235 | mapping the page that is already there changes flags only and no count |
| VmOps.InsertKeeps | kern/pmap.c:221-254 | with perm bits that leave the page number alone and room on the count, page_insert is a map update on the two-level tables, and failure-atomic: on -E_NO_MEM there was no page table and no free page, and the state is the old one |
| VmOps.InsertInTable | kern/pmap.c:221-254 | with the page table present page_insert cannot fail, whatever u_int perm it is given, and the entry is the page number and the flags with perm or-ed in |
| VmOps.CountExactIff | kern/pmap.c:221-254 | for any u_int perm and with a page table or memory for one: page_insert keeps counts equal to references if and only if perm leaves the page number alone and the u_short count has room or the page was already mapped there; the entry names the page if and only if perm leaves its number alone |
| VmSpaces.ClearLeavesKeeps | kern/env.c:386-393 | the inner loop of env_free removes the remaining entries of one table and nothing else, every step keeping the invariant |
| VmSpaces.ClearTableKeeps | kern/env.c:378-401 | one turn of the outer loop empties one directory entry and its table |
| VmSpaces.ClearTablesKeeps | kern/env.c:378-401 | after the outer loop every user directory entry is zero, translations of other environments untouched |
| VmSpaces.SelfMap | kern/env.c:215-217 | through the UVPT window an environment reads its own directory entries |
| VmSpaces.DropDirKeeps | kern/env.c:402-409 | freeing the directory and the ASID leaves no private TLB entry with that ASID, so it can be given out again |
| VmSpaces.FreeKeeps | kern/env.c:374-413 | env_free takes away exactly the references of that environment and leaves every translation of every other one |
| VmSpaces.FreeReclaims | kern/env.c:374-413 | each page's count falls by exactly the references the environment held, and a page goes to the free list exactly if all its references were that environment's |
| VmSpaces.SetupKeeps | kern/env.c:194-219 | env_setup_vm makes an address space with nothing below UTOP, the shared windows and itself at UVPT, or fails with nothing changed |
| VmTlb.SharedLookup | kern/env.c:208-213 | all address spaces translate the copied region [UTOP, UVPT) alike |
| VmTlb.FillKeeps | kern/tlb_asm.S:35-50 | writing the entry the walk found into the TLB, evicting anything, keeps the TLB coherent |
| VmTlb.HitIsCurrent | kern/tlb_asm.S:3-50 | whatever the TLB answers to a live environment is its current valid page-table entry |
| VmTlb.GlobalLeaks | kern/syscall_all.c:175-203 | PTE_G, which sys_mem_map accepts, breaks coherence, with the page table present or memory for one: what the TLB answers another environment is right if and only if that one has the same entry |
| VmTlb.PassiveMakesTable | kern/tlbex.c:4-29 | at the UVPT address of a missing user directory entry, page_insert through the self-map has the effect of pgdir_walk creating that table, flags and count included |
| VmTlb.PassiveThenFound | kern/tlbex.c:4-56 | for every missing address passive_alloc accepts: after one allocation the walk finds a valid writable entry, and it panics only with fewer than two free pages; the invariant survives if and only if the address is a user page or names a user directory entry, and otherwise the page is counted once and named by no slot |
| VmStores.StoreKeepsIff | kern/env.c:215-217 | for every address and word: a user store keeps conservation and coherence if and only if it is below UTOP, not to a writable mapping, or leaves the slot it hits in the environment's own table with its target, without PTE_G and as it is cached, or a slot of a shared window read-only and as it is cached |
| VmStores.OwnEntryCleared | kern/pmap.c:196-198 | the failing input: the word of a mapped page in the UVPT window is writable, and storing zero there leaves a count without its reference |
| VmCalls.InsertOnlyPage | kern/pmap.c:221-254 | in terms of addresses: page_insert changes the translation of the one page and of no other user address of any environment |
| VmCalls.MemMapShares | kern/syscall_all.c:175-203 | when perm leaves the page number alone and the count has room, after sys_mem_map the destination has the source's page with the new flags; on any error nothing changed |
| VmCalls.MemAllocFresh | kern/syscall_all.c:139-159 | when perm leaves the page number alone, sys_mem_alloc maps a page that was free and moves no other translation; on -E_NO_MEM the free list is empty |
| VmEffects.MemUnmapReleases | kern/syscall_all.c:215-231 | sys_mem_unmap answers -E_INVAL and changes nothing at an illegal address; at a legal one it answers 0, and then neither the tables nor the TLB answer for the page, the page that was there alone has one count less and is free exactly if that was the last, and no other translation moved |
| VmEffects.InsertFailsIff | kern/pmap.c:221-254 | page_insert fails if and only if there is neither a page table nor a page to make one of, and then nothing has changed |
| VmEffects.MemMapAnswers | kern/syscall_all.c:175-203 | which code sys_mem_map returns, for any u_int perm: -E_INVAL exactly for an illegal or unmapped address, -E_NO_MEM exactly without a page table, 0 in all other cases; on an error nothing changed |
| VmEffects.MemAllocAnswers | kern/syscall_all.c:139-159 | which code sys_mem_alloc returns, told before the call, and that on an error at most the page it took is missing |
| VmEffects.IpcMapShares | kern/syscall_all.c:426-434 | the page of a message: at vb the receiver has the page the sender has at va; without a page table the call says 0 all the same and nothing is mapped |
| VmEffects.RefillPanicsIff | kern/tlbex.c:4-56 | with two free pages, a fault on an unmapped address is a panic if and only if it is below UTEMP, in the page above the stack, in the windows on envs and pages, or in the kernel; on a mapped address the TLB alone changes, by the entry and what it evicts |
| VmEffects.EnvAllocAnswers | kern/env.c:240-285 | the codes of env_alloc's memory part; with a page but no ASID the directory page is lost: off the free list, in no address space |
| VmCalls.RefillKeepsIff | kern/tlbex.c:4-56 | for every address, a refill ends with the walk's entry in the TLB or panics on a refused address or for want of memory; it keeps the invariant if and only if the address was mapped or refused, no page was free, or it is no kernel entry of the UVPT window; when it does not, the page's count is one without a reference |
| VmOrphans.FreeKeepsOrphan | kern/env.c:374-413 | a page with count one and no reference is as it was after env_free of any environment |
| VmOrphans.KernelHalfLost | kern/tlbex.c:4-29 | after a fault at a kernel entry of the UVPT window and the end of that environment, the page has count one, no reference, and is not on the free list |
| VmCalls.BootKeeps | kern/pmap.c:89-109 | the boot state satisfies the invariant |
| VmBoot.SegmentMapped | kern/env.c:67-83 | map_segment on an empty directory entry makes one table and maps the pages of the segment in it in order, global and read-only, and nothing else |
| VmBoot.BootReached | kern/env.c:174-188 | page_init followed by env_init reaches the boot state, three pages poorer, in which the windows at UPAGES and UENVS show exactly the pages of the two arrays |
| VmCalls.StepKeeps | kern/syscall_all.c:139-231 | every map, unmap, IPC mapping, environment creation and destruction, refill and store keeps conservation and coherence under the condition that the theorems above prove exact for it |
| VmCalls.RunKeeps | kern/syscall_all.c:139-231 | so does every sequence of them |
| VmCalls.Reachable | kern/pmap.c:89-314 | in every state reachable from boot by such steps counts are references, the free list is exactly the unused pages, and every TLB answer is current |
| VmReached.WrapFromBoot | include/pmap.h:14-23 | a run from boot of allowed steps, with 67 free pages, after which one more sys_mem_map makes the count wrap |
| VmReached.LeakReached | kern/syscall_all.c:175-203 | five calls after boot an environment gets another one's page from the TLB through PTE_G |
| VmReached.LossReached | kern/env.c:215-217 | four calls after boot a store through the UVPT window loses a reference |
| VmReached.WidePermReached | kern/syscall_all.c:175-203 | four calls after boot, perm bits above the flags make an entry name a page that is not counted for it |
| VmReached.ZeroPageReached | kern/syscall_all.c:391-436 | a message with a page, received with address 0, maps it there, writable if the sender asks for it |
| VmKernel.Kernel.constructor | kern/pmap.c:89-109 | page_init's two loops mark the pages below freemem used and list all others free, the last one first, with count zero: the state the boot theorem starts from |
| VmKernel.Kernel.PageAlloc | kern/pmap.c:124-141 | takes the head of the free list, cleared, or -E_NO_MEM with nothing changed |
| VmKernel.Kernel.PageIncref | kern/pmap.c:249-252 | the count goes up in sixteen bits |
| VmKernel.Kernel.PageDecref | kern/pmap.c:287-294 | the count goes down and the page is freed at zero; the assertion is the precondition |
| VmKernel.Kernel.TlbInvalidate | kern/pmap.c:323-325 | drops the entry of one page of one ASID |
| VmKernel.Kernel.PgdirWalk | kern/pmap.c:176-207 | finds the entry's place, creating the table when asked; states both results and both errors |
| VmKernel.Kernel.PageLookup | kern/pmap.c:261-281 | finds the place of the valid entry the two-level lookup defines, and changes nothing |
| VmKernel.Kernel.PageRemove | kern/pmap.c:298-314 | refines the removal; the assertion in page_decref never fails |
| VmKernel.Kernel.PageLink | kern/pmap.c:238-254 | the end of page_insert: flush, walk with create, write the entry and count it, or -E_NO_MEM |
| VmKernel.Kernel.PageInsert | kern/pmap.c:221-254 | refines the insertion statement by statement, return code included |
| VmKernel.Kernel.EnvFreeLeaves | kern/env.c:386-393 | the inner loop refines the function that clears a table |
| VmKernel.Kernel.EnvFreeTables | kern/env.c:378-401 | the outer loop refines the function that clears all tables |
| VmKernel.Kernel.EnvFree | kern/env.c:374-413 | both loops and the directory together refine env_free as a function |
| VmKernel.Kernel.EnvSetupVm | kern/env.c:194-219 | refines the setup of an address space |
| VmKernel.Kernel.PassiveAlloc | kern/tlbex.c:4-29 | for every missing address: refines demand allocation, false is one of its panics, and it says exactly when the invariant survives |
| VmKernel.Kernel.DoTlbRefill | kern/tlbex.c:34-56 | for every address: the refill loop allocates at most once and then returns the walk's entry; it panics only on a refused address or with fewer than two free pages, and it says exactly when the invariant survives |
| VmKernel.Kernel.SysMemAlloc | kern/syscall_all.c:139-159 | refines the system call, error codes included |
| VmKernel.Kernel.SysMemMap | kern/syscall_all.c:175-203 | refines the system call, error codes included |
| VmKernel.Kernel.SysMemUnmap | kern/syscall_all.c:215-231 | refines the system call, of which `VmEffects.MemUnmapReleases` says what it answers and what is gone afterwards |
| SchedInv.EnvRunKeeps | kern/env.c:466-479 | env_run's assertion holds for the head of a good queue; that environment becomes current with one more on env_runs, in 32 bits, and nothing else changes |
| SchedInv.ScheduleRunning | kern/sched.c:17-62 | schedule never picks NULL: it rotates the queue when it must, and the new head gets as many slices as its priority |
| SchedInv.RecvKeeps | kern/syscall_all.c:353-373 | sys_ipc_recv takes the caller off the queue once although schedule removes it again, and stops the machine only if nobody else is runnable |
| SchedInv.SendKeeps | kern/syscall_all.c:391-436 | sys_ipc_try_send changes exactly a waiting target's mailbox and status and appends it to the queue, or changes nothing and fails |
| SchedCalls.FindsIff | kern/env.c:112-147 | envid2env finds an environment if and only if the id is 0 and it is the caller, or it is in use with exactly that id; and, where permission is checked, it is the caller or its child |
| SchedCalls.DestroyAnswers | kern/syscall_all.c:78-85 | sys_env_destroy ends the environment the id names if it is the caller or its child; for any other id it answers -E_BAD_ENV and nothing has changed |
| SchedCalls.SetAnswers | kern/syscall_all.c:281-306 | the codes of sys_set_env_status with the condition of each; on success the status of the one named changes and no other environment |
| SchedCalls.SendAnswers | kern/syscall_all.c:391-436 | the codes of sys_ipc_try_send with the condition of each: -E_IPC_NOT_RECV exactly when the id names one that does not wait, so that ipc_send may try again; the message is delivered exactly when the one named waits and srcva is legal |
| SchedCalls.RecvAnswers | kern/syscall_all.c:353-373 | sys_ipc_recv refuses exactly an illegal address, with nothing changed |
| SchedCalls.ForkAnswers | kern/syscall_all.c:247-267 | sys_exofork's child was free, sleeps, has the caller as parent, its priority, a fresh ASID and a count of 0, and the code is its id, by which it is found; the code is 0 also for the parent exactly when a multiple of 2^21 creations hands out the first place |
| SchedCalls.MkenvidRepeatsIff | kern/env.c:94-97 | two ids are equal if and only if they are of the same place and a multiple of 2^21 creations apart; an id leads to its place |
| SchedCalls.IdsRun | kern/env.c:112-147 | in every reachable state the id of an environment in use leads to its place, so no two in use share one |
| SchedCalls.IdsFresh | kern/env.c:94-97 | along a run with fewer than 2^21 calls of sys_exofork no id is given twice |
| SchedCalls.PlaceReused | kern/env.c:404-428 | env_destroy of another environment frees its place and changes no other; the next sys_exofork takes that place |
| SchedCalls.ParkedSwitches | kern/sched.c:17-62 | an environment that made itself not runnable runs on to the next tick or yield, which switches to the next one and restores the invariant |
| SchedTurns.RunsStep | kern/env.c:466-479 | each step that ends in env_run adds one to env_runs of the environment then current, in 32 bits, and no step changes any other count of an environment in use |
| SchedTurns.RunsCount | kern/env.c:466-479 | over any run env_runs has grown by the number of schedule calls that ended in the environment, modulo 2^32 |
| SchedTurns.SameRunsIff | user/lib/pipe.c:104-115 | between two moments with fewer than 2^32 such calls, env_runs is the same if and only if there was none |
| SchedInv.SetKeepsIff | kern/syscall_all.c:281-306 | sys_set_env_status keeps the machine invariant if and only if it does not park the caller or wake a receiver |
| SchedInv.DestroyKeeps | kern/env.c:374-428 | env_destroy takes a runnable target off the queue, and switches if it was running; any other target allowed by the next theorem leaves the queue as it is |
| SchedInv.DestroyIdleIff | kern/env.c:374-428 | destroying an environment that is not runnable panics if and only if it was never queued and the caller has no writable page at address 0, and otherwise keeps the machine's invariant if and only if it waits for no message and the words its removal overwrites belong to no queued element or already hold what is written |
| SchedInv.NeverQueued | include/queue.h:229-236 | with both words NULL the removal only sets the pointer to the last link to NULL, which the invariant does not bear |
| SchedInv.AsidAllocIs | kern/env.c:32-43 | asid_alloc returns the least ASID not in use, or fails only if all are |
| SchedInv.ForkKeeps | kern/syscall_all.c:247-267 | sys_exofork keeps the machine's invariant on all its paths: the child is off the queue with an ASID no live environment has |
| SchedInv.ForkCodes | kern/env.c:240-285 | it fails with -E_NO_MEM exactly when there is a free environment but no page, and with -E_NO_FREE_ENV exactly when there is none or all ASIDs are taken |
| SchedRuns.StepKeeps | kern/env.c:18 | after every kernel entry, with destroy and set-status calls under their exact conditions, the scheduling list is exactly the runnable environments, without duplicates, a runnable current one at its head |
| SchedRuns.InitGood | kern/env.c:156-189 | env_init establishes the invariant |
| SchedRuns.EnvCreateGood | kern/env.c:354-369 | env_create keeps it before the first schedule and gives the environment its priority, a fresh ASID, no parent and a count of 0 |
| SchedRuns.FirstSchedule | kern/sched.c:17-62 | the first schedule starts the environment created last |
| SchedRuns.BootThenPanic | user/lib/spawn.c:220-225 | from boot, sys_exofork followed by destroying the child stops the machine, or, with a page at address 0, leaves no queue of the runnable environments |
| SchedRuns.RunKeeps | kern/sched.c:17-62 | every run of such calls from a running state stays in such states |
| SchedRuns.WaitShrinks | kern/sched.c:30-60 | a schedule call either runs the waiting environment or uses up a slice ahead of it; no other call adds any |
| SchedRuns.BoundedWaiting | kern/sched.c:17-62 | an environment that stays runnable runs before more schedule calls pass than the remaining slices plus the priorities of those ahead, whatever others do |
| SchedIpc.SlicesRun | kern/sched.c:17-62 | an environment that does not give up the processor stays on, one slice less per tick |
| SchedIpc.SlicesEnd | kern/sched.c:17-62 | at its last slice the tick hands over to the next in line, which gets exactly its priority in slices |
| SchedIpc.EachReceiveOneMessage | kern/syscall_all.c:353-436 | over every run, receives and messages of an environment alternate, and its mailbox shows that one message until its next receive |
| SchedKernel.Kernel.constructor | kern/env.c:156-189 | env_init leaves all environments free, listed in table order on the linked free list |
| SchedKernel.Kernel.EnvRun | kern/env.c:466-479 | refines env_run, env_runs included, whose counts over a run are in `SchedTurns.RunsCount`; false is the failed assertion |
| SchedKernel.Kernel.Schedule | kern/sched.c:17-62 | the routine on the linked queue refines the scheduling function |
| SchedKernel.Kernel.SysIpcRecv | kern/syscall_all.c:353-373 | refines the blocking receive |
| SchedKernel.Kernel.SysIpcTrySend | kern/syscall_all.c:391-436 | refines the send, error codes included; the message counts as delivered although an unmapped srcva makes the call fail |
| SchedKernel.Kernel.SysExofork | kern/syscall_all.c:247-267 | refines sys_exofork with env_alloc on the linked free list, with no memory and no ASID as outcomes |
| SchedKernel.Kernel.EnvFree | kern/env.c:404-412 | the end of env_free: ASID, status, free list and scheduling list; false is a store through NULL that faults |
| SchedKernel.Kernel.EnvDestroy | kern/env.c:418-428 | refines env_destroy on the linked lists; false is a panic |
| SchedKernel.Kernel.SysSetEnvStatus | kern/syscall_all.c:281-306 | refines the call on the linked queue |
| SchedKernel.Kernel.FindEnv | kern/env.c:112-147 | refines envid2env, of which `SchedCalls.FindsIff` says which ids it finds and for whom |
| SchedKernel.Kernel.AllocAsid | kern/env.c:32-43 | the loop over the bitmap words finds and marks the least free ASID |
| SchedKernel.Kernel.FreeAsid | kern/env.c:54-58 | clears that ASID's bit and no other |
| Machine.ForkKeeps | kern/env.c:240-285 | sys_exofork in both parts: env_alloc finds an ASID without an address space, returns the same error in both, and keeps both invariants |
| Machine.DestroyKeeps | kern/env.c:374-428 | env_destroy finds the address space of the ASID and takes both away |
| Machine.RunKeeps | kern/syscall_all.c:78-436 | over every run of calls, faults and stores both invariants hold, and the address spaces are those of the ASIDs in use |
| Machine.RunProjects | kern/env.c:240-285 | a run of the whole machine is a run of the scheduler and a run of the memory, each meeting the conditions of its part, where env_alloc and env_free come with the ASIDs the scheduler chose |
| Machine.BootGood | kern/env.c:354-369 | the first environment, created and started after boot, is such a state |
| CowRel.LoadSame | user/lib/fork.c:106-145 | every load returns the byte the eagerly copying machine holds |
| CowSim.FaultSim | user/lib/fork.c:16-47 | a write fault and the steps of cow_entry are invisible in memory contents |
| CowDup.ChildSim | user/lib/fork.c:71-93 | duppage's map into the child shares a library page, is the eager copy of a page that is not writable, and of a writable private page shows nothing yet |
| CowDup.RemapSim | user/lib/fork.c:71-93 | the parent's remap to copy-on-write is the moment of the eager copy, stores in between included |
| CowSim.StepSim | user/lib/fork.c:16-145 | each step of any process corresponds to one act of the eager machine |
| CowSim.ForkRefinesCopy | user/lib/fork.c:106-145 | over every interleaving of forks, stores, faults, mappings and exits all loads return what eager private copies would, library pages shared |
| CowSim.StartRel | user/lib/fork.c:106-145 | the two machines agree at the start |
| CowFork.CopyRuns | user/lib/fork.c:33-37 | the page copy of cow_entry reaches the fresh page byte for byte and nothing else |
| CowFork.CowEntry | user/lib/fork.c:16-47 | cow_entry, run to its end, leaves a private writable copy at the faulting page, UCOW unmapped, everything else as it was |
| CowFork.DuppageIs | user/lib/fork.c:71-93 | duppage makes both sides copy-on-write exactly for private writable pages, and otherwise maps the child only |
| CowFork.Parent.Fork | user/lib/fork.c:122-134 | fork's loop over the page numbers duplicates exactly the parent's pages below USTACKTOP |
| CowFork.ForkCopies | user/lib/fork.c:106-145 | afterwards parent and child have the parent's contents on every page, and no private page is writable in the child |
| CowFork.LateMapIff | user/lib/fork.c:71-93 | the child's map of a page read as copy-on-write is the eager copy if and only if the parent's page is still not writable at that moment |
| CowFork.LateFaultLeaks | user/lib/fork.c:71-93 | a store of the parent to a copy-on-write page after duppage read its flags and before the child's map makes later stores visible to the child, which is why the refinement excludes it |
| CowReached.LeakReached | user/lib/fork.c:71-93 | two forks reach such a store from the start |
| PipeFifo.WrapExact | user/lib/pipe.c:20-26 | wrapped 32-bit positions at most a buffer apart compare like the real ones, and index the buffer alike |
| PipeFifo.ReaderKeeps | user/lib/pipe.c:131-158 | each access of the reader keeps the ring invariant under any interleaving; when it may return is in `PipeReturns.ReadReturns` and `PipeReturns.ReadEnds` |
| PipeFifo.WriterKeeps | user/lib/pipe.c:171-201 | each access of the writer keeps it too |
| PipeFifo.Fifo | user/lib/pipe.c:131-201 | with one reader and one writer preempted at every access, the bytes read are a prefix of the bytes written and at most 32 behind, after wrap-around as well |
| PipeFifo.CallsKeep | user/lib/pipe.c:131-201 | over every run, what the finished pipe_read calls returned, one after the other, is a prefix of what the pipe_write calls report as written with what the current one has done; what one call may return is in `PipeReturns` |
| PipeReturns.ReadReturns | user/lib/pipe.c:131-158 | a finished pipe_read returned exactly the bytes taken during the call, at most n; fewer only if the pipe was empty at a moment after the last of them was taken and there is at least one or the last answer of _pipe_is_closed was yes, so that 0 needs a yes; bytes are left behind if and only if they were put after that moment |
| PipeReturns.ReadEnds | user/lib/pipe.c:131-158 | under any interleaving pipe_read returns within 6n+1 accesses of its own, unless it is told that the pipe is open after it was empty with no byte taken yet |
| PipeReturns.WriteReturns | user/lib/pipe.c:171-201 | a finished pipe_write reports exactly the bytes put during the call, the first ones of its data; not all of them only if the ring was full after the last was put and the last answer of _pipe_is_closed was yes |
| PipeReturns.WriteEnds | user/lib/pipe.c:171-201 | pipe_write returns within 6n+1 accesses of its own, unless it is told that the pipe is open after the ring was full |
| PipeReturns.EndMissed | user/lib/pipe.c:146-152 | the failing run: a byte put, and the end closed, between the test for an empty pipe and the answer of _pipe_is_closed; pipe_read returns 0 and the byte is left |
| PipeFifo.NewPipe | user/lib/pipe.c:36-82 | a new pipe satisfies the invariant |
| PipeClosed.EnoughReferences | user/lib/pageref.c:3-17 | the pipe page always has at least as many references as there are open read and write ends together |
| PipeClosed.EqualMeansClosed | user/lib/pipe.c:95-116 | equal counts in one snapshot mean that no descriptor of the other end is mapped |
| PipeClosed.ClosedMeansEqual | user/lib/pipe.c:95-116 | and with nobody in the middle of a close or dup the converse holds |
| PipeClosed.StepKeeps | user/lib/fd.c:94-158 | unmapping the descriptor before the data page in close, and mapping them the other way round in dup, keeps this at every preemption point |
| PipeClosed.ClosedIsClosed | user/lib/pipe.c:95-116 | when _pipe_is_closed answers yes, the other end is closed at that moment; the env_runs retry makes its two reads one snapshot |
| PipeClosed.RunKeeps | user/lib/fd.c:94-158 | in every reachable state there are enough references |
| PipeClosed.NewPipe | user/lib/pipe.c:36-82 | the two descriptors pipe returns establish the invariant |
| PipeEnds.CloseClears | user/lib/fd.c:94-106 | whatever the others do meanwhile, close returns after at most two further steps of its caller, and then the descriptor and its data page are unmapped and no other slot of the caller has changed |
| PipeEnds.DupShares | user/lib/fd.c:116-158 | dup of an open descriptor returns after at most four further steps; the new descriptor is then the same end of the same pipe as the old one, whatever it was before, and no other slot has changed; dup of one that is not open changes nothing |
| PipeEnds.ForkCopies | user/lib/fork.c:106-145 | the child has each of the parent's descriptors and data pages |
| PipeEnds.ExitCloses | kern/env.c:374-413 | an environment that ends has none left, and those of the others stay |
| PipeEnds.CheckEnds | user/lib/pipe.c:104-116 | _pipe_is_closed returns within six steps once no further switch comes in between, from wherever it was |
| PipeRuns.KernelMatches | kern/env.c:466-479 | the switches that PipeClosed counts are the schedule calls of the scheduler: after every kernel step the count is env_runs modulo 2^32, and an environment not in use has no descriptors |
| PipeRuns.RunKeeps | user/lib/pipe.c:95-116 | over every joint run of scheduler and library calls both invariants and this agreement hold |
| PipeRuns.SnapshotIsKernels | user/lib/pipe.c:95-116 | in all those runs _pipe_is_closed returns exactly when the number it read equals the kernel's env_runs, and a yes means that the other end is open nowhere |
| PipeRuns.NewPipe | user/lib/pipe.c:36-82 | a running environment that has just made a pipe is such a state |
| FsOwners.AllocIs | fs/fs.c:209-242 | alloc_block takes a free block and caches it, zeroed unless it was still cached; no other block changes |
| FsOwners.AllocFails | fs/fs.c:209-242 | it fails with no block and no contents changed: -E_NO_DISK exactly if no block from 3 on is free, -E_NO_MEM exactly if the next one is not cached and memory is out for it or for the page table it needs |
| FsOwners.ReadPanicsIff | fs/fs.c:93-133 | read_block panics if and only if the block is off the disk, free, or not cached with no memory for its page and, where its 4 MB hold no other, a page table |
| FsOwners.ReadIs | fs/fs.c:93-133 | read_block changes what is cached and no contents |
| FsMap.WalkIs | fs/fs.c:359-394 | file_block_walk returns the slot of that file index, direct or in the indirect block, or fails with nothing changed |
| FsMap.LinkKeepsIff | fs/fs.c:366-380 | taking a block as indirect table keeps every block singly owned if and only if the block is not cached with non-zero entries |
| FsMap.MapKeeps | fs/fs.c:407-431 | file_map_block names the file's block; a new one was free before, and no other data slot changes |
| FsMap.MapKeepsIff | fs/fs.c:407-431 | the clean-table condition is exact for file_map_block as a whole |
| FsMap.LookupIs | fs/fs.c:407-431 | without alloc it is a lookup, with -E_INVAL and -E_NOT_FOUND exactly when they apply |
| FsMap.MapFailsIff | fs/fs.c:407-431 | told before the call: file_map_block fails exactly if the index is out of range, or the slot is empty and there is no block or no memory, page table included, for it or for the indirect block it needs first |
| FsMap.ClearIs | fs/fs.c:435-449 | file_clear_block empties that one slot and frees its block; a missing block is silently accepted |
| FsMap.NoPanic | fs/fs.c:93-133 | the indirect block of a file is never found free or off the disk: reading it panics only for want of memory |
| FsFiles.ClearFromIs | fs/fs.c:707-717 | the loop of file_truncate empties exactly the slots of its range |
| FsFiles.DropKeepsIff | fs/fs.c:710-713 | freeing the indirect block loses nothing if and only if it names no block any more |
| FsFiles.TruncateIs | fs/fs.c:696-721 | slot by slot what file_truncate empties, also for a file with blocks past its size; blocks stay conserved if and only if the indirect block stays or held nothing past the old size |
| FsFiles.TruncateKeeps | fs/fs.c:696-721 | a file without blocks past its size stays owned and within its size; which blocks it keeps is in `FsSizes.TruncateCuts`, in bytes |
| FsSizes.TruncateCuts | fs/fs.c:696-721 | in bytes: for a size above 0 the blocks up to the one that byte number `size` is in stay, with their contents, and all further ones go; for 0 all go; the indirect block stays if and only if the size is at least ten blocks; other files keep theirs |
| FsSizes.SetSizeIs | fs/fs.c:725-737 | the file has the new size, every byte below both sizes reads as before, and growing changes nothing but the size |
| FsReads.GetReads | fs/fs.c:458-473 | file_get_block on a block the file has finds it, cached with the contents it had, and no byte of any file reads otherwise |
| FsReads.StoreReads | fs/serv.c:119-138 | what a client stores into the page of a block is what the file reads there, and every other byte of every file stays |
| FsReads.EditReads | fs/fs.c:530-564 | the server's own stores into a directory's block are read back alike |
| FsFiles.EmptiedReclaims | fs/fs.c:788-803 | a file cut to nothing, as file_remove does, gives back exactly the blocks it had |
| FsFiles.MapBoundedIff | fs/fs.c:458-473 | a file stays without blocks past its size if and only if the index asked for is within it or, told before the call, cannot be mapped |
| FsDirs.HousedInDir | fs/fs.c:494-526 | struct Files lie in the blocks of directories only, so cutting a regular file takes none along |
| FsDirs.CutKeepsIff | fs/fs.c:696-721 | cutting a file or directory keeps every block owned and every struct File in the tree if and only if no struct File in a block it drops names a block |
| FsEntries.EnterKeepsIff | fs/fs.c:530-564 | the struct Files that a block new to a directory brings keep every block owned if and only if none of them names one |
| FsEntries.OverwriteKeepsIff | fs/serv.c:119-138 | a client's store into a directory's block keeps everything sound if and only if the struct Files in it name the blocks they named before, once each and within their sizes, and still hold the struct Files that lie in those |
| FsEntries.OverwriteEmptyIff | fs/serv.c:119-138 | in particular, overwriting a directory's block with words that name no block is harmless if and only if no struct File in it named one |
| FsRuns.GetKeepsIff | fs/fs.c:458-473 | file_get_block keeps the state sound if and only if the index is within the size or cannot be mapped, no indirect block is taken dirty from the cache, and a block new to a directory brings no struct File that names a block |
| FsRuns.RemoveKeepsIff | fs/fs.c:788-810 | file_remove, of a file or a directory, keeps it if and only if no struct File in a dropped block names a block |
| FsRuns.CreateStepIff | fs/fs.c:530-564 | giving a struct File its name keeps it if and only if its stored words name no block |
| FsRuns.NewStructIff | fs/fs.c:530-564 | a struct File in a newly allocated block names none if and only if the block was not cached or was zero in the words of its block numbers |
| FsRuns.StepKeepsIff | fs/fs.c:359-803 | each request keeps the in-use bits equal to reserved plus singly owned blocks, their struct Files in the tree, if and only if its condition, stated before it, holds |
| FsRuns.RunKeepsIff | fs/fs.c:359-803 | a run stays sound at every step if and only if every request on it meets its condition |
| FsRuns.RemoveLoses | fs/fs.c:788-810 | the failing input: after removing a directory with a struct File in it that has a block, that block is in use and no slot names it |
| FsRuns.StaleHandleIff | fs/serv.c:119-138 | file_map_block for a struct File without a name leaves every block owned if and only if it links none |
| FsRuns.DirtyReached | fs/fs.c:359-431 | from any sound state with two empty files, three requests later growing a file breaks single ownership |
| FsPages.RunPaid | fs/fs.c:93-133 | over every run, the pages the kernel has less are those of the cached blocks and their page tables; one is lost only when memory ran out, and then none is left |
| FsServer.Server.FreeBlock | fs/fs.c:190-201 | sets the block's bit in the bitmap words and no other; block 0 and blocks off the disk are ignored |
| FsServer.Server.AllocBlockNum | fs/fs.c:209-222 | the search finds the least free block from 3 on and clears its bit |
| FsServer.Server.AllocBlock | fs/fs.c:226-242 | refines allocation, giving the block back when memory is out |
| FsServer.Server.ReadBlock | fs/fs.c:93-133 | refines reading; false is a panic |
| FsServer.Server.FileBlockWalk | fs/fs.c:359-394 | refines the walk, return codes included |
| FsServer.Server.FileMapBlock | fs/fs.c:407-431 | refines the mapping |
| FsServer.Server.FileClearBlock | fs/fs.c:435-449 | refines clearing |
| FsServer.Server.FileTruncate | fs/fs.c:696-721 | refines truncation, loops included, of which `FsSizes.TruncateCuts` says in bytes what is kept |
| FsServer.Server.FileSetSize | fs/fs.c:725-737 | refines the change of size, of which `FsSizes.SetSizeIs` says that no byte below both sizes changes |
| FsFormat.AddIs | tools/fsformat.c:136-184 | next_block and save_block_link set exactly the link of that index, and that of a new indirect block when one is needed |
| FsFormat.MakeLinkKeeps | tools/fsformat.c:187-192 | make_link_block keeps a directory's size equal to the number of its blocks |
| FsFormat.CreateKeeps | tools/fsformat.c:207-242 | create_file returns an unused struct File and disturbs no link of any other |
| FsFormat.WriteBlocksKeeps | tools/fsformat.c:262-272 | write_file's loop puts the i-th block read at index i |
| FsFormat.RegularKeeps | tools/fsformat.c:245-274 | a written file has its size and all its blocks, and everything written before is still there |
| FsFormat.RunKeeps | tools/fsformat.c:312-342 | so for any sequence of files and directories within the disk |
| FsFormat.ImageIsSound | tools/fsformat.c:312-342 | any image starts the file server in a state where every block in use has exactly one owner, reached from the root |
| FsFormat.ServerFinds | fs/fs.c:359-431 | file_map_block finds the number save_block_link stored, direct or indirect, and read_block the contents written |
| FsFormat.FileIsFound | tools/fsformat.c:245-274 | after the whole run the file server finds every file written at any point, block for block |
| FsFormat.RemoveDirectoryLoses | fs/fs.c:788-810 | in whichever directory of an image a file was written, a server that removes the directory loses each block of the file |
| FsCapacity.AddFailsIff | tools/fsformat.c:136-184 | next_block and save_block_link fail if and only if the index is past the indirect block or the blocks needed, one or two, are past the end of the disk |
| FsCapacity.CreateFailsIff | tools/fsformat.c:207-242 | create_file takes the first struct File without a name in the directory and a new block only when there is none; it fails if and only if the directory is full and cannot grow |
| FsCapacity.RegularFitsIff | tools/fsformat.c:245-274 | write_file succeeds if and only if create_file does and the file has at most 1024 blocks that fit on the rest of the disk, with an indirect block if there are more than ten |
| FsWriter.Writer.constructor | tools/fsformat.c:105-133 | init_disk marks exactly the NBLOCK blocks of the disk free in the bitmap block |
| FsWriter.Writer.NextBlock | tools/fsformat.c:136-139 | hands out consecutive blocks up to the end of the disk |
| FsWriter.Writer.FlushBitmap | tools/fsformat.c:142-148 | afterwards block_is_free(b) holds exactly for nextbno <= b < NBLOCK |
| FsWriter.Writer.SaveBlockLink | tools/fsformat.c:172-184 | refines the linking; false is the assertion or the end of the disk |
| FsWriter.Writer.MakeLinkBlock | tools/fsformat.c:187-192 | refines the growing of a directory |
| FsWriter.Writer.CreateFile | tools/fsformat.c:207-242 | the two search loops find the first unused struct File, or a new block is linked |
| FsWriter.Writer.WriteChunks | tools/fsformat.c:262-272 | refines the loop of write_file |
| ElfLoad.FileLoopIs | lib/elfloader.c:42-47 | from an aligned address the first loop maps whole pages of the file, each once |
| ElfLoad.ZeroLoopIs | lib/elfloader.c:49-57 | the second loop maps zero pages up to the memory size, each once |
| ElfLoad.LoadExtends | lib/elfloader.c:25-59 | when the segment is aligned or fills its first page, each of its pages is mapped exactly once with PT_LOAD's contents and flags, and no other page is touched |
| ElfLoad.LoadRealises | lib/elfloader.c:25-59 | every byte of [va, va+memsz) is then the file's byte or zero |
| ElfLoad.LoadRealisesIff | lib/elfloader.c:34-57 | in general that holds if and only if the first page is filled, there is no zero part, or the file data is all zero and the last page is reached |
| ElfLoad.LoadPaid | lib/elfloader.c:25-59 | also when it fails: every page mapped is writable if and only if the header has PF_W, each took one page of memory, and it fails only when none is left |
| ElfLoad.Child.Map | kern/env.c:297-313 | the mapper gives a zeroed page with the source bytes at their offset |
| ElfLoad.Child.ElfLoadSeg | lib/elfloader.c:25-59 | the loops refine the loading function, stopping at the mapper's first error |
| InitStack.RoundTrip | user/lib/spawn.c:52-70 | a word stored in either byte order is read back |
| InitStack.StringsApart | user/lib/spawn.c:36-48 | the copied strings do not overlap |
| InitStack.LaidOut | user/lib/spawn.c:21-28 | argc, argv, the pointer array and the strings lie in this order inside one page, the words aligned |
| InitStack.FitsIff | user/lib/spawn.c:21-26 | an argument list is refused if and only if its strings, a pointer each and three words more are over a page |
| InitStack.CopyStrings | user/lib/spawn.c:34-48 | the copy loops leave every argument, terminated, at its place and nothing below |
| InitStack.FillPointers | user/lib/spawn.c:50-61 | args[i] gets the child's address of string i, and the word after the last points to the last byte of the page |
| InitStack.Measure | user/lib/spawn.c:13-18 | the first loop counts the arguments and their space |
| InitStack.Build | user/lib/spawn.c:8-86 | init_stack refuses exactly the lists that do not fit a page, passes on errors, and otherwise builds the whole page |
| InitStack.ChildStarts | user/lib/spawn.c:63-75 | in the child the stack pointer is aligned and at argc, followed by argv; args[argc] is USTACKTOP-1, not zero |
| InitStack.ChildSees | user/lib/spawn.c:50-75 | every argv[i] in the child reads as the argument that was given, inside the page and above the pointers |

## Left out

- Boot, trap frames, device and console drivers, IDE registers: effects of hardware above which
  nothing is proved.
- The contents of struct Env that neither scheduling nor memory reads: trap frame, path, user
  exception entry.
- SchedRuns.StepKeeps: does not cover the calls that `SchedInv.SetKeepsIff` and `SchedInv.DestroyIdleIff`
  show to break the invariant.
- SchedInv.DestroyIdleIff: whether the caller has a writable page at address 0 is a parameter. A page
  that is read-only there counts as none, although a registered fault handler keeps that from being a panic.
- Machine.RunKeeps: the message of sys_ipc_try_send and its page are separate steps of the two parts.
- SchedKernel.Kernel.SysExofork: whether env_setup_vm finds a page is a parameter; what it does with
  it is in `VmSpaces.SetupKeeps`.
- SchedRuns.BoundedWaiting: counts calls of schedule made in runs where all priorities stay at
  least 1; the system has no call that changes a priority.
- SchedCalls.IdsFresh: counts the creations of sys_exofork, not those of env_create at boot; ids above 2^31,
  which callers read as errors, are not told apart.
- VmCalls.Reachable: steps are limited by conditions proved exact: no PTE_G (`VmTlb.GlobalLeaks`), room
  on the u_short count and perm bits that leave the page number alone (`VmOps.CountExactIff`), no harmful
  store through the UVPT window (`VmStores.StoreKeepsIff`), no fault on a kernel entry of it
  (`VmCalls.RefillKeepsIff`). Beyond them nothing is claimed.
- VmCalls.Reachable: the pages lost by sys_mem_alloc and env_alloc after a late failure stay accounted for
  as held or reserved and are not reclaimed.
- VmKernel.Kernel.constructor: `page_free_list` is a sequence; the LIST macros it is built on are proved in
  `FreeList`.
- VmBoot.BootReached: the arrays of struct Page and struct Env fit one page table each.
- CowSim.ForkRefinesCopy: allocations succeed, and the only sharing calls are fork's own; the exact
  excluded store is the one of `CowFork.LateFaultLeaks`.
- PipeClosed.ClosedIsClosed: fork and exit are single steps and dup's two numbers differ. The inner steps of
  fork and spawn visit descriptor pages before data pages, so counts are not ordered there.
- PipeClosed.ClosedIsClosed: fewer than 2^32 environment switches pass between the two reads of env_runs, which
  is a wrapping u_int.
- PipeReturns.ReadReturns: what _pipe_is_closed answers is a parameter of each access; when it says yes is
  in `PipeClosed`.
- FsRuns.StepKeepsIff: requests are about struct Files that have a name; for others see
  `FsRuns.StaleHandleIff`.
- Names and path lookup are not modelled: struct Files are known by the block and place where they lie,
  and which of them a directory's block holds is part of the request. Their words are kept beside the
  block's, and the server's own stores into such a block are events of their own.
- Writing back to disk, dirty bits and the bitmap on disk: no durability is claimed.
- fsformat's byte-order reversal and the writing of the image file; file contents are read in
  full blocks, as from a regular file.
- ElfLoad.LoadRealises: the segment, with one page after it, does not wrap around the address space;
  parsing of headers is not modelled, and the kernel mapper's unchecked page_alloc is taken to
  report its failure like the mapper of spawn.
- InitStack.Build: argument lengths are unbounded numbers, so the int overflow of a list beyond
  two gigabytes is not modelled.
- Shell, commands, formatted printing, string routines and the file-system client stubs.
