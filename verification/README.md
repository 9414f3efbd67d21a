# ZeOS kernel: copy-on-write memory, scheduler, semaphores and lists in Dafny

This project models the core of ZeOS, a small teaching kernel for 32-bit x86, and proves what its
code keeps over whole runs. Three parts are modelled.

**Memory.** Frames, per-process page tables, directories with reference counts, the heap, the TLB.
`phys_mem`, `cow_count_mem` and the page tables change together under fork, page faults, sbrk, exit
and task switches. The main theorem is a refinement: over every run from boot, with arbitrary user
accesses, lazy sharing plus page faults behaves like a kernel that copies the whole address space at
fork. With it come the exact frame books (used if and only if owned, count law, no leak), coherence of
the TLB, permanent code pages, the answer of every sbrk call with its exact failure condition, the size of
every heap over whole runs and a heap round trip. Two kinds of exit are outside that theorem because the
code gets them wrong; both have their exact condition, and what one of them leads to, a store into another
task's page and wrong frame books, has its exact condition too. So has the sbrk call whose answer is not
the task's own memory. All four have concrete runs from boot.

**Scheduling.** Every kernel entry runs with interrupts off, so the scheduler is a state machine with
one step per system call or clock tick; a wait that blocks splits in two at the switch. Proved over
every run from boot: the queues partition the tasks, semaphores conserve their units and release
waiters in arrival order, blocked waits return -1 exactly when their semaphore was destroyed,
round-robin dispatch order with an explicit bound in clock ticks, slices of exactly one quantum, the
answer and the effect of every system call, and statistics that charge every tick to the right bucket
and count every dispatch.

**The whole kernel.** Memory and scheduler are joined into one machine, in which a PCB is free exactly when
it has no page directory, a fork takes the head of the free queue and the scheduler decides who runs.
Every run of that machine is a run of the scheduler and a run of memory, so both sets of theorems hold
of it.

**Lists.** The intrusive circular doubly linked list on the heap, refined to sequences for a whole
family of disjoint lists, and the scheduler again on top of it: records in arrays, queues made of
linked nodes, cursors that survive the unlinking of the node they visit. Every kernel entry on that
memory is proved equal to the step of the state machine.

## How it is laid out

| files | content |
|---|---|
| `Basics` | what both sides share |
| `Mm`, `AddressSpace` | step functions of mm.c and the memory side of sys.c |
| `Cow`, `CowLoops`, `VmInvariant`, `Access`, `UserCode`, `ForkProof`, `ExitProof`, `SbrkProof`, `Breaks` | what each operation keeps and how user-visible contents change |
| `Runs`, `Boot`, `Ledger`, `KernelMap`, `Threads`, `Isolation`, `Stray`, `ExactSteps` | whole runs, the state after boot, the invariant spelled out, and what fails: exits that leave pages behind, and stores through what they left |
| `Memory`, `Processes`, `BootCode`, `Utils` | the same operations in place, over arrays and with the loops of the source |
| `Sched`, `SchedInvariant`, `SchedSteps` | step functions of the scheduler and the semaphores, and their invariant |
| `SemHistory`, `TaskHistory`, `RoundRobin`, `Stats`, `SchedBoot` | whole runs of the scheduler |
| `Calls`, `Quanta`, `StatsRuns` | what each system call answers, how long a task keeps the CPU, and what the statistics show, told without the code that decides it |
| `Machine`, `MachineBoot` | memory and scheduler as one machine, from boot |
| `Schedule`, `StrayRun`, `StrayBooks`, `FailingRuns` | the runs of that machine in which a property fails |
| `KList`, `Layout`, `KernelParts`, `Kernel` | linked lists, and the scheduler over records and list nodes |

The state machines are values; each has a class whose methods are proved to move memory exactly as
the step functions say (`ensures Value() == …`), so a theorem about the state machine is a theorem
about the code in place. In `Kernel` a ghost log records the events in the order in which the source
makes them, and is proved equal to the events of the state machine.

Terms. A task *owns* the data pages of its directory and the heap pages 511 down to 511-k+1, where k
is the number of its heap pages; the *address space* of a directory is what its tasks own. *Contents*
(`View`) are the bytes behind owned pages, the only thing user code can observe. A *user access* goes
through the TLB; a refused one drops the cached entry, enters `pf_rsi` and is retried. `Halted` is one
of the endless loops of `pf_rsi`. A step is *proper* unless it is the exit of a
thread that leaves heap pages in a directory that lives on, or a store outside the own address space that
goes anywhere but straight to a frame nobody owns. `ExactSteps.ProperExact` shows that this is the
weakest condition under which a step does what the theorem says. A state is *sealed*
if every mapped page above the code is owned, and a run is *clean* if no exit in it leaves mapped pages
without an owner.

Where the code and its comments or types say different things, the model follows the code:

- `free_user_pages` releases the frame of heap page 511-i but clears the entry of page 511+i
  (mm.c:235-236). So a directory that dies with two or more heap pages keeps entries for pages it no
  longer owns. `Isolation.SealedStep` says exactly which steps do that, `Stray.StoreIsolatedIff` exactly
  when a store then changes somebody else's page, and `Stray.StrayBooksIff` when it spoils the frame
  books; `FailingRuns.StrayStoreFromBoot` and `FailingRuns.SpoiledBooksFromBoot` are runs from boot in
  which that happens.
- The second `if` of `free_frame` is not guarded by the first (mm.c:242-248); in every reachable state
  it is only called with even frames from 272 on, where that makes no difference (`Ledger.ReachableLedger`).
- `sys_sem_init` tests `value < 0` on an unsigned value and stores it in an `int` (sys.c:223-233), so
  the count can start negative (`SchedBoot.NegativeFromBoot`). `sys_sem_signal` increments that `int` without a
  test (sys.c:278), so 2^31 - 1 becomes -2^31 (`SchedBoot.OverflowFromBoot`); counts wrap as in two's
  complement, which is what the machine instruction does where C leaves signed overflow open.
  `SchedBoot.ReachableCounts` proves that these are the only two ways to a negative count.
- `access_ok` with VERIFY_WRITE falls through to the laxer read test (utils.c:77-89), and its bounds include
  the page below the heap and one page above the data; `UserCode.AcceptedExactly` says which bytes pass.
- `sys_sbrk` promises the first writable byte (sys.c:367), but a growth that needs no new page takes the
  other branch and answers one byte lower (sys.c:379). `Breaks.UsableIff` says exactly when that byte is not
  even on a page of the task; `FailingRuns.BadAnswerFromBoot` is a run from boot in which a store to it hangs.
- A clone starts with an empty heap of its own on a shared directory (sched.c:56), and the heap of a
  thread that leaves is not released. respuestas.txt:21 also holds clone and sbrk to be incompatible.
  Clones and sbrk calls of threads are part of all runs; `Threads.ExitKeepsIff` proves that an exit
  breaks the books exactly when it leaves heap pages in a directory that lives on, and
  `SbrkProof.GrowRefused` that a second thread of a directory cannot get a heap.
  `FailingRuns.CloneExitFromBoot` is a run from boot with such an exit.

## Model

| member | source | states |
|---|---|---|
| `Isolation.CleanRunRefines` | sys.c:386-411 | Over every clean run from boot, with loads and stores to any 32-bit address, any forks, clones, sbrk calls and switches: what gets through is a run of the machine that copies everything at fork, the end state is sealed, and its frame books, counts, code pages, TLB and directories are exact |
| `MachineBoot.KernelFromBoot` | sched.c:41-91 | Over every run of the whole kernel from boot whose entries are proper (system calls, ticks, user accesses, TLB traffic): it is a run of the scheduler and a run of memory with the PCBs and tasks the queues give; a PCB is free iff it has no directory; queues, owners, frame books, counts, code and TLB are exact; and user code observes the machine that copies everything at fork |
| `Machine.EntryEnabled` | sched.c:41-49 | Every kernel entry is an enabled step of memory: the PCB that a fork takes has no directory, the task that runs next has one and is not the one that exits |
| `Machine.EntryKeeps` | sched.c:67-91 | Every proper entry keeps both invariants, the same task on the CPU on both sides, and the agreement of free PCBs and free directories |
| `Machine.RunSplits` | entry.S:74-107 | Every run of the whole kernel is a run of the scheduler and a run of memory with the same end |
| `Machine.ForkFailsOnlyWithoutPcb` | sched.c:41-50 | With a PCB on `free_queue` there is a directory on `free_dirs`, so `allocate_process` fails only without a PCB |
| `ExactSteps.ProperExact` | sys.c:386-411 | From any state that satisfies the invariant: a step that gets through keeps the invariant and refines the eager-copy machine, a store for every byte it may write, iff it is proper |
| `Boot.ReachableRefinesEagerCopy` | sys.c:62-120 | Over every run of proper steps from boot (forks, clones, stores, loads, sbrk, exits, switches, TLB traffic) the contents of all address spaces evolve as in a machine that copies everything at fork, loads return that machine's bytes, and the invariant holds at the end, left-over entries or not |
| `Runs.RunRefinesEagerCopy` | sys.c:386-411 | The same from any state that satisfies the invariant; code pages never change |
| `Runs.StepRefines` | mm.c:263-278 | One proper step keeps the invariant and is a step of the eager-copy machine; it halts only on a store, when all frames are owned or `access_ok` refuses the page, or on a load outside the own address space |
| `Ledger.ReachableLedger` | mm.c:211-248 | In every state reachable from boot by proper steps: a frame from 256 on is USED iff it is a code frame or an owned page maps it; count 0 iff one writable mapping, count n>=1 iff n read-only ones, count <= NR_TASKS; code entries are fixed and read-only; every TLB entry equals the table entry; directory counts and free_dirs are exact |
| `KernelMap.ReachableKernelMap` | mm.c:65-83 | In every state reachable from boot by proper steps the kernel's half of every page table is as boot leaves it: one to one, supervisor only, with page 0 and the two guard pages absent |
| `Cow.CountBounded` | mm.c:263-271 | The count of an owned frame is at most NR_TASKS, and below it while some directory does not share the page: the byte counter cannot wrap |
| `Cow.ShareKeeps` | mm.c:263-271 | Sharing one page keeps the count law, the frame books and the rest of the invariant, with the child's entry added |
| `Cow.ShareCopies` | mm.c:263-271 | Sharing one page gives the child the parent's contents and changes nobody's |
| `Cow.AllocKeeps` | mm.c:211-224 | An allocated frame was unowned and unreserved, and the invariant holds with it reserved |
| `Cow.AllocFailsOnlyWhenFull` | mm.c:211-224 | `alloc_frame` returns -1 iff every even frame from 272 on is owned or reserved |
| `Cow.AssignKeeps` | mm.c:251-257 | Mapping a reserved frame turns it into an owned one and keeps the invariant |
| `Cow.FreeReservedKeeps` | mm.c:242-248 | Releasing a reserved frame frees exactly that frame |
| `Cow.FreeOwnedKeeps` | mm.c:242-248 | Releasing the frame behind an owned entry frees it iff that was the last mapping and leaves the count law right for the others |
| `CowLoops.ShareAllKeeps` | sys.c:94-108 | The sharing loops of fork keep the invariant for every number of pages |
| `CowLoops.ShareAllCopies` | sys.c:94-108 | The sharing loops give the child the parent's contents on exactly these pages |
| `CowLoops.FreeAllKeeps` | mm.c:226-232 | Releasing a list of owned pages takes exactly them out of the books |
| `CowLoops.FreeHeapKeeps` | mm.c:234-237 | The heap loop, which clears the wrong entries, still releases exactly the owned heap frames |
| `CowLoops.ReserveKeeps` | sys.c:349-361 | The reservation loop hands out distinct unowned frames and keeps the invariant |
| `CowLoops.FreeFramesKeeps` | sys.c:354-358 | Giving reserved frames back undoes the reservation |
| `CowLoops.AssignAllKeeps` | sys.c:363-366 | Assigning reserved frames to pages makes them owned and keeps the invariant |
| `VmInvariant.FreePcbMeansFreeDir` | sched.c:41-49 | While a PCB is free a directory is free too (pigeonhole), so the failure branch of `allocate_process` is unreachable |
| `Access.FaultHaltsOnlyWhenFull` | sys.c:386-411 | The fault handler on an owned read-only page loops forever iff it must copy and no frame is left |
| `Access.FaultEffect` | sys.c:395-406 | After a fault the entry is writable and its frame is the old one or a frame that was unused and now holds the old one's bytes; no other entry and no other frame's bytes change |
| `Access.FaultKeeps` | sys.c:395-406 | A fault keeps the count law, the frame books, the tables and TLB coherence |
| `Access.CacheKeeps` | mm.c:112-114 | Caching a translation keeps the TLB coherent |
| `UserCode.OwnPageAccepted` | utils.c:69-90 | `access_ok` accepts every owned page, so a fault on one never ends in WRONG ACCESS |
| `UserCode.AcceptedExactly` | utils.c:69-90 | For one byte `access_ok` accepts exactly: code, the owned window, the page below the heap, and the page above the data but for its last byte |
| `UserCode.TouchKeeps` | sys.c:386-411 | A user access to a page of the own address space ends in a usable translation without changing any contents; it halts iff it is a write to a read-only page that `access_ok` refuses or that needs a copy when memory is full |
| `UserCode.OwnStuck` | sys.c:386-406 | In the own window `access_ok` never refuses, so only the missing frame remains |
| `UserCode.StoreRefines` | sys.c:386-411 | A store to a page of the own address space, faults included, changes that byte of that space and nothing else |
| `UserCode.LoadRefines` | sys.c:386-411 | A load from the own address space never faults and returns the byte of that space |
| `ForkProof.ForkKeeps` | sys.c:62-120 | Fork cannot fail with a free PCB, keeps the invariant, and the contents afterwards are the eager copy: the child gets the pages in the window of the task that forks, all others unchanged |
| `ForkProof.CloneKeeps` | sys.c:122-142 | Clone shares the directory, with or without a heap, keeps the invariant and changes no contents |
| `ExitProof.SwitchKeeps` | sched.c:82-91 | A switch keeps the invariant and the contents, including when CR3 is not reloaded between threads |
| `ExitProof.ExitKeeps` | sched.c:67-71 | An exit that leaves no heap in a directory that lives on keeps the invariant; the contents lose the directory iff its last task left, and nothing else changes |
| `Threads.ExitKeepsIff` | sched.c:67-71 | Exit keeps the invariant iff it does not leave heap pages in a directory that lives on |
| `SbrkProof.SbrkKeeps` | sys.c:322-384 | For every task, thread or not, and every increment sbrk keeps the invariant; the owned heap is the exact window of the new top, kept pages keep their bytes, other spaces do not change; while another thread of the directory has the heap nothing changes |
| `SbrkProof.GrowRefused` | sys.c:342-347 | While another thread of the directory has a heap, every growing call returns ENOMEM and changes nothing at all |
| `SbrkProof.NewHeapTopExact` | sys.c:327-335 | The wrap-around arithmetic gives: error iff the increment exceeds the top, clamping at HEAP_START, otherwise the difference |
| `SbrkProof.GrowBounded` | sys.c:342-347 | Pages found free keep the heap within 228 pages, so it never reaches data or stack |
| `SbrkProof.ReserveExact` | sys.c:349-361 | The reservation loop succeeds iff there are enough free frames, and takes exactly that many |
| `SbrkProof.MoveFailsExactly` | sys.c:336-361 | Moving the heap fails iff a needed page is taken or there are too few free frames |
| `SbrkProof.SbrkFailsExactly` | sys.c:322-361 | ENOMEM iff the increment exceeds the top, or it is positive and there is no room |
| `SbrkProof.SbrkFailureIsClean` | sys.c:351-360 | A failing call leaves heap_top, page tables, free frames, contents and TLB as they were |
| `SbrkProof.HeapRoundTrip` | sys.c:322-384 | sbrk(n) that succeeds, then sbrk(-n), restores heap_top, the page tables, the set of free frames and the contents |
| `Breaks.SbrkAnswers` | sys.c:322-384 | For every task and every 32-bit increment: a refused call leaves `heap_top`; any other moves it by the increment, clamped at HEAP_START; a call that adds pages answers with an address from which that many bytes lie in owned heap pages, up to the old top; any other answers with the new top, and sbrk(0) with the old one, changing nothing |
| `Breaks.UsableIff` | sys.c:367-379 | The answer of a growth is the address of that many heap bytes iff pages were added or the heap does not fill its last page |
| `Breaks.RunSizes` | sys.c:322-384 | Over every run of proper steps each heap has the size that the increments give: inherited at fork, empty for a thread, moved by each call that is not refused, never below zero |
| `Boot.BootInv` | sched.c:93-113 | Boot cannot run out of frames and ends in a state that satisfies the invariant |
| `Boot.FirstTasksAreAllocated` | sched.c:41-62 | The first two tasks are what `allocate_process` gives on the directories of `init_dir_pages` |
| `Isolation.OutsideHalts` | sys.c:386-411 | In a sealed state an access outside the own address space (and code, for loads) ends in the fault handler's endless loop |
| `Isolation.AnyStoreIsolated` | sys.c:386-411 | In a sealed state a store to any 32-bit address halts or changes one byte of the own address space |
| `Isolation.ExitSealed` | mm.c:226-238 | Exit keeps a sealed state sealed iff it leaves no mapped pages: at most one heap page with the last task of a directory, none before |
| `Isolation.SealedStep` | mm.c:226-238 | Any step that gets through keeps a sealed state sealed iff it is not such an exit |
| `Isolation.RunSealed` | mm.c:226-238 | In a clean run every state is sealed and every access that gets through is proper |
| `Isolation.StaleEntries` | mm.c:234-237 | Which entries survive: every heap page below 511 stays mapped for user code though nobody owns it |
| `Stray.StoreIsolatedIff` | sys.c:386-411 | For any state that satisfies the invariant and any 32-bit address: no stored byte can change another owned page iff the page is in the own address space, or its entry does not reach an owned frame; it reaches one exactly when an owned page maps the same frame and the entry is writable, or is not but `access_ok` accepts the page and the count is 1 |
| `Stray.StrayPage` | sys.c:392-406 | What a store outside the own address space that gets through does to each owned page |
| `Stray.StrayTouch` | sys.c:386-411 | Which such stores get through, and the exact memory afterwards in the three cases of the handler |
| `Stray.StrayBooksIff` | sys.c:395-406 | Such a store leaves the frame books exact iff its entry was writable, or it was read-only with count 1 on a frame nobody owns |
| `Stray.HarmlessIff` | sys.c:392-406 | For a store outside the own address space that gets through: whatever byte it writes, it keeps the frame books and every owned page iff its entry maps a frame that nobody owns and is writable or has count 1 |
| `Stray.HarmlessKeeps` | sys.c:392-406 | Such a store keeps the whole invariant, all contents and the code frames |
| `Stray.StrayLoad` | sys.c:386-411 | A load outside the own address space gets through iff the entry is present for user code; it changes nothing and returns the byte of the mapped frame, which is a byte of another task's page if one maps that frame |
| `FailingRuns.StrayStoreFromBoot` | mm.c:234-237 | A run of the whole kernel from boot, whatever was in memory: task 2 takes two heap pages and exits, task 3 is forked into its directory, task 1 takes two heap pages; then a store of task 3 to page 510, which it does not own, changes that byte of task 1's heap |
| `FailingRuns.SpoiledBooksFromBoot` | sys.c:395-397 | A run of the whole kernel from boot that spoils the books: task 2 shares a heap of two pages with task 3 and exits, task 4 is forked into its directory and takes one page, so `access_ok` accepts the page below; its store there gets through the read-only entry left behind, takes the count of a page that task 3 owns to 0, and the count law is broken |
| `FailingRuns.CloneExitFromBoot` | sys.c:122-142 | A run of the whole kernel from boot: task 1 takes a heap page and clones a thread; its exit then breaks the invariant |
| `FailingRuns.BadAnswerFromBoot` | sys.c:369-379 | From boot, sbrk(1) and sbrk(4095) both succeed, the second answers with an address on page 510, and a store there ends in an endless loop of `pf_rsi` |
| `Threads.SharedExitIff` | mm.c:320-327 | A thread leaves a shared directory, whatever the heaps of the others: the frame books stay exact iff a remaining thread's heap reaches as far down |
| `Threads.CloneThenExitIff` | sys.c:122-142 | A process clones a thread and exits: the invariant survives iff its heap was empty |
| `Threads.FewerOwnersBreak` | mm.c:242-248 | Frame books that are exact for a set of entries are wrong for every smaller set |
| `Memory.Memory.AllocFrame` | mm.c:211-224 | The loop over `phys_mem` is the first-free allocation of the model |
| `Memory.Memory.FreeFrame` | mm.c:242-248 | In place, with byte wrap-around and the signed test |
| `Memory.Memory.ShareCowPage` | mm.c:251-271 | In place: count, then both entries present, user and read-only (`set_ss_pag`, `set_ro_page`) |
| `Memory.Memory.CopyFrame` | mm.c:273-278 | In place, through the temporary page and the TLB: the new frame gets the bytes of the page, the TLB is flushed |
| `Memory.Memory.ForkPages` | sys.c:86-114 | The three loops of fork and the flush |
| `Memory.Memory.FreeUserPages` | mm.c:226-238 | Both loops |
| `Memory.Memory.ReserveFrames` | sys.c:349-361 | The reservation loop with its roll-back |
| `Memory.Memory.Grow` | sys.c:338-366 | The growing branch, all-or-nothing |
| `Memory.Memory.Shrink` | sys.c:370-379 | The shrinking branch: each page released and its entry deleted, then the flush |
| `Memory.Memory.FaultFix` | sys.c:392-410 | The three cases of the handler on arrays |
| `Processes.Processes.AllocateDir` | mm.c:298-308 | In place; fails iff no directory is free |
| `Processes.Processes.FreeDir` | mm.c:320-327 | In place |
| `Processes.Processes.Fork` | sys.c:62-120 | In place, memory side |
| `Processes.Processes.Clone` | sys.c:122-142 | In place, memory side: one more holder of the directory (`reuse_DIR`) and an empty heap |
| `Processes.Processes.SwitchTo` | sched.c:82-91 | In place; reloads CR3 only for another directory |
| `Processes.Processes.Exit` | sys.c:40-43 | In place, memory side |
| `Processes.Processes.MoveHeap` | sys.c:336-382 | In place, both branches; through `Sbrk` the answer is the first new byte iff pages are added |
| `Processes.Processes.Sbrk` | sys.c:322-384 | In place, all branches; `Breaks.SbrkAnswers` says where the top ends and what is answered |
| `Processes.Processes.PfRsi` | sys.c:386-411 | In place; resumes or never returns |
| `BootCode.InitFrames` | mm.c:195-207 | Kernel frames used, all others free, counts zero |
| `BootCode.InitTable` | mm.c:68-81 | One table: kernel pages identity-mapped, page 0 and the guard pages absent; other tables untouched |
| `BootCode.InitTablePages` | mm.c:65-83 | All tables |
| `BootCode.InitMm` | mm.c:135-141 | Memory after `init_mm` is the initial state of the model |
| `BootCode.SetUserPages` | mm.c:86-109 | Both loops; the first task's pages |
| `Utils.CopyData` | utils.c:7-22 | For any two ranges, overlapping or not: byte x of the destination is the source byte that the word loop and the byte loop leave there, and nothing else changes |
| `Utils.CopyExactIff` | utils.c:7-22 | The copy is exact, whatever the contents, iff the destination does not start inside the source |
| `Utils.CopyRepeats` | utils.c:7-22 | Copied into its own source, four bytes up or more or for at most four bytes, the first bytes up to the distance repeat |
| `Utils.Divl` | utils.c:117-117 | DIV: quotient and remainder with the remainder below the divisor, when the high word is below the divisor |
| `Utils.DoDiv` | utils.c:108-120 | The two-step division equals mathematical division for every 64-bit dividend and non-zero base; the quotient given to divl always fits |
| `Utils.GetTicks` | utils.c:126-137 | The time stamp divided by the cycles per tick, cut to 32 bits |
| `SchedSteps.StepKeeps` | sched.c:149-215 | Every system call and tick keeps queue partition, state agreement, ownership, distinct PIDs and deletion marks |
| `SchedInvariant.RescheduleKeeps` | sched.c:202-215 | A dispatch ends with the first ready task, or idle, on the CPU and the invariant whole |
| `SchedSteps.DestroyExact` | sys.c:286-311 | Destroying a semaphore moves all its waiters in order to the ready queue, marks exactly them and changes no other task |
| `SchedSteps.DestroyEachExact` | sys.c:313-320 | `free_semaphores` destroys exactly the owned semaphores; their waiters reach the ready queue semaphore by semaphore, in order |
| `SchedSteps.MayDestroyIffOwner` | sys.c:297-299 | The PID comparison holds iff the caller is the owner |
| `Calls.SemDestroyAnswers` | sys.c:286-311 | 0 iff the semaphore is in use and the caller owns it, and then all waiters become ready in order; -1 iff another task owns it, -EINVAL iff there is none, both without any change |
| `Calls.DestroyAnswers` | sys.c:286-311 | The same for the calls that `free_semaphores` makes for a task that is leaving |
| `Calls.InitAnswers` | sys.c:218-238 | 0 iff the number is in range and free: the caller then owns an empty semaphore with that value modulo 2^32 and nothing else changes; -EBUSY iff in use, -EINVAL iff out of range, both without any change |
| `Calls.WaitAnswers` | sys.c:240-264 | -EINVAL iff there is no such semaphore, 0 at once iff the count is not zero, which then falls by one, and otherwise the caller blocks last in line and the first ready task or idle runs |
| `Calls.SignalAnswers` | sys.c:266-284 | -EINVAL iff there is no such semaphore; otherwise 0, and the count grows by one or the first waiter becomes the last ready task |
| `SchedSteps.WakeAllWoken` | sys.c:304-308 | The wake-up loop empties the blocked list onto the ready queue in order and marks exactly these tasks |
| `SchedInvariant.WithoutExact` | list.c:69-73 | Removing a node from a list without repetitions removes it and only it |
| `SchedBoot.ReachablePartition` | sched.c:180-200 | In every state reachable from boot each task but idle is free, ready, running or on the blocked list of one used semaphore, as its state says, and idle is on no list; each task's semaphore list is exactly the used semaphores it owns, and owners are live |
| `SchedBoot.ReachableSemaphores` | sys.c:218-284 | Over every run from boot: the count is initial value + signals - grants since creation as a 32-bit `int`, and exactly that number while it is in range; waiters are released in arrival order, and someone waits only at count 0 |
| `Calls.ReachableBalance` | sys.c:218-284 | Over every run from boot, from the calls alone: the count is the initial value plus signals less waits while nobody waits, and otherwise it is zero and that many tasks wait |
| `SchedBoot.ReachableCounts` | sys.c:218-284 | Over every run from boot counts stay non-negative iff no semaphore is created with a value of 2^31 or more and no signal without waiters meets the count 2^31 - 1 |
| `SchedBoot.NegativeFromBoot` | sys.c:223-233 | From boot, creating a semaphore with 2^31 gives the count -2^31 |
| `SchedBoot.OverflowFromBoot` | sys.c:277-278 | From boot, creating a semaphore with 2^31 - 1 and signalling it gives the count -2^31 |
| `SchedBoot.ReachablePids` | sched.c:55-55 | Over every run from boot PIDs of live tasks are below 2 plus the number of forks and clones that succeeded, so they fit an `int` while at most 2^31 - 2 do |
| `Calls.ReachableSpawn` | sys.c:62-120 | In every state reachable from boot: fork and clone answer -EAGAIN and change nothing iff no PCB is free; otherwise a positive PID which exactly one live task has, the one that was free before, last in the ready queue and with the caller's quantum |
| `Calls.SpawnAnswers` | sys.c:62-142 | The same from any good state |
| `Calls.ReachableStats` | sys.c:144-168 | In every state reachable from boot: `sys_get_stats` answers 0 iff a live task has the PID, -EINVAL iff it is negative, -ESRCH otherwise; it brings the record of that task up to date unless it runs, and no other |
| `Calls.StepLink` | sched.c:41-72 | After a scheduler step exactly the PCBs on the free queue are invalid: a fork takes the head, an exit appends the task that leaves |
| `SchedBoot.ReachableTasks` | sys.c:251-258 | Over every run from boot: each blocked wait returns 0 after a hand-off and -1 after a destruction, never otherwise, and accounting events follow the user/system/ready/blocked automaton |
| `SchedBoot.BootedInv` | sched.c:93-129 | The state after boot satisfies the scheduler invariant |
| `SchedBoot.BootParts` | sched.c:93-113 | Setting up idle and task 1 in the order of the source gives that state |
| `SemHistory.RunKeeps` | sched.c:149-215 | The invariant holds after every run |
| `SemHistory.RunConserves` | sys.c:218-284 | Conservation modulo 2^32 and first-come-first-served release over every run from any good state |
| `SemHistory.CountsStayNonNegative` | sys.c:218-284 | Over every run: the count of every used semaphore is non-negative in every state iff no semaphore is created with a value of 2^31 or more and no signal without waiters meets the count 2^31 - 1 |
| `SemHistory.StepCounts` | sys.c:223-233 | One step keeps all counts non-negative iff it neither creates such a semaphore nor is such a signal |
| `SemHistory.NegativeCountNeverBlocks` | sys.c:251-261 | With a negative count a wait goes through, and the count stays negative iff it was not -2^31 |
| `SemHistory.ExitGone` | sys.c:40-43 | Exit is: retire, destroy all owned semaphores, dispatch |
| `TaskHistory.RunTracks` | sys.c:252-258 | Over every run from any good state: results of blocked waits and order of accounting events |
| `TaskHistory.StepTracks` | stats.c:15-50 | One step moves every task along both automata |
| `RoundRobin.DispatchOrder` | sched.c:202-215 | The i-th dispatch of a run goes to the i-th task of the ready queue, whatever happens in between |
| `RoundRobin.BoundedWaiting` | sched.c:149-169 | After max(1, remaining ticks) of the running task plus max(1, quantum) of each task ahead, the i-th ready task has been dispatched |
| `RoundRobin.StepQueue` | sched.c:180-200 | One step takes at most the head of the ready queue and otherwise only appends |
| `Quanta.QuantumExact` | sched.c:149-169 | Over every run: a tick takes the CPU from a task iff it is the max(1, quantum)-th since the last dispatch, and the task goes to the end of the ready queue; from idle a tick dispatches a ready task iff there is one |
| `Quanta.ReachableSlices` | sched.c:149-169 | From boot every slice has 100 ticks, and between ticks the CPU changes hands only by an exit or a wait at count 0 |
| `Quanta.StepCpu` | sched.c:202-215 | Exactly which entries end with a dispatch, of whoever then runs, with `current_ticks` at 0; all others leave the CPU alone |
| `Quanta.ReachableLeft` | stats.c:15-24 | Over every run from boot a live task's remaining ticks are 100 less the ticks it had on the CPU since its last dispatch, preemption or birth |
| `Stats.TimeConserved` | stats.c:15-50 | Any accepted events: the four buckets grow by exactly the time that passes, modulo 2^32 |
| `Stats.TimeSinceBirth` | stats.c:15-50 | From birth the four buckets add up to the last event's time minus the birth tick, modulo 2^32 |
| `Stats.BucketsExact` | stats.c:15-50 | For events in automaton order each bucket holds the time spent in its state |
| `Stats.KernelTimesExact` | entry.S:82-106 | The kernel's own events over any run are such events, so each bucket of every task is exact |
| `StatsRuns.TransExact` | stats.c:32-34 | Any calls: `total_trans` grows by the number of READY_TO_SYS events, modulo 2^32 |
| `StatsRuns.TransSinceBirth` | stats.c:32-34 | From birth it is that number |
| `StatsRuns.RunPaired` | sched.c:210-212 | Over any run of the kernel the READY_TO_SYS events of a task are as many as its dispatches |
| `StatsRuns.KernelStatsExact` | stats.c:15-50 | Over any run of the kernel, in the record: `total_trans` grows by the number of dispatches of the task, and `remaining_ticks` is its quantum less what it has used of its slice |
| `StatsRuns.BirthFits` | sys.c:62-69 | A child's record and state at birth are where that theorem starts |
| `Stats.TaskStats.UpdateStats` | stats.c:5-50 | In place, every event; `StatsRuns.TransExact` and `StatsRuns.KernelStatsExact` pin the two counters, `Stats.BucketsExact` the times |
| `Stats.TaskStats.Birth` | stats.c:5-20 | `reset_stats` and the first event, whatever was in the record: all buckets zero, the clock of the record at the birth |
| `KList.Link` | list.c:17-24 | Insertion between two neighbours of a circle gives the circle with the node at that place |
| `KList.Unlink` | list.c:58-73 | Deletion closes the circle and nulls the node's links |
| `KList.Family.Init` | list.c:6-9 | The head becomes an empty list; all other lists unchanged |
| `KList.Family.Add` | list.c:34-36 | The one list gets a new first element; all others unchanged |
| `KList.Family.AddTail` | list.c:47-49 | The one list gets a new last element; all others unchanged |
| `KList.Family.Del` | list.c:69-73 | The one list loses the element; all others unchanged; the node's links are null |
| `KList.Family.Empty` | list.c:89-91 | True iff the sequence is empty |
| `KList.Family.First` | include/list.h:127-129 | The first element, or the head of an empty list |
| `KList.Family.After` | include/list.h:120-121 | The successor of an element, the head after the last |
| `KList.Family.LinkedIffHome` | sched.c:181-183 | A node's links are non-null iff it is on a list |
| `KList.Family.MoveAll` | include/list.h:120-121 | Safe traversal that moves each node elsewhere ends, empties the source and appends its elements in order |
| `Layout.ViewSet` | include/list.h:4-7 | Changing one linked list changes exactly the abstract queue it stands for |
| `Kernel.Kernel.Enter` | entry.S:74-107 | Every kernel entry on linked memory makes the step of the state machine, logs its events in order and keeps the invariant |
| `Kernel.Kernel.UpdateProcessState` | sched.c:180-200 | The task leaves the list it is on, at whatever position, and joins the head or the tail of the destination or takes the CPU, with the matching state |
| `Kernel.Kernel.AddToScheduling` | sched.c:171-174 | To the head or the tail of the ready queue, with the accounting event |
| `Kernel.Kernel.UpdateStats` | stats.c:15-24 | The remaining ticks after an event |
| `Kernel.Kernel.NeedsSchedRr` | sched.c:165-169 | With the remaining ticks up to date: idle with work waiting, or `current_ticks` has reached the quantum |
| `Kernel.Kernel.ExecuteScheduling` | sched.c:149-158 | Ages the running task and switches iff this tick ends the slice, or idle runs and somebody is ready |
| `Kernel.Kernel.ClockHandler` | interrupt.c:82-96 | The clock interrupt is the tick of the state machine; `current_ticks` grows by one or, when the slice ends, goes back to 0 |
| `Kernel.Kernel.SchedNextRr` | sched.c:202-215 | Dispatch on linked queues |
| `Kernel.Kernel.AllocateProcess` | sched.c:41-62 | The first free PCB leaves the free queue with a new PID and fresh fields |
| `Kernel.Kernel.SysSpawn` | sys.c:62-120 | Fork and clone, scheduling side: -EAGAIN iff no PCB is free, otherwise the PID of the one new task |
| `Kernel.Kernel.SemInitCall` | sys.c:218-238 | Both refusals and the creation on linked lists |
| `Kernel.Kernel.SysSemWait` | sys.c:240-264 | All four outcomes on linked lists |
| `Kernel.Kernel.Resumed` | sys.c:255-258 | What a resumed task still does; a waiter returns -1 iff marked and the mark is cleared |
| `Kernel.Kernel.SemSignalCall` | sys.c:266-284 | Refusal, count, or hand-off to the first waiter |
| `Kernel.Kernel.SemDestroyCall` | sys.c:286-311 | Refusals and the destruction with its traversal; `SysSemDestroy` answers 0 to the owner only |
| `Kernel.Kernel.WakeWaiters` | sys.c:304-308 | The traversal that unlinks what it visits ends, and wakes every waiter once, in order |
| `Kernel.Kernel.FreeSemaphores` | sys.c:313-320 | The traversal of the owned semaphores, each round unlinking the visited node, ends and destroys each once |
| `Kernel.Kernel.SysExit` | sys.c:40-43 | Exit on linked lists, scheduling side |
| `Kernel.Kernel.GetStatsCall` | sys.c:144-168 | The search for the PID, its refusals and the refresh |
| `Kernel.Kernel.FreeAllTasks` | sched.c:121-123 | The loop of `init_sched` fills the free queue in order |
| `Kernel.Kernel.StartTasks` | sched.c:93-113 | Idle and task 1 as after boot, with the invariant |
| `KernelParts.ExecutedTick` | sched.c:149-158 | The clock routine's parts, in order, make up the tick |
| `KernelParts.GoodNext` | sched.c:202-210 | Whenever the scheduler looks for the next task, idle is on no queue and the task found is live |

## Left out

- Boot sector, GDT, IDT, TSS, ports, screen, keyboard controller: hardware plumbing.
- Register saving, kernel stacks and `copy_process_stack`: a switch is modelled as a change of the current task, a resume point and the directory.
- The keyboard path (keyboard.c, `sys_read`): it can put a task at the head of the ready queue, so dispatch order would not hold; it is not part of this model.
- `sys_write`: its chunk size uses the total size instead of the rest (sys.c:186).
- `access_ok` for ranges of more than one byte.
- The pointer checks of `sys_clone` and `sys_get_stats` (EFAULT), and copying the statistics to the user buffer.
- Kernel stores to user buffers (sys.c:136, sys.c:163): paging is enabled without write protection for the kernel (mm.c:128-132), so they do not fault on shared pages; the refinement is about user-mode accesses.
- After the exit of a thread that leaves its heap in a shared directory the frame books are wrong (`Threads.ExitKeepsIff`); what later steps do then is not modelled as a run.
- The machine of memory alone leaves open which PCB a fork takes and which task runs next, so its theorems hold for every schedule; `Machine` takes both from the scheduler. The in-place classes `Processes` and `Kernel` are not joined into one class.
- Wrap-around of PIDs is not modelled; `SchedBoot.ReachablePids` says how many tasks a run may create before it matters.
- Semaphore and task numbers stand for addresses (`list_entry` arithmetic), and page-table entries are records.
- `set_quantum`: no system call reaches it, so quanta only change by inheritance.
- Idle is exempt from state agreement and from the accounting automaton: its state stays ST_RUN after it is preempted.
- libc, `perror`, `itoa`, `strlen`, `check_fd`, `sys_getpid`, `sys_gettime`: they would only add easy members.
- BootCode.SetUserPages: requires that the allocations succeed, which the source does not check; `Boot.BootInv` proves it at boot.
- Kernel.Kernel.constructor: the records of static storage start out as free tasks and unused semaphores; `init_sched` writes them before anything reads them.
- Kernel.Kernel.UpdateStats: models the remaining ticks only; the time buckets are in `Stats`.
- Kernel.Kernel.AllocateProcess: leaves out the page directory, which `Processes.Processes.AllocateDir` models.
- Kernel.Kernel.SysSpawn: leaves out the page directory, which `Processes.Processes.Fork` and `Processes.Processes.Clone` model, and the pointer checks of clone.
- Kernel.Kernel.SysExit: leaves out the page directory, which `Processes.Processes.Exit` models.
- Kernel.Kernel.GetStatsCall: leaves out the buffer checks and the copy to the user.
- Processes.Processes.AllocateDir: `free_dirs` is a sequence, its list links are not modelled; the linked-list refinement is carried out for the scheduler's lists.
- Processes.Processes.FreeDir: `free_dirs` is a sequence here too.
