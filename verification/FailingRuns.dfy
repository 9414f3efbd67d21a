/**
 Runs of the whole kernel from boot in which a property of memory fails: PCBs come from the free queue
 and the CPU changes hands through semaphore 0.
 */
module FailingRuns {
  import opened Basics
  import opened Mm
  import opened AddressSpace
  import opened VmInvariant
  import opened UserCode
  import opened ForkProof
  import opened ExitProof
  import opened Threads
  import Sched
  import SchedInvariant
  import SchedBoot
  import Runs
  import opened Machine
  import opened MachineBoot
  import opened Schedule
  import opened Boot
  import opened SbrkProof
  import opened Isolation
  import opened Breaks
  import opened StrayRun
  import opened StrayBooks

  // ---------------------------------------------------------------- proper entries

  ghost predicate Takes(mc: Machine, e: Entry, mc': Machine) {
    Inv(mc) && May(mc, e) && Proper(mc, e) && Next(mc, e) == Some(mc')
  }

  ghost predicate At(mc: Machine, cur: nat, free: seq<nat>, ready: seq<nat>, waiting: seq<nat>) {
    Inv(mc) && Where(mc.s, cur, free, ready, waiting) && cur != 0
  }

  lemma TakesKeeps(mc: Machine, e: Entry, mc': Machine)
    requires Takes(mc, e, mc')
    ensures Inv(mc')
  {
    hide Inv, May, Proper, Next;
    EntryKeeps(mc, e);
  }

  lemma TakesFork(mc: Machine, cur: nat, free: seq<nat>, ready: seq<nat>, waiting: seq<nat>) returns (mc': Machine)
    requires At(mc, cur, free, ready, waiting) && free != []
    ensures Takes(mc, Entry.Fork, mc') && At(mc', cur, free[1..], ready + [free[0]], waiting)
    ensures OnCpu(mc.vm) && mc.vm.cur == cur && free[0] < NR_TASKS && free[0] != cur
    ensures AddressSpace.Fork(mc.vm, free[0]) == Some(mc'.vm)
  {
    hide SchedInvariant.SInv, VmInv, Sched.Step, AddressSpace.Fork, Wf;
    SpawnWhere(mc.s, cur, free, ready, waiting);
    EntryEnabled(mc, Entry.Fork);
    assert Runs.DoFork(free[0]) in MemOps(mc, Entry.Fork);
    ForkBooks(mc.vm, free[0]);
    mc' := Next(mc, Entry.Fork).value;
    hide Inv, Where;
    TakesKeeps(mc, Entry.Fork, mc');
  }

  lemma SbrkEntry(mc: Machine, increment: I32) returns (mc': Machine)
    requires Inv(mc) && mc.s.cur != mc.s.idle
    ensures Takes(mc, Entry.Sbrk(increment), mc') && Inv(mc')
    ensures OnCpu(mc.vm) && mc' == Machine(mc.s, AddressSpace.Sbrk(mc.vm, increment).0)
  {
    hide SchedInvariant.SInv, VmInv, AddressSpace.Sbrk, Wf;
    EntryEnabled(mc, Entry.Sbrk(increment));
    mc' := Next(mc, Entry.Sbrk(increment)).value;
    TakesKeeps(mc, Entry.Sbrk(increment), mc');
  }

  lemma TakesSbrk(mc: Machine, cur: nat, free: seq<nat>, ready: seq<nat>, waiting: seq<nat>, increment: I32)
    returns (mc': Machine)
    requires At(mc, cur, free, ready, waiting)
    ensures Takes(mc, Entry.Sbrk(increment), mc') && At(mc', cur, free, ready, waiting)
    ensures OnCpu(mc.vm) && mc'.vm == AddressSpace.Sbrk(mc.vm, increment).0
  {
    hide Inv, Takes, AddressSpace.Sbrk;
    mc' := SbrkEntry(mc, increment);
  }

  lemma TakesWait(mc: Machine, cur: nat, free: seq<nat>, ready: seq<nat>, waiting: seq<nat>) returns (mc': Machine)
    requires At(mc, cur, free, ready, waiting) && ready != [] && ready[0] != 0
    ensures Takes(mc, Call(Sched.SysSemWait(0)), mc') && At(mc', ready[0], free, ready[1..], waiting + [cur])
    ensures OnCpu(mc.vm) && Live(mc.vm, ready[0]) && mc'.vm == SwitchTo(mc.vm, ready[0])
  {
    hide SchedInvariant.SInv, VmInv, Sched.Step, SwitchTo, Wf;
    WaitWhere(mc.s, cur, free, ready, waiting);
    EntryEnabled(mc, Call(Sched.SysSemWait(0)));
    assert Runs.DoSwitch(ready[0]) in MemOps(mc, Call(Sched.SysSemWait(0)));
    mc' := Next(mc, Call(Sched.SysSemWait(0))).value;
    TakesKeeps(mc, Call(Sched.SysSemWait(0)), mc');
  }

  /** An entry after which the same task goes on leaves memory alone. */
  lemma TakesQuiet(mc: Machine, op: Sched.Op) returns (mc': Machine)
    requires Inv(mc) && May(mc, Call(op)) && op != Sched.SysExit && Sched.Step(mc.s, op).0.cur == mc.s.cur
    ensures Takes(mc, Call(op), mc') && mc' == Machine(Sched.Step(mc.s, op).0, mc.vm) && Inv(mc')
  {
    hide SchedInvariant.SInv, VmInv, Sched.Step, Wf;
    EntryEnabled(mc, Call(op));
    mc' := Next(mc, Call(op)).value;
    TakesKeeps(mc, Call(op), mc');
  }

  lemma TakesSignal(mc: Machine, cur: nat, free: seq<nat>, ready: seq<nat>, waiting: seq<nat>) returns (mc': Machine)
    requires At(mc, cur, free, ready, waiting) && waiting != []
    ensures Takes(mc, Call(Sched.SysSemSignal(0)), mc') && At(mc', cur, free, ready + [waiting[0]], waiting[1..])
    ensures mc'.vm == mc.vm
  {
    hide SchedInvariant.SInv, VmInv, Sched.Step, Wf;
    SignalWhere(mc.s, cur, free, ready, waiting);
    mc' := TakesQuiet(mc, Sched.SysSemSignal(0));
  }

  lemma TakesExit(mc: Machine, cur: nat, free: seq<nat>, ready: seq<nat>, waiting: seq<nat>) returns (mc': Machine)
    requires At(mc, cur, free, ready, waiting) && cur != 1 && ready != [] && ready[0] != 0 && !LeavesHeap(mc.vm)
    ensures Takes(mc, Call(Sched.SysExit), mc') && At(mc', ready[0], free, ready[1..], waiting)
    ensures OnCpu(mc.vm) && Live(mc.vm, ready[0]) && ready[0] != mc.vm.cur
    ensures mc'.vm == AddressSpace.Exit(mc.vm, ready[0])
  {
    hide SchedInvariant.SInv, VmInv, Sched.Step, AddressSpace.Exit, Wf, LeavesHeap;
    ExitWhere(mc.s, cur, free, ready, waiting);
    EntryEnabled(mc, Call(Sched.SysExit));
    assert Runs.DoExit(ready[0]) in MemOps(mc, Call(Sched.SysExit));
    mc' := Next(mc, Call(Sched.SysExit)).value;
    TakesKeeps(mc, Call(Sched.SysExit), mc');
  }

  /** Task 1 creates semaphore 0. */
  lemma TakesInit(mc: Machine) returns (mc': Machine)
    requires Inv(mc) && mc.s == SchedBoot.Booted()
    ensures Takes(mc, Call(Sched.SysSemInit(0, 0)), mc') && At(mc', 1, [2, 3, 4], [], []) && mc'.vm == mc.vm
  {
    hide SchedInvariant.SInv, VmInv, Sched.Step, Wf, SchedBoot.Booted, Linked, Takes;
    InitWhere();
    mc' := TakesQuiet(mc, Sched.SysSemInit(0, 0));
  }

  // ---------------------------------------------------------------- runs

  ghost predicate Ends(mc: Machine, es: seq<Entry>, w: Machine) {
    Inv(mc) && AllMay(mc, es) && Run(mc, es) == Some(w)
  }

  lemma {:induction false} EndsNext(mc0: Machine, es: seq<Entry>, mc: Machine, e: Entry, mc': Machine)
    requires Ends(mc0, es, mc) && Takes(mc, e, mc')
    ensures Ends(mc0, es + [e], mc')
    decreases |es|
  {
    hide Inv, May, Proper, Next;
    if es == [] {
      assert es + [e] == [e] && [e][1..] == [];
      TakesKeeps(mc, e, mc');
      assert AllMay(mc', []) && Run(mc', []) == Some(mc');
    } else {
      assert (es + [e])[1..] == es[1..] + [e] && (es + [e])[0] == es[0];
      EntryKeeps(mc0, es[0]);
      EndsNext(Next(mc0, es[0]).value, es[1..], mc, e, mc');
    }
  }

  /** The run takes its entry number `k`. */
  lemma EndsStep(mc0: Machine, es: seq<Entry>, k: nat, mc: Machine, mc': Machine)
    requires k < |es| && Ends(mc0, es[..k], mc) && Takes(mc, es[k], mc')
    ensures Ends(mc0, es[..k + 1], mc')
  {
    hide Ends, Takes;
    EndsNext(mc0, es[..k], mc, es[k], mc');
    assert es[..k] + [es[k]] == es[..k + 1];
  }

  // ---------------------------------------------------------------- a store into the page of another task

  /**
   Task 2 takes two pages of heap and exits; task 1 forks task 3, takes two pages in its turn and lets
   task 3 run.
   */
  function StrayEntries(): (es: seq<Entry>) {
    [Call(Sched.SysSemInit(0, 0)), Entry.Fork, Call(Sched.SysSemWait(0)), Entry.Sbrk(TWO_PAGES),
     Call(Sched.SysSemSignal(0)), Call(Sched.SysExit),
     Entry.Fork, Entry.Sbrk(TWO_PAGES), Call(Sched.SysSemWait(0))]
  }

  lemma StrayFirst(mc0: Machine, mc: Machine, vm1: Vm, vm2: Vm, vm3: Vm, vm4: Vm) returns (mc': Machine)
    requires Ends(mc0, StrayEntries()[..1], mc) && At(mc, 1, [2, 3, 4], [], []) && Dies(mc.vm, vm1, vm2, vm3, vm4)
    ensures Ends(mc0, StrayEntries()[..6], mc') && At(mc', 1, [3, 4], [], []) && mc'.vm == vm4
  {
    hide VmInv, Ends, Takes, At, AddressSpace.Fork, SwitchTo, AddressSpace.Sbrk, AddressSpace.Exit, Wf, LeavesHeap;
    var es := StrayEntries();
    var mc1 := TakesFork(mc, 1, [2, 3, 4], [], []);
    EndsStep(mc0, es, 1, mc, mc1);
    assert [2, 3, 4][1..] == [3, 4] && [] + [2] == [2];
    var mc2 := TakesWait(mc1, 1, [3, 4], [2], []);
    EndsStep(mc0, es, 2, mc1, mc2);
    assert [2][1..] == [] && [] + [1] == [1];
    var mc3 := TakesSbrk(mc2, 2, [3, 4], [], [1], TWO_PAGES);
    EndsStep(mc0, es, 3, mc2, mc3);
    var mc4 := TakesSignal(mc3, 2, [3, 4], [], [1]);
    EndsStep(mc0, es, 4, mc3, mc4);
    assert [1][1..] == [];
    mc' := TakesExit(mc4, 2, [3, 4], [1], []);
    EndsStep(mc0, es, 5, mc4, mc');
  }

  lemma StraySecond(mc0: Machine, mc: Machine, vm1: Vm, vm2: Vm, vm3: Vm) returns (mc': Machine)
    requires Ends(mc0, StrayEntries()[..6], mc) && At(mc, 1, [3, 4], [], []) && Overlaps(mc.vm, vm1, vm2, vm3)
    ensures Ends(mc0, StrayEntries(), mc') && mc'.vm == vm3
  {
    hide VmInv, Ends, Takes, At, AddressSpace.Fork, SwitchTo, AddressSpace.Sbrk, Wf;
    var es := StrayEntries();
    var mc1 := TakesFork(mc, 1, [3, 4], [], []);
    EndsStep(mc0, es, 6, mc, mc1);
    assert [3, 4][1..] == [4] && [] + [3] == [3];
    var mc2 := TakesSbrk(mc1, 1, [4], [3], [], TWO_PAGES);
    EndsStep(mc0, es, 7, mc1, mc2);
    mc' := TakesWait(mc2, 1, [4], [3], []);
    EndsStep(mc0, es, 8, mc2, mc');
    assert es[..9] == es;
  }

  /**
   From boot, whatever was in memory. The run is proper, so the invariant holds at its end. There task 3
   stores to page 510, which is not part of its address space. The store gets through, reaches an owned
   frame, and changes the byte of task 1's heap page.
   */
  lemma StrayStoreFromBoot(ram: seq<Page>, g0: nat, g1: nat, v: Byte)
    requires |ram| == TOTAL_PAGES
    ensures var mc := BootMachine(ram, g0, g1);
      && AllMay(mc, StrayEntries()) && Run(mc, StrayEntries()).Some?
      && StrayChange(Run(mc, StrayEntries()).value.vm, 510 * PAGE_SIZE, v, Slot(8, 510))
  {
    var mc0 := BootMachine(ram, g0, g1);
    BootBefore(ram, g0, g1);
    hide BootState, BootMachine, BeforeFork, VmInv, Inv, Dies, Overlaps, StrayEntries, At, StrayChange;
    var mc := FirstEntry(mc0, StrayEntries());
    var vm1, vm2, vm3, vm4 := DiesFrom(mc.vm, 7);
    var mc1 := StrayFirst(mc0, mc, vm1, vm2, vm3, vm4);
    var u1, u2, u3 := OverlapsFrom(vm4, 7);
    var w := StraySecond(mc0, mc1, u1, u2, u3);
    OverlapChanges(w.vm, 7, 8, v);
  }

  lemma FirstEntry(mc0: Machine, es: seq<Entry>) returns (mc: Machine)
    requires Inv(mc0) && mc0.s == SchedBoot.Booted() && es != [] && es[0] == Call(Sched.SysSemInit(0, 0))
    ensures Ends(mc0, es[..1], mc) && At(mc, 1, [2, 3, 4], [], []) && mc.vm == mc0.vm
  {
    hide SchedInvariant.SInv, VmInv, SchedBoot.Booted, Takes, At, Linked;
    mc := TakesInit(mc0);
    assert Ends(mc0, es[..0], mc0);
    EndsStep(mc0, es, 0, mc0, mc);
  }

  // ---------------------------------------------------------------- a store that spoils the frame books

  /**
   Task 2 takes two pages of heap, forks task 3 and exits; task 3 lets task 1 run, which forks task 4 and
   lets it take one page of heap.
   */
  function SpoilEntries(): (es: seq<Entry>) {
    [Call(Sched.SysSemInit(0, 0)), Entry.Fork, Call(Sched.SysSemWait(0)), Entry.Sbrk(TWO_PAGES), Entry.Fork,
     Call(Sched.SysSemSignal(0)), Call(Sched.SysExit), Call(Sched.SysSemWait(0)),
     Entry.Fork, Call(Sched.SysSemWait(0)), Entry.Sbrk(ONE_PAGE)]
  }

  lemma SpoilFirst(mc0: Machine, mc: Machine, vm1: Vm, vm2: Vm, vm3: Vm, vm4: Vm, vm5: Vm, vm6: Vm)
    returns (mc': Machine)
    requires Ends(mc0, SpoilEntries()[..1], mc) && At(mc, 1, [2, 3, 4], [], [])
    requires Splits(mc.vm, vm1, vm2, vm3, vm4, vm5, vm6)
    ensures Ends(mc0, SpoilEntries()[..8], mc') && At(mc', 1, [4], [], [3]) && mc'.vm == vm6
  {
    hide VmInv, Ends, Takes, At, AddressSpace.Fork, SwitchTo, AddressSpace.Sbrk, AddressSpace.Exit, Wf, LeavesHeap;
    var es := SpoilEntries();
    var mc1 := TakesFork(mc, 1, [2, 3, 4], [], []);
    EndsStep(mc0, es, 1, mc, mc1);
    assert [2, 3, 4][1..] == [3, 4] && [] + [2] == [2];
    var mc2 := TakesWait(mc1, 1, [3, 4], [2], []);
    EndsStep(mc0, es, 2, mc1, mc2);
    assert [2][1..] == [] && [] + [1] == [1];
    var mc3 := TakesSbrk(mc2, 2, [3, 4], [], [1], TWO_PAGES);
    EndsStep(mc0, es, 3, mc2, mc3);
    var mc4 := TakesFork(mc3, 2, [3, 4], [], [1]);
    EndsStep(mc0, es, 4, mc3, mc4);
    assert [3, 4][1..] == [4] && [] + [3] == [3];
    var mc5 := TakesSignal(mc4, 2, [4], [3], [1]);
    EndsStep(mc0, es, 5, mc4, mc5);
    assert [1][1..] == [] && [3] + [1] == [3, 1];
    var mc6 := TakesExit(mc5, 2, [4], [3, 1], []);
    EndsStep(mc0, es, 6, mc5, mc6);
    assert [3, 1][1..] == [1];
    mc' := TakesWait(mc6, 3, [4], [1], []);
    EndsStep(mc0, es, 7, mc6, mc');
  }

  lemma SpoilSecond(mc0: Machine, mc: Machine, vm1: Vm, vm2: Vm, vm3: Vm) returns (mc': Machine)
    requires Ends(mc0, SpoilEntries()[..8], mc) && At(mc, 1, [4], [], [3]) && Readies(mc.vm, vm1, vm2, vm3)
    ensures Ends(mc0, SpoilEntries(), mc') && mc'.vm == vm3
  {
    hide VmInv, Ends, Takes, At, AddressSpace.Fork, SwitchTo, AddressSpace.Sbrk, Wf;
    var es := SpoilEntries();
    var mc1 := TakesFork(mc, 1, [4], [], [3]);
    EndsStep(mc0, es, 8, mc, mc1);
    assert [4][1..] == [] && [] + [4] == [4];
    var mc2 := TakesWait(mc1, 1, [], [4], [3]);
    EndsStep(mc0, es, 9, mc1, mc2);
    mc' := TakesSbrk(mc2, 4, [], [], [3] + [1], ONE_PAGE);
    EndsStep(mc0, es, 10, mc2, mc');
    assert es[..11] == es;
  }

  /**
   From boot, whatever was in memory. The run is proper, so the invariant holds at its end. There a store
   of task 4 to page 510 gets through, reaches a page of task 3, and leaves wrong frame books.
   */
  lemma SpoiledBooksFromBoot(ram: seq<Page>, g0: nat, g1: nat, v: Byte)
    requires |ram| == TOTAL_PAGES
    ensures var mc := BootMachine(ram, g0, g1);
      && AllMay(mc, SpoilEntries()) && Run(mc, SpoilEntries()).Some?
      && Spoils(Run(mc, SpoilEntries()).value.vm, 510 * PAGE_SIZE, v)
  {
    var mc0 := BootMachine(ram, g0, g1);
    BootBefore(ram, g0, g1);
    hide BootState, BootMachine, BeforeFork, VmInv, Inv, Splits, Readies, SpoilEntries, At, Spoils, Abandoned, Ready;
    var mc := FirstEntry(mc0, SpoilEntries());
    var vm1, vm2, vm3, vm4, vm5, vm6, e := SplitsFrom(mc.vm, 7);
    var mc1 := SpoilFirst(mc0, mc, vm1, vm2, vm3, vm4, vm5, vm6);
    var u1, u2, u3 := ReadiesFrom(vm6, 8, 7, e);
    var w := SpoilSecond(mc0, mc1, u1, u2, u3);
    ReadySpoils(w.vm, 8, 7, e, v);
  }

  // ---------------------------------------------------------------- a process that leaves its heap to a thread

  /** Task 1 takes one page of heap and clones a thread. */
  function CloneEntries(): (es: seq<Entry>) {
    [Entry.Sbrk(ONE_PAGE), Entry.Clone]
  }

  lemma CloneEntry(mc: Machine) returns (mc': Machine)
    requires Inv(mc) && mc.s == SchedBoot.Booted()
    ensures Takes(mc, Entry.Clone, mc') && Inv(mc')
    ensures OnCpu(mc.vm) && mc.vm.dirOf[2].None? && mc'.vm == AddressSpace.Clone(mc.vm, 2)
    ensures mc'.s.cur == 1 && mc'.s.idle == 0 && mc'.s.ready == [2] && mc'.s.tasks[1].sems == []
  {
    hide SchedInvariant.SInv, VmInv, Wf;
    assert mc.s.freeq[0] == 2;
    EntryEnabled(mc, Entry.Clone);
    assert Runs.DoClone(2) in MemOps(mc, Entry.Clone);
    mc' := Next(mc, Entry.Clone).value;
    TakesKeeps(mc, Entry.Clone, mc');
  }

  lemma ExitEntry(mc: Machine)
    requires Inv(mc) && mc.s.cur == 1 && mc.s.idle == 0 && mc.s.ready == [2] && mc.s.tasks[1].sems == []
    ensures May(mc, Call(Sched.SysExit)) && Live(mc.vm, 2) && mc.vm.cur == 1
    ensures Next(mc, Call(Sched.SysExit)) ==
      Some(Machine(Sched.Step(mc.s, Sched.SysExit).0, AddressSpace.Exit(mc.vm, 2)))
  {
    hide SchedInvariant.SInv, VmInv, Wf, Sched.Step, AddressSpace.Exit;
    ExitNext(mc.s);
    EntryEnabled(mc, Call(Sched.SysExit));
    assert Runs.DoExit(2) in MemOps(mc, Call(Sched.SysExit));
  }

  /** With one page of heap the clone and the exit leave a mapped page that nobody owns. */
  lemma CloneLeaks(vm: Vm)
    requires BeforeFork(vm, TASK2)
    ensures var vm1 := AddressSpace.Sbrk(vm, ONE_PAGE).0;
      && OnCpu(vm1) && vm1.dirOf == vm.dirOf && vm1.cur == TASK1 && OnCpu(AddressSpace.Clone(vm1, TASK2))
      && Live(AddressSpace.Clone(vm1, TASK2), TASK2)
      && !VmInv(AddressSpace.Exit(AddressSpace.Clone(vm1, TASK2), TASK2))
  {
    assert !vm.m.used[SPARE];
    hide VmInv, Wf, SoleHeap, TakenSoFar, AddressSpace.Sbrk, AddressSpace.Exit;
    OnePage(vm);
    hide AddressSpace.Clone;
    CloneThenExitIff(AddressSpace.Sbrk(vm, ONE_PAGE).0, TASK2);
  }

  /** The running task may exit, and the memory invariant does not survive it. */
  ghost predicate ExitBreaks(mc: Machine)
    requires Inv(mc)
  {
    && May(mc, Call(Sched.SysExit)) && Next(mc, Call(Sched.SysExit)).Some?
    && !VmInv(Next(mc, Call(Sched.SysExit)).value.vm)
  }

  /** From boot: the invariant holds after these two entries, and the exit of task 1 breaks it. */
  lemma CloneExitFromBoot(ram: seq<Page>, g0: nat, g1: nat)
    requires |ram| == TOTAL_PAGES
    ensures var mc := BootMachine(ram, g0, g1);
      && AllMay(mc, CloneEntries()) && Run(mc, CloneEntries()).Some?
      && ExitBreaks(Run(mc, CloneEntries()).value)
  {
    var mc0 := BootMachine(ram, g0, g1);
    BootBefore(ram, g0, g1);
    hide BootState, BootMachine, BeforeFork, VmInv, Inv;
    var w := CloneRun(mc0);
  }

  lemma CloneRun(mc0: Machine) returns (w: Machine)
    requires Inv(mc0) && mc0.s == SchedBoot.Booted() && BeforeFork(mc0.vm, TASK2)
    ensures Ends(mc0, CloneEntries(), w) && ExitBreaks(w)
  {
    CloneLeaks(mc0.vm);
    hide VmInv, Inv, BeforeFork, AddressSpace.Sbrk, AddressSpace.Exit, AddressSpace.Clone, Takes, May, Next;
    var mc1 := SbrkEntry(mc0, ONE_PAGE);
    w := CloneEntry(mc1);
    ExitEntry(w);
    CloneSteps(mc0, mc1, w);
  }

  lemma CloneSteps(mc0: Machine, mc1: Machine, w: Machine)
    requires Takes(mc0, Entry.Sbrk(ONE_PAGE), mc1) && Takes(mc1, Entry.Clone, w)
    ensures Ends(mc0, CloneEntries(), w)
  {
    hide Inv, May, Proper, Next;
    var es := CloneEntries();
    assert Ends(mc0, es[..0], mc0);
    hide Ends, Takes;
    EndsStep(mc0, es, 0, mc0, mc1);
    EndsStep(mc0, es, 1, mc1, w);
    assert es[..2] == es;
  }

  // ---------------------------------------------------------------- an answer of sbrk that is not the task's memory

  /** The last byte of page 510. */
  const BELOW := 0x1F_EFFF

  /** Task 1 asks for one byte of heap and then for the rest of the page. */
  function FillEntries(): (es: seq<Entry>) {
    [Entry.Sbrk(1), Entry.Sbrk(4095)]
  }

  lemma OneByteRoom(vm: Vm)
    requires OnCpu(vm) && vm.heapTop[vm.cur] == HEAP_START
    requires !vm.m.pt[Slot(vm.m.cr3, 511)].present && !vm.m.used[SPARE]
    ensures !NoRoom(vm, HEAP_START - 1)
  {
    hide Wf;
    assert HeapPageSize(HEAP_START) == 0 && HeapPageSize(HEAP_START - 1) == 1;
    assert HeapPages(0, 1)[0] == 511;
    assert SPARE in FreeFrameSet(vm.m);
  }

  lemma FirstByte(vm: Vm)
    requires BeforeFork(vm, TASK2) && Sealed(vm)
    ensures CanSbrk(vm) && vm.cur == TASK1
    ensures var (vm1, r) := AddressSpace.Sbrk(vm, 1);
      && r == HEAP_START && CanSbrk(vm1) && Sealed(vm1) && vm1.heapTop[vm1.cur] == HEAP_START - 1 && vm1.cur == TASK1
  {
    assert !vm.m.used[SPARE];
    assert CanSbrk(vm) && OnCpu(vm);
    OneByteRoom(vm);
    hide VmInv, Wf, SoleHeap, TakenSoFar, NoRoom, AddressSpace.Sbrk, Sealed;
    SbrkFailsExactly(vm, 1);
    SbrkAnswers(vm, 1);
    GrownMeansSole(vm, 1);
    GrownSole(vm, 1);
    SbrkSealed(vm, 1);
    assert HeapPageSize(HEAP_START) == 0 && HeapPageSize(HEAP_START - 1) == 1;
    hide HeapPageSize, HeapByte;
  }

  lemma SameSizeRoom(vm: Vm)
    requires OnCpu(vm) && vm.heapTop[vm.cur] == HEAP_START - 1
    ensures !NoRoom(vm, BELOW) && !AddsPages(HEAP_START - 1, BELOW)
  {
    hide Wf;
    assert HeapPageSize(HEAP_START - 1) == 1 && HeapPageSize(BELOW) == 1;
  }

  /** The rest of the page: the answer is on page 510, which is not the task's. */
  lemma RestOfPage(vm: Vm)
    requires CanSbrk(vm) && Sealed(vm) && vm.heapTop[vm.cur] == HEAP_START - 1 && vm.cur == TASK1
    ensures var (vm2, r) := AddressSpace.Sbrk(vm, 4095);
      r == BELOW && VmInv(vm2) && Sealed(vm2) && UserTask(vm2, vm2.cur) && !SpacePage(vm2, BELOW / PAGE_SIZE)
  {
    SameSizeRoom(vm);
    hide VmInv, Wf, NoRoom, AddressSpace.Sbrk, Sealed, UserTask;
    SbrkFailsExactly(vm, 4095);
    SbrkAnswers(vm, 4095);
    GrownMeansSole(vm, 4095);
    GrownSole(vm, 4095);
    SbrkSealed(vm, 4095);
    NewBytes(vm, 4095);
    SoleIsUser(AddressSpace.Sbrk(vm, 4095).0, vm.cur);
  }

  /** A store to the answer of the second call never returns. */
  ghost predicate StoreHangs(mc: Machine, v: Byte)
    requires Inv(mc)
  {
    May(mc, UserStore(BELOW, v)) && Next(mc, UserStore(BELOW, v)).None?
  }

  lemma HangsAt(mc: Machine, v: Byte)
    requires Inv(mc) && mc.s.cur != mc.s.idle && Sealed(mc.vm) && UserTask(mc.vm, mc.vm.cur)
    requires !SpacePage(mc.vm, BELOW / PAGE_SIZE)
    ensures StoreHangs(mc, v)
  {
    hide SchedInvariant.SInv, VmInv, Wf, Touch, Sealed, UserTask, SpacePage;
    OutsideHalts(mc.vm, BELOW, true);
    EntryEnabled(mc, UserStore(BELOW, v));
  }

  lemma FillRun(mc0: Machine, v: Byte) returns (mc1: Machine, w: Machine)
    requires Inv(mc0) && mc0.s == SchedBoot.Booted() && BeforeFork(mc0.vm, TASK2) && Sealed(mc0.vm)
    ensures Ends(mc0, FillEntries()[..1], mc1) && Ends(mc0, FillEntries(), w)
    ensures OnCpu(mc1.vm) && AddressSpace.Sbrk(mc1.vm, 4095) == (w.vm, BELOW)
    ensures Inv(w) && StoreHangs(w, v)
  {
    FirstByte(mc0.vm);
    hide VmInv, Inv, BeforeFork, AddressSpace.Sbrk, Takes, May, Next, Sealed, SchedInvariant.SInv;
    mc1 := SbrkEntry(mc0, 1);
    RestOfPage(mc1.vm);
    w := SbrkEntry(mc1, 4095);
    HangsAt(w, v);
    FillSteps(mc0, mc1, w);
  }

  lemma FillSteps(mc0: Machine, mc1: Machine, w: Machine)
    requires Takes(mc0, Entry.Sbrk(1), mc1) && Takes(mc1, Entry.Sbrk(4095), w)
    ensures Ends(mc0, FillEntries()[..1], mc1) && Ends(mc0, FillEntries(), w)
  {
    hide Inv, May, Proper, Next;
    var es := FillEntries();
    assert Ends(mc0, es[..0], mc0);
    hide Ends, Takes;
    EndsStep(mc0, es, 0, mc0, mc1);
    EndsStep(mc0, es, 1, mc1, w);
    assert es[..2] == es;
  }

  /**
   From boot: `sbrk(1)` and `sbrk(4095)` both succeed, the second answers with an address on page 510, and
   a store to that address ends in an endless loop of the fault handler.
   */
  lemma BadAnswerFromBoot(ram: seq<Page>, g0: nat, g1: nat, v: Byte)
    requires |ram| == TOTAL_PAGES
    ensures var mc := BootMachine(ram, g0, g1);
      exists mc1, w ::
        && Ends(mc, FillEntries()[..1], mc1) && Ends(mc, FillEntries(), w)
        && OnCpu(mc1.vm) && AddressSpace.Sbrk(mc1.vm, 4095) == (w.vm, BELOW)
        && Inv(w) && StoreHangs(w, v)
  {
    var mc0 := BootMachine(ram, g0, g1);
    BootBefore(ram, g0, g1);
    BootDetails(ram, g0, g1);
    BootSealed(mc0.vm);
    hide BootState, BootMachine, BeforeFork, VmInv, Inv, Sealed;
    var mc1, w := FillRun(mc0, v);
  }
}
