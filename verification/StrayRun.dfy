/**
 How isolation fails. Task 2 dies with a heap of two pages, its directory goes to task 3, and the entry
 left in it lets task 3 write into the heap of task 1. `FailingRuns` has the run from boot.
 */
module StrayRun {
  import opened Basics
  import opened Mm
  import opened Cow
  import opened CowLoops
  import opened AddressSpace
  import opened VmInvariant
  import opened UserCode
  import opened ForkProof
  import opened ExitProof
  import opened SbrkProof
  import opened Boot
  import opened Stray

  // ---------------------------------------------------------------- fork keeps the frames of everybody else

  lemma {:induction false} ShareAllFrames(m: Mem, src: nat, dst: nat, ps: seq<nat>)
    requires Wf(m) && src < NR_TASKS && dst < NR_TASKS && src != dst && InTable(ps)
    ensures forall k :: k in m.pt && k.dir != dst ==> ShareAll(m, src, dst, ps).pt[k].frame == m.pt[k].frame
  {
    if ps != [] {
      ShareAllFrames(m, src, dst, ps[..|ps| - 1]);
    }
  }

  lemma ForkFrames(m: Mem, src: nat, dst: nat, top: int)
    requires Wf(m) && src < NR_TASKS && dst < NR_TASKS && src != dst && 0 <= top <= HEAP_START
    ensures forall k :: k in m.pt && k.dir != dst ==> ForkPages(m, src, dst, top).pt[k].frame == m.pt[k].frame
  {
    hide ShareAll, CopyCode;
    CopyCodeEffect(m, src, dst, NUM_PAG_CODE);
    var m1 := CopyCode(m, src, dst, NUM_PAG_CODE);
    ShareAllFrames(m1, src, dst, DataPages());
    ShareAllFrames(ShareAll(m1, src, dst, DataPages()), src, dst, HeapPages(0, HeapPageSize(top)));
  }

  // ---------------------------------------------------------------- two pages of heap

  const TWO_PAGES := 2 * PAGE_SIZE
  const SECOND_TOP := HEAP_START - TWO_PAGES

  /** With 28 frames taken the next two are 312 and 314. */
  lemma NextTwo(m: Mem)
    requires Wf(m) && TakenSoFar(m.used, 28)
    ensures Reserve(m, 2).1 == [312, 314]
  {
    NextFrame(m, 28);
    TakeNext(m.used, 28);
    var m1 := AllocFrame(m).0;
    NextFrame(m1, 29);
    hide AllocFrame, TakenSoFar, Wf;
    assert Reserve(m, 0) == (m, []);
    assert Reserve(m, 1) == (m1, [] + [312]);
    assert [] + [312] == [312];
  }

  lemma AssignLast(m: Mem, d: nat, ps: seq<nat>, fs: seq<FrameNo>)
    requires Wf(m) && d < NR_TASKS && InTable(ps) && |ps| == |fs| > 0
    ensures AssignAll(m, d, ps, fs).pt[Slot(d, ps[|ps| - 1])] == Pte(true, true, true, fs[|fs| - 1])
  {
  }

  lemma FreeTwo(m: Mem, d: nat)
    requires Wf(m) && d < NR_TASKS && !m.pt[Slot(d, 511)].present && !m.pt[Slot(d, 510)].present
    ensures PagesFree(m, d, HeapPages(0, 2)) && HeapPages(0, 2)[1] == 510
  {
    hide Wf;
    var ps := HeapPages(0, 2);
    assert ps[0] == 511 && ps[1] == 510;
  }

  lemma GrowTwo(m: Mem, d: nat)
    requires Wf(m) && d < NR_TASKS && TakenSoFar(m.used, 28)
    requires !m.pt[Slot(d, 511)].present && !m.pt[Slot(d, 510)].present
    ensures Grow(m, d, 0, 2).Some?
    ensures Grow(m, d, 0, 2).value.pt[Slot(d, 510)] == Pte(true, true, true, 314)
  {
    NextTwo(m);
    FreeTwo(m, d);
    hide TakenSoFar, Reserve, AssignAll, Wf, PagesFree, HeapPages;
    AssignLast(Reserve(m, 2).0, d, HeapPages(0, 2), Reserve(m, 2).1);
  }

  /** A task without a heap gets two pages; the second one is frame 314. */
  lemma TwoPagesSize()
    ensures HeapPageSize(HEAP_START) == 0 && HeapPageSize(SECOND_TOP) == 2
  {
  }

  lemma TwoPages(vm: Vm)
    requires CanMove(vm) && TakenSoFar(vm.m.used, 28) && vm.heapTop[vm.cur] == HEAP_START
    requires !vm.m.pt[Slot(vm.m.cr3, 511)].present && !vm.m.pt[Slot(vm.m.cr3, 510)].present
    ensures var vm' := Sbrk(vm, TWO_PAGES).0;
      && vm' == vm.(m := vm'.m, heapTop := vm.heapTop[vm.cur := SECOND_TOP]) && CanMove(vm') && vm'.m.cr3 == vm.m.cr3
      && vm'.m.pt[Slot(vm.m.cr3, 510)] == Pte(true, true, true, 314)
      && forall k :: k in vm.m.pt && k.dir != vm.m.cr3 ==> vm'.m.pt[k] == vm.m.pt[k]
  {
    GrowTwo(vm.m, vm.m.cr3);
    hide VmInv, SoleHeap, Grow, TakenSoFar, Wf, NewHeapTop, HeapPageSize, Shrink, GrowFailed;
    NewHeapTopExact(HEAP_START, TWO_PAGES);
    TwoPagesSize();
    MoveSucceeds(vm, SECOND_TOP);
    GrowFrame(vm.m, vm.m.cr3, 0, 2);
  }

  // ---------------------------------------------------------------- the steps

  const TASK2 := 2
  const TASK3 := 3

  /** Task 1 runs without a heap, PCB `c` is free, and the page tables above the data are as at boot. */
  ghost predicate BeforeFork(vm: Vm, c: nat) {
    && MayFork(vm, c) && SoleHeap(vm, TASK1) && TakenSoFar(vm.m.used, 28)
    && !vm.m.pt[Slot(vm.m.cr3, 511)].present && !vm.m.pt[Slot(vm.m.cr3, 510)].present
  }

  /** Task 1 runs without a heap and PCB `c` is free. */
  ghost predicate MayFork(vm: Vm, c: nat) {
    && VmInv(vm) && vm.cur == TASK1 && UserTask(vm, TASK1)
    && vm.heapTop[TASK1] == HEAP_START && c < NR_TASKS && vm.dirOf[c].None?
  }

  /** What a fork of task `c` changes, `d` being its directory. */
  ghost predicate Forked(vm: Vm, vm': Vm, d: nat, c: nat)
    requires VmWf(vm) && VmWf(vm')
  {
    && c < NR_TASKS && vm'.dirOf == vm.dirOf[c := Some(d)] && vm'.heapTop == vm.heapTop[c := HEAP_START]
    && vm'.idle == vm.idle && vm'.cur == TASK1 && vm'.m.cr3 == vm.m.cr3
    && d < NR_TASKS && vm'.dirCount == vm.dirCount[d := 1]
    && vm.freeDirs != [] && vm'.freeDirs == vm.freeDirs[1..]
    && (forall t :: 0 <= t < NR_TASKS ==> vm.dirOf[t] != Some(d))
    && ForkedMem(vm.m, vm'.m, d)
  }

  ghost predicate ForkedMem(m: Mem, m': Mem, d: nat)
    requires Wf(m) && Wf(m')
  {
    && m'.used == m.used
    && (forall k :: k in m.pt && k.page >= 284 ==> m'.pt[k] == m.pt[k])
    && (forall k :: k in m.pt && k.dir != d ==> m'.pt[k].frame == m.pt[k].frame)
  }

  lemma ForkChildMem(m: Mem, src: nat, d: nat)
    requires Wf(m) && src < NR_TASKS && d < NR_TASKS && src != d
    ensures ForkPages(m, src, d, HEAP_START).cr3 == src
    ensures ForkedMem(m, ForkPages(m, src, d, HEAP_START), d)
  {
    hide ShareAll, CopyCode;
    assert HeapPageSize(HEAP_START) == 0;
    SharesFrame(m, src, d, HEAP_START);
    ForkFrames(m, src, d, HEAP_START);
  }

  lemma ForkCounts(vm: Vm, child: nat)
    requires OnCpu(vm) && child < NR_TASKS && child != vm.cur && vm.freeDirs != []
    ensures Fork(vm, child).Some? && Fork(vm, child).value.dirCount == vm.dirCount[vm.freeDirs[0] := 1]
    ensures Fork(vm, child).value.freeDirs == vm.freeDirs[1..]
  {
    hide ForkPages, Wf;
  }

  lemma ForkChild(vm: Vm, c: nat)
    requires MayFork(vm, c)
    ensures vm.freeDirs != [] && Fork(vm, c).Some?
    ensures var vm' := Fork(vm, c).value; VmInv(vm') && Forked(vm, vm', vm.freeDirs[0], c)
  {
    hide VmInv, Fork, ForkPages, EagerCopy, View, TakenSoFar, SoleHeap, Wf, ForkedMem, DirInv;
    ForkBooks(vm, c);
    ForkKeeps(vm, c);
    ForkCounts(vm, c);
    assert vm.dirOf[TASK1] == Some(vm.m.cr3);
    ForkChildMem(vm.m, vm.m.cr3, vm.freeDirs[0]);
  }

  lemma ChildAlone(vm: Vm, vm': Vm, d: nat, c: nat)
    requires VmWf(vm) && VmWf(vm') && Forked(vm, vm', d, c) && vm.idle != c && c != TASK1
    ensures SoleHeap(vm', c) && Live(vm', c)
    ensures SoleHeap(vm, TASK1) ==> SoleHeap(vm', TASK1)
  {
    hide ForkedMem, Wf;
  }

  lemma IdleNotFree(vm: Vm, c: nat)
    requires MayFork(vm, c)
    ensures vm.idle != c && c != TASK1
  {
    hide MemInv, HeapInv, TakenSoFar, Wf;
  }

  /** Task 2 has run and taken two pages of heap. */
  ghost predicate ChildGrown(vm1: Vm, vm3: Vm, d: nat)
    requires VmWf(vm1)
  {
    && vm3 == vm1.(m := vm3.m, cur := TASK2, heapTop := vm1.heapTop[TASK2 := SECOND_TOP])
    && VmInv(vm3) && UserTask(vm3, TASK2) && vm3.m.cr3 == d
    && vm3.m.pt[Slot(d, 510)] == Pte(true, true, true, 314)
    && forall k :: k in vm1.m.pt && k.dir != d ==> vm3.m.pt[k] == vm1.m.pt[k]
  }

  lemma GrowInChild(vm: Vm, vm1: Vm, d: nat)
    requires BeforeFork(vm, TASK2) && VmInv(vm1) && Forked(vm, vm1, d, TASK2)
    requires !vm.m.pt[Slot(d, 511)].present && !vm.m.pt[Slot(d, 510)].present
    ensures Live(vm1, TASK2) && VmInv(SwitchTo(vm1, TASK2)) && UserTask(SwitchTo(vm1, TASK2), TASK2)
    ensures SwitchTo(vm1, TASK2).cur == TASK2
    ensures ChildGrown(vm1, Sbrk(SwitchTo(vm1, TASK2), TWO_PAGES).0, d)
  {
    IdleNotFree(vm, TASK2);
    ChildAlone(vm, vm1, d, TASK2);
    var vm2 := SwitchTo(vm1, TASK2);
    assert vm1.dirOf[TASK1] != vm1.dirOf[TASK2];
    hide VmInv, TakenSoFar, Wf, Sbrk, View;
    SwitchKeeps(vm1, TASK2);
    assert SoleHeap(vm2, TASK2);
    hide SoleHeap;
    TwoPages(vm2);
  }

  /** The last task of directory `d` exits: `d` is the next directory to be given out. */
  lemma LastExit(vm: Vm, next: nat)
    requires OnCpu(vm) && vm.dirCount[vm.m.cr3] == 1 && Live(vm, next) && next != vm.cur
    requires HeapPageSize(vm.heapTop[vm.cur]) == 2 && vm.dirOf[next] != vm.dirOf[vm.cur]
    ensures var vm' := Exit(vm, next);
      && vm' == vm.(m := vm'.m, cur := next, dirOf := vm.dirOf[vm.cur := None],
                    dirCount := vm.dirCount[vm.m.cr3 := 0], freeDirs := [vm.m.cr3] + vm.freeDirs)
      && vm'.m.cr3 == vm.dirOf[next].value
      && (forall k :: k in vm.m.pt && (k.dir != vm.m.cr3 || k.page == 510) ==> vm'.m.pt[k] == vm.m.pt[k])
  {
    hide FreeUserPages, Wf;
    FreePagesFrame(vm.m, vm.m.cr3, vm.heapTop[vm.cur]);
  }

  /** The owned pages depend on the directories and the heaps of live tasks only. */
  lemma OwnedSame(vm: Vm, vm': Vm)
    requires VmWf(vm) && VmWf(vm') && vm'.dirOf == vm.dirOf && vm'.idle == vm.idle
    requires forall t :: 0 <= t < NR_TASKS && vm.dirOf[t].Some? ==> vm'.heapTop[t] == vm.heapTop[t]
    ensures Owned(vm') == Owned(vm)
    ensures forall t: nat :: SoleHeap(vm, t) ==> SoleHeap(vm', t)
  {
    hide Wf;
    assert forall t, k :: Owns(vm', t, k) <==> Owns(vm, t, k);
    assert forall t: nat :: UserTask(vm', t) <==> UserTask(vm, t);
  }

  lemma UsedAgain(vm: Vm, vm': Vm, d: nat)
    requires VmInv(vm) && VmInv(vm') && Owned(vm') == Owned(vm) && forall t :: 0 <= t < NR_TASKS ==>
      vm.dirOf[t] != Some(d)
    requires forall k :: k in vm.m.pt && k.dir != d ==> vm'.m.pt[k].frame == vm.m.pt[k].frame
    ensures vm'.m.used == vm.m.used
  {
    MemInvParts(vm.m, Owned(vm), UserDirs(vm));
    MemInvParts(vm'.m, Owned(vm'), UserDirs(vm'));
    forall k | k in Owned(vm)
      ensures k.dir != d
    {
      var t :| Owns(vm, t, k);
    }
    hide MemInv, DirInv, HeapInv, CowInv, Owned;
    UsedDetermined(vm.m, vm'.m, Owned(vm), {});
  }

  /** Task 2 has died: all is as before, except for an entry that nobody owns. */
  ghost predicate ChildDead(vm: Vm, vm4: Vm, d: nat)
    requires VmWf(vm)
  {
    && VmWf(vm4) && vm4.dirOf == vm.dirOf && vm4.idle == vm.idle && vm4.cur == TASK1 && vm4.m.cr3 == vm.m.cr3
    && (forall t :: 0 <= t < NR_TASKS && t != TASK2 ==> vm4.heapTop[t] == vm.heapTop[t])
    && vm4.freeDirs != [] && vm4.freeDirs[0] == d && d < NR_TASKS
    && vm4.m.pt[Slot(d, 510)] == Pte(true, true, true, 314)
    && (forall k :: k in vm.m.pt && k.dir != d ==> vm4.m.pt[k].frame == vm.m.pt[k].frame)
    && (forall k :: k in vm.m.pt && k.dir != d && k.page >= 284 ==> vm4.m.pt[k] == vm.m.pt[k])
  }

  lemma DieInChild(vm: Vm, vm1: Vm, vm3: Vm, d: nat)
    requires BeforeFork(vm, TASK2) && VmInv(vm1) && Forked(vm, vm1, d, TASK2) && ChildGrown(vm1, vm3, d)
    ensures Live(vm3, TASK1) && !LeavesHeap(vm3)
    ensures VmInv(Exit(vm3, TASK1)) && ChildDead(vm, Exit(vm3, TASK1), d)
  {
    hide VmInv, TakenSoFar, Wf, Exit, View, EagerExit, SoleHeap;
    assert vm3.dirOf[TASK1] == vm.dirOf[TASK1] == Some(vm.m.cr3) && vm3.dirOf[TASK2] == Some(d);
    assert HeapPageSize(SECOND_TOP) == 2;
    SameKeys(vm.m, vm1.m, d);
    SameKeys(vm1.m, vm3.m, d);
    LastExit(vm3, TASK1);
    ExitKeeps(vm3, TASK1);
    assert Exit(vm3, TASK1).dirOf == vm.dirOf;
  }

  lemma BeforeAgain(vm: Vm, vm4: Vm, d: nat)
    requires BeforeFork(vm, TASK2) && VmInv(vm4) && ChildDead(vm, vm4, d) && vm.dirOf[TASK3].None?
    requires forall t :: 0 <= t < NR_TASKS ==> vm.dirOf[t] != Some(d)
    ensures BeforeFork(vm4, TASK3)
  {
    hide VmInv, TakenSoFar, Wf, Owned, SoleHeap;
    OwnedSame(vm, vm4);
    UsedAgain(vm, vm4, d);
    assert vm.dirOf[TASK1] == Some(vm.m.cr3);
    TableHas(vm.m, vm.m.cr3);
  }

  lemma SameKeys(m: Mem, m': Mem, d: nat)
    requires Wf(m) && Wf(m') && d < NR_TASKS
    ensures m'.pt.Keys == m.pt.Keys && Slot(d, 510) in m.pt && Slot(d, 510) in m'.pt
  {
  }

  lemma TableHas(m: Mem, d: nat)
    requires Wf(m) && d < NR_TASKS
    ensures Slot(d, 511) in m.pt && Slot(d, 510) in m.pt
  {
  }

  /** Task 3 runs in directory `d`, and the entry left there maps the same frame as page 510 of task 1. */
  ghost predicate Overlap(vm: Vm, d: nat, d1: nat) {
    && VmInv(vm) && vm.cur == TASK3 && UserTask(vm, TASK3) && vm.m.cr3 == d
    && UserTask(vm, TASK1) && vm.dirOf[TASK1] == Some(d1) && d1 != d
    && !SpacePage(vm, 510) && Owns(vm, TASK1, Slot(d1, 510)) && Slot(d1, 510) in Owned(vm)
    && d1 < NR_TASKS && vm.m.pt[Slot(d1, 510)].frame == 314 && vm.m.pt[Slot(d, 510)] == Pte(true, true, true, 314)
  }

  /** Task 1 has taken two pages of heap in its turn. */
  ghost predicate ParentGrown(vm: Vm, vm1: Vm, vm2: Vm, d: nat)
    requires VmWf(vm) && VmWf(vm1) && d < NR_TASKS
  {
    && vm2 == vm1.(m := vm2.m, heapTop := vm1.heapTop[TASK1 := SECOND_TOP])
    && VmInv(vm2) && vm2.m.cr3 == vm.m.cr3 && d != vm.m.cr3
    && vm2.m.pt[Slot(vm.m.cr3, 510)] == Pte(true, true, true, 314)
    && vm2.m.pt[Slot(d, 510)] == Pte(true, true, true, 314)
  }

  lemma GrowInParent(vm: Vm, vm1: Vm, d: nat)
    requires BeforeFork(vm, TASK3) && VmInv(vm1) && Forked(vm, vm1, d, TASK3)
    requires vm.m.pt[Slot(d, 510)] == Pte(true, true, true, 314)
    ensures ParentGrown(vm, vm1, Sbrk(vm1, TWO_PAGES).0, d)
  {
    IdleNotFree(vm, TASK3);
    ChildAlone(vm, vm1, d, TASK3);
    assert vm.dirOf[TASK1] == Some(vm.m.cr3);
    hide VmInv, TakenSoFar, Wf, Sbrk, SoleHeap;
    SameKeys(vm.m, vm1.m, d);
    TableHas(vm.m, vm.m.cr3);
    TwoPages(vm1);
  }

  lemma SwitchIs(vm: Vm, next: nat)
    requires OnCpu(vm) && Live(vm, next) && vm.dirOf[next] != vm.dirOf[vm.cur]
    ensures SwitchTo(vm, next) == vm.(m := SwitchTo(vm, next).m, cur := next)
    ensures SwitchTo(vm, next).m.pt == vm.m.pt && SwitchTo(vm, next).m.cr3 == vm.dirOf[next].value
  {
    hide Wf;
  }

  /** Who is where before task 3 runs. */
  ghost predicate Placed(vm: Vm, d: nat, d1: nat)
    requires VmWf(vm)
  {
    && UserTask(vm, TASK1) && UserTask(vm, TASK3) && d1 != d
    && vm.dirOf[TASK1] == Some(d1) && vm.dirOf[TASK3] == Some(d)
    && vm.heapTop[TASK1] == SECOND_TOP && vm.heapTop[TASK3] == HEAP_START
    && (forall t :: 0 <= t < NR_TASKS && t != TASK3 ==> vm.dirOf[t] != Some(d))
  }

  lemma GrownPlaced(vm: Vm, vm1: Vm, vm2: Vm, d: nat)
    requires BeforeFork(vm, TASK3) && VmInv(vm1) && Forked(vm, vm1, d, TASK3) && ParentGrown(vm, vm1, vm2, d)
    ensures Placed(vm2, d, vm.m.cr3) && vm2.cur == TASK1 && d < NR_TASKS
  {
    IdleNotFree(vm, TASK3);
    ParentFacts(vm);
    hide VmInv, VmWf, ForkedMem, BeforeFork, UserTask, Placed;
    PlacedFrom(vm, vm2, d);
  }

  lemma PlacedFrom(vm: Vm, vm2: Vm, d: nat)
    requires VmWf(vm) && VmWf(vm2) && UserTask(vm, TASK1) && vm.dirOf[TASK1] == Some(vm.m.cr3) && d != vm.m.cr3
    requires vm.idle != TASK3 && vm2.idle == vm.idle && vm2.dirOf == vm.dirOf[TASK3 := Some(d)]
    requires vm2.heapTop == vm.heapTop[TASK3 := HEAP_START][TASK1 := SECOND_TOP]
    requires forall t :: 0 <= t < NR_TASKS ==> vm.dirOf[t] != Some(d)
    ensures Placed(vm2, d, vm.m.cr3)
  {
    hide Wf;
  }

  lemma ParentFacts(vm: Vm)
    requires BeforeFork(vm, TASK3)
    ensures VmWf(vm) && UserTask(vm, TASK1) && vm.dirOf[TASK1] == Some(vm.m.cr3)
  {
    hide VmInv, TakenSoFar, Wf, SoleHeap;
  }

  lemma SwitchToOverlap(vm: Vm, vm1: Vm, vm2: Vm, d: nat)
    requires BeforeFork(vm, TASK3) && VmInv(vm1) && Forked(vm, vm1, d, TASK3) && ParentGrown(vm, vm1, vm2, d)
    ensures Live(vm2, TASK3) && Overlap(SwitchTo(vm2, TASK3), d, vm.m.cr3)
  {
    GrownPlaced(vm, vm1, vm2, d);
    SwitchIs(vm2, TASK3);
    hide VmInv, Wf, View, Owned, InWindow, HeapPageSize, SwitchTo, BeforeFork, Forked;
    SwitchKeeps(vm2, TASK3);
    OverlapOwned(SwitchTo(vm2, TASK3), d, vm.m.cr3);
  }

  lemma OverlapOwned(vm: Vm, d: nat, d1: nat)
    requires OnCpu(vm) && vm.cur == TASK3 && vm.m.cr3 == d && UserTask(vm, TASK1) && UserTask(vm, TASK3)
    requires vm.dirOf[TASK1] == Some(d1) && vm.heapTop[TASK1] == SECOND_TOP && vm.heapTop[TASK3] == HEAP_START
    requires forall t :: 0 <= t < NR_TASKS && t != TASK3 ==> vm.dirOf[t] != Some(d)
    ensures !SpacePage(vm, 510) && Owns(vm, TASK1, Slot(d1, 510)) && Slot(d1, 510) in Owned(vm)
  {
    hide Wf;
    assert HeapPageSize(SECOND_TOP) == 2 && HeapPageSize(HEAP_START) == 0;
    assert Owns(vm, TASK1, Slot(d1, 510));
  }

  // ---------------------------------------------------------------- the steps in order

  /** Task 2 is forked, runs, takes two pages of heap and exits. */
  ghost predicate Dies(vm: Vm, vm1: Vm, vm2: Vm, vm3: Vm, vm4: Vm) {
    && OnCpu(vm) && vm.cur == TASK1 && Fork(vm, TASK2) == Some(vm1)
    && OnCpu(vm1) && Live(vm1, TASK2) && vm2 == SwitchTo(vm1, TASK2)
    && OnCpu(vm2) && vm3 == Sbrk(vm2, TWO_PAGES).0
    && OnCpu(vm3) && vm3.cur == TASK2 && Live(vm3, TASK1) && !LeavesHeap(vm3) && vm4 == Exit(vm3, TASK1)
  }

  lemma DiesFrom(vm: Vm, d: nat) returns (vm1: Vm, vm2: Vm, vm3: Vm, vm4: Vm)
    requires BeforeFork(vm, TASK2) && vm.dirOf[TASK3].None?
    requires vm.freeDirs != [] && vm.freeDirs[0] == d && d < NR_TASKS
    requires !vm.m.pt[Slot(d, 511)].present && !vm.m.pt[Slot(d, 510)].present
    ensures Dies(vm, vm1, vm2, vm3, vm4) && BeforeFork(vm4, TASK3) && ChildDead(vm, vm4, d)
  {
    hide VmInv, TakenSoFar, SoleHeap, ForkedMem, Fork, Sbrk, SwitchTo, Exit, Wf, LeavesHeap, ChildDead;
    ForkChild(vm, TASK2);
    vm1 := Fork(vm, TASK2).value;
    GrowInChild(vm, vm1, d);
    vm2 := SwitchTo(vm1, TASK2);
    vm3 := Sbrk(vm2, TWO_PAGES).0;
    DieInChild(vm, vm1, vm3, d);
    vm4 := Exit(vm3, TASK1);
    BeforeAgain(vm, vm4, d);
  }

  /** Task 1 forks task 3 and takes two pages of heap; then task 3 runs. */
  ghost predicate Overlaps(vm: Vm, vm1: Vm, vm2: Vm, vm3: Vm) {
    && OnCpu(vm) && vm.cur == TASK1 && Fork(vm, TASK3) == Some(vm1)
    && OnCpu(vm1) && vm2 == Sbrk(vm1, TWO_PAGES).0
    && OnCpu(vm2) && Live(vm2, TASK3) && vm3 == SwitchTo(vm2, TASK3)
  }

  lemma OverlapsFrom(vm: Vm, d: nat) returns (vm1: Vm, vm2: Vm, vm3: Vm)
    requires BeforeFork(vm, TASK3) && vm.freeDirs != [] && vm.freeDirs[0] == d && d < NR_TASKS
    requires vm.m.pt[Slot(d, 510)] == Pte(true, true, true, 314)
    ensures Overlaps(vm, vm1, vm2, vm3) && Overlap(vm3, d, vm.m.cr3)
  {
    hide VmInv, TakenSoFar, SoleHeap, ForkedMem, Fork, Sbrk, SwitchTo, Wf;
    ForkChild(vm, TASK3);
    vm1 := Fork(vm, TASK3).value;
    GrowInParent(vm, vm1, d);
    vm2 := Sbrk(vm1, TWO_PAGES).0;
    SwitchToOverlap(vm, vm1, vm2, d);
    vm3 := SwitchTo(vm2, TASK3);
  }

  // ---------------------------------------------------------------- from boot

  lemma BootBefore(ram: seq<Page>, g0: nat, g1: nat)
    requires |ram| == TOTAL_PAGES
    ensures BootState(ram, g0, g1).Some?
    ensures var vm := BootState(ram, g0, g1).value;
      && BeforeFork(vm, TASK2) && vm.m.cr3 == 8 && vm.freeDirs != [] && vm.freeDirs[0] == 7
      && vm.dirOf[TASK3].None? && vm.dirOf[4].None?
      && (forall t: nat :: UserTask(vm, t) ==> t == TASK1)
      && (forall t :: 0 <= t < NR_TASKS && t != TASK1 ==> vm.dirOf[t] != Some(8))
      && !vm.m.pt[Slot(7, 511)].present && !vm.m.pt[Slot(7, 510)].present
  {
    BootInv(ram, g0, g1);
    BootDetails(ram, g0, g1);
    BootTasks(ram, g0, g1);
    var vm := BootState(ram, g0, g1).value;
    hide BootState, VmInv, TakenSoFar, Wf;
    BootOwns(vm);
    TableHas(vm.m, 7);
    TableHas(vm.m, 8);
  }

  lemma BootOwns(vm: Vm)
    requires VmWf(vm) && vm.idle == 0 && vm.heapTop[TASK1] == HEAP_START
    requires forall t :: 0 <= t < NR_TASKS ==>
      vm.dirOf[t] == if t == 0 then Some(9) else if t == 1 then Some(8) else None
    ensures forall k :: k in Owned(vm) ==> k.dir == 8 && k.page < 284
    ensures SoleHeap(vm, TASK1)
  {
    hide Wf;
    assert HeapPageSize(HEAP_START) == 0;
    forall k | k in Owned(vm)
      ensures k.dir == 8 && k.page < 284
    {
      var t :| Owns(vm, t, k);
      assert t == TASK1;
    }
  }

  /** A stray store of the running task 3 changes page `k`, which task 1 owns. */
  ghost predicate StrayChange(vm: Vm, addr: nat, v: Byte, k: Slot) {
    && IsStray(vm, addr) && vm.cur == TASK3 && Reaches(vm, addr)
    && UserTask(vm, TASK1) && Owns(vm, TASK1, k) && k in vm.m.pt
    && Store(vm, addr, v).Running?
    && var m' := Store(vm, addr, v).vm.m;
    k in m'.pt && m'.ram[m'.pt[k].frame] == vm.m.ram[vm.m.pt[k].frame][addr % PAGE_SIZE := v]
  }

  lemma OverlapChanges(vm: Vm, d: nat, d1: nat, v: Byte)
    requires Overlap(vm, d, d1)
    ensures StrayChange(vm, 510 * PAGE_SIZE, v, Slot(d1, 510))
  {
    var addr := 510 * PAGE_SIZE;
    hide VmInv, Owned, Store, AccessOk, HeapPageSize;
    assert addr / PAGE_SIZE == 510;
    ViewAt(vm, Slot(d1, 510));
    assert EntryAt(vm, addr) == Pte(true, true, true, 314);
    assert FrameOwned(vm, 314);
    StrayRuns(vm, addr, v);
    StrayPage(vm, addr, v, Slot(d1, 510));
  }
}
