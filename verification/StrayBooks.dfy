/**
 How a store comes to spoil the frame books. Task 2 shares its heap with task 3 and exits; the entry left in
 its directory is read-only and maps a page that task 3 still owns. Task 4, the next one in that directory,
 takes one page of heap, so that `access_ok` accepts the page below it. `FailingRuns` has the run from boot.
 */
module StrayBooks {
  import opened Basics
  import opened Mm
  import opened Cow
  import opened CowLoops
  import opened AddressSpace
  import opened VmInvariant
  import opened Access
  import opened UserCode
  import opened ForkProof
  import opened ExitProof
  import opened SbrkProof
  import opened Boot
  import opened Stray
  import opened StrayRun

  const TASK4 := 4
  const ONE_PAGE := PAGE_SIZE
  const FIRST_TOP := HEAP_START - ONE_PAGE
  /** A frame that stays free throughout. */
  const SPARE := 1022

  // ---------------------------------------------------------------- fork, entry by entry

  lemma ShareFrame(m: Mem, src: nat, dst: nat, p: nat, q: nat)
    requires Wf(m) && src < NR_TASKS && dst < NR_TASKS && src != dst && p < TOTAL_PAGES && q < TOTAL_PAGES
    ensures var m' := ShareCowPage(m, src, dst, q);
      m'.pt[Slot(dst, p)].frame == if p == q then m.pt[Slot(src, p)].frame else m.pt[Slot(dst, p)].frame
  {
  }

  lemma {:induction false} ShareAllTo(m: Mem, src: nat, dst: nat, ps: seq<nat>, p: nat)
    requires Wf(m) && src < NR_TASKS && dst < NR_TASKS && src != dst && InTable(ps) && p in ps && p < TOTAL_PAGES
    ensures ShareAll(m, src, dst, ps).pt[Slot(dst, p)].frame == m.pt[Slot(src, p)].frame
  {
    hide ShareCowPage;
    var n := |ps| - 1;
    var m1 := ShareAll(m, src, dst, ps[..n]);
    ShareFrame(m1, src, dst, p, ps[n]);
    if p == ps[n] {
      ShareAllFrames(m, src, dst, ps[..n]);
    } else {
      assert p in ps[..n];
      ShareAllTo(m, src, dst, ps[..n], p);
    }
  }

  ghost predicate SameFrame(m: Mem, k: Slot, m': Mem, k': Slot) {
    k in m.pt && k' in m'.pt && m'.pt[k'].frame == m.pt[k].frame
  }

  /** The child's second heap page maps the frame of the parent's. */
  lemma ForkHeapFrame(m: Mem, src: nat, dst: nat)
    requires Wf(m) && src < NR_TASKS && dst < NR_TASKS && src != dst
    ensures SameFrame(m, Slot(src, 510), ForkPages(m, src, dst, SECOND_TOP), Slot(dst, 510))
  {
    hide ShareAll, CopyCode;
    assert HeapPageSize(SECOND_TOP) == 2;
    CopyCodeEffect(m, src, dst, NUM_PAG_CODE);
    var m1 := CopyCode(m, src, dst, NUM_PAG_CODE);
    var m2 := ShareAll(m1, src, dst, DataPages());
    ShareAllFrames(m1, src, dst, DataPages());
    ShareAllTo(m2, src, dst, HeapPages(0, 2), 510);
  }

  // ---------------------------------------------------------------- task 2 shares its heap

  lemma TwoTaken(m: Mem)
    requires Wf(m) && TakenSoFar(m.used, 28)
    ensures !Reserve(m, 2).0.used[SPARE]
  {
    NextFrame(m, 28);
    TakeNext(m.used, 28);
    var m1 := AllocFrame(m).0;
    NextFrame(m1, 29);
    hide AllocFrame, Wf;
    assert Reserve(m, 0) == (m, []);
    assert Reserve(m, 1) == (m1, [] + [312]);
  }

  lemma SbrkIsGrow(vm: Vm)
    requires OnCpu(vm) && vm.heapTop[vm.cur] == HEAP_START && Grow(vm.m, vm.m.cr3, 0, 2).Some?
    ensures Sbrk(vm, TWO_PAGES).0.m == Grow(vm.m, vm.m.cr3, 0, 2).value
  {
    hide Grow, Wf;
    assert HeapPageSize(HEAP_START) == 0 && HeapPageSize(SECOND_TOP) == 2;
    NewHeapTopExact(HEAP_START, TWO_PAGES);
    hide NewHeapTop, HeapPageSize;
  }

  lemma SpareAfterTwo(vm: Vm)
    requires CanMove(vm) && TakenSoFar(vm.m.used, 28) && vm.heapTop[vm.cur] == HEAP_START
    requires !vm.m.pt[Slot(vm.m.cr3, 511)].present && !vm.m.pt[Slot(vm.m.cr3, 510)].present
    ensures !Sbrk(vm, TWO_PAGES).0.m.used[SPARE]
  {
    hide VmInv, SoleHeap, TakenSoFar, Wf, Reserve, Grow, Sbrk;
    GrowTwo(vm.m, vm.m.cr3);
    TwoTaken(vm.m);
    GrowUsed(vm.m, vm.m.cr3);
    SbrkIsGrow(vm);
  }

  lemma GrowUsed(m: Mem, d: nat)
    requires Wf(m) && d < NR_TASKS && Grow(m, d, 0, 2).Some?
    ensures Grow(m, d, 0, 2).value.used == Reserve(m, 2).0.used
  {
    hide Reserve, AssignAll, PagesFree;
    AssignAllFrame(Reserve(m, 2).0, d, HeapPages(0, 2), Reserve(m, 2).1);
  }

  /** Who is where once task 2 has forked task 3: task 1 in directory `d1`, task 3 in `e`, task `c` if any in `d`. */
  ghost predicate Three(vm: Vm, d1: nat, d: nat, e: nat, c: nat)
    requires VmWf(vm)
  {
    && UserTask(vm, TASK1) && UserTask(vm, TASK3) && vm.idle != TASK4 && c != TASK1 && c != TASK3
    && (forall t: nat :: UserTask(vm, t) ==> t == TASK1 || t == TASK3 || t == c)
    && d1 < NR_TASKS && d < NR_TASKS && e < NR_TASKS && d1 != d && d != e && d1 != e
    && vm.dirOf[TASK1] == Some(d1) && vm.dirOf[TASK3] == Some(e)
    && (forall t :: 0 <= t < NR_TASKS && t != c ==> vm.dirOf[t] != Some(d))
    && (forall t :: 0 <= t < NR_TASKS && t != TASK1 ==> vm.dirOf[t] != Some(d1))
    && (forall t :: 0 <= t < NR_TASKS && t != TASK3 ==> vm.dirOf[t] != Some(e))
    && vm.heapTop[TASK1] == HEAP_START && vm.heapTop[TASK3] == SECOND_TOP
  }

  ghost predicate Split(vm: Vm, d1: nat, d: nat, e: nat) {
    && VmInv(vm) && Three(vm, d1, d, e, TASK2) && vm.cur == TASK2 && vm.m.cr3 == d && UserTask(vm, TASK2)
    && vm.dirOf[TASK2] == Some(d) && vm.dirCount[d] == 1 && vm.heapTop[TASK2] == SECOND_TOP && !vm.m.used[SPARE]
    && vm.m.pt[Slot(d, 510)].frame == 314 && vm.m.pt[Slot(e, 510)].frame == 314
  }

  lemma ForkThree(vm: Vm)
    requires VmInv(vm) && UserTask(vm, TASK2) && vm.cur == TASK2 && vm.dirOf[TASK3].None?
    requires vm.heapTop[TASK2] == SECOND_TOP
    ensures vm.freeDirs != [] && Fork(vm, TASK3).Some?
    ensures var e, vm' := vm.freeDirs[0], Fork(vm, TASK3).value;
      && VmInv(vm') && e < NR_TASKS && (forall t :: 0 <= t < NR_TASKS ==> vm.dirOf[t] != Some(e))
      && vm'.dirOf == vm.dirOf[TASK3 := Some(e)] && vm'.heapTop == vm.heapTop[TASK3 := SECOND_TOP]
      && vm'.idle == vm.idle && vm'.cur == TASK2 && vm'.dirCount == vm.dirCount[e := 1]
      && vm'.m.cr3 == vm.m.cr3 && vm'.m.used == vm.m.used
      && SameFrame(vm.m, Slot(vm.m.cr3, 510), vm'.m, Slot(vm.m.cr3, 510))
      && SameFrame(vm.m, Slot(vm.m.cr3, 510), vm'.m, Slot(e, 510))
  {
    hide VmInv, Fork, ForkPages, EagerCopy, View, Wf, DirInv, HeapPageSize;
    ForkBooks(vm, TASK3);
    ForkKeeps(vm, TASK3);
    ForkCounts(vm, TASK3);
    assert vm.dirOf[TASK2] == Some(vm.m.cr3);
    ForkThreeMem(vm.m, vm.m.cr3, vm.freeDirs[0]);
  }

  lemma ForkThreeMem(m: Mem, src: nat, e: nat)
    requires Wf(m) && src < NR_TASKS && e < NR_TASKS && src != e
    ensures var m' := ForkPages(m, src, e, SECOND_TOP);
      && m'.cr3 == src && m'.used == m.used
      && SameFrame(m, Slot(src, 510), m', Slot(src, 510)) && SameFrame(m, Slot(src, 510), m', Slot(e, 510))
  {
    hide ShareAll, CopyCode;
    assert HeapPageSize(SECOND_TOP) == 2;
    SharesFrame(m, src, e, SECOND_TOP);
    ForkFrames(m, src, e, SECOND_TOP);
    ForkHeapFrame(m, src, e);
  }

  lemma IdleLive(vm: Vm)
    requires VmInv(vm)
    ensures vm.dirOf[vm.idle].Some?
  {
    hide MemInv, HeapInv, Wf;
  }

  /** Tasks 1 and 2 are alone in their directories, task 3 is free. */
  ghost predicate TwoDirs(vm: Vm, d1: nat, d: nat)
    requires VmWf(vm)
  {
    && UserTask(vm, TASK1) && UserTask(vm, TASK2) && (forall t: nat :: UserTask(vm, t) ==> t == TASK1 || t == TASK2)
    && d1 < NR_TASKS && d < NR_TASKS && d1 != d && vm.idle != TASK3 && vm.idle != TASK4
    && vm.dirOf[TASK1] == Some(d1) && vm.dirOf[TASK2] == Some(d) && vm.dirOf[TASK3].None?
    && (forall t :: 0 <= t < NR_TASKS && t != TASK2 ==> vm.dirOf[t] != Some(d))
    && (forall t :: 0 <= t < NR_TASKS && t != TASK1 ==> vm.dirOf[t] != Some(d1))
  }

  /** Task 2 runs with a heap of its own. */
  ghost predicate TwoHeap(vm: Vm, d1: nat, d: nat) {
    && VmInv(vm) && TwoDirs(vm, d1, d) && vm.cur == TASK2 && vm.m.cr3 == d && vm.dirCount[d] == 1
    && vm.heapTop[TASK1] == HEAP_START && vm.heapTop[TASK2] == SECOND_TOP
    && !vm.m.used[SPARE] && vm.m.pt[Slot(d, 510)].frame == 314
  }

  lemma TwoDirsFrom(vm: Vm, vm1: Vm, vm3: Vm, d: nat)
    requires BeforeFork(vm, TASK2) && VmInv(vm1) && Forked(vm, vm1, d, TASK2) && ChildGrown(vm1, vm3, d)
    requires vm.dirOf[TASK3].None? && vm.dirOf[TASK4].None? && forall t: nat :: UserTask(vm, t) ==> t == TASK1
    requires forall t :: 0 <= t < NR_TASKS && t != TASK1 ==> vm.dirOf[t] != Some(vm.m.cr3)
    ensures TwoDirs(vm3, vm.m.cr3, d)
  {
    IdleLive(vm);
    hide VmInv, TakenSoFar, SoleHeap, ForkedMem, Wf, HeapPageSize;
    assert vm.dirOf[TASK1] == Some(vm.m.cr3);
    assert vm3.dirOf == vm.dirOf[TASK2 := Some(d)];
    assert forall t: nat :: UserTask(vm3, t) ==> UserTask(vm, t) || t == TASK2;
  }

  lemma TwoHeapFrom(vm: Vm, vm1: Vm, vm3: Vm, d: nat)
    requires BeforeFork(vm, TASK2) && VmInv(vm1) && Forked(vm, vm1, d, TASK2) && ChildGrown(vm1, vm3, d)
    requires TwoDirs(vm3, vm.m.cr3, d) && !vm3.m.used[SPARE]
    ensures TwoHeap(vm3, vm.m.cr3, d)
  {
    hide VmInv, TakenSoFar, SoleHeap, ForkedMem, Wf, HeapPageSize, TwoDirs;
  }

  lemma SplitFrom(vm: Vm, d1: nat, d: nat)
    requires TwoHeap(vm, d1, d)
    ensures vm.freeDirs != [] && Fork(vm, TASK3).Some? && Split(Fork(vm, TASK3).value, d1, d, vm.freeDirs[0])
  {
    hide VmInv, Wf, Fork, HeapPageSize;
    ForkThree(vm);
    var vm' := Fork(vm, TASK3).value;
    assert forall t: nat :: UserTask(vm', t) ==> UserTask(vm, t) || t == TASK3;
  }

  /** A heap page with two owners is read-only on both sides. */
  lemma SplitReadOnly(vm: Vm, d1: nat, d: nat, e: nat)
    requires Split(vm, d1, d, e)
    ensures vm.m.pt[Slot(d, 510)] == Pte(true, false, true, 314)
    ensures vm.m.pt[Slot(e, 510)] == Pte(true, false, true, 314)
  {
    assert HeapPageSize(SECOND_TOP) == 2;
    assert Owns(vm, TASK2, Slot(d, 510)) && Owns(vm, TASK3, Slot(e, 510));
    MemInvParts(vm.m, Owned(vm), UserDirs(vm));
    hide VmInv, Owned, Wf, HeapPageSize, MemInv;
    TwoOwners(vm.m, Owned(vm), Slot(d, 510), Slot(e, 510));
  }

  lemma TwoOwners(m: Mem, owned: set<Slot>, j: Slot, k: Slot)
    requires CowInv(m, owned, {}) && j in owned && k in owned && j != k && m.pt[j].frame == m.pt[k].frame
    ensures !m.pt[j].rw && !m.pt[k].rw && m.pt[j].present && m.pt[j].user && m.pt[k].present && m.pt[k].user
  {
    UsedOwned(m, owned);
    hide Accounted, OwnedMapped, SharedAtSamePage, ReservedFree, FixedCounts;
    var o := Owners(m.pt, owned, m.pt[j].frame);
    assert {j, k} <= o;
    SubsetSize({j, k}, o);
  }

  // ---------------------------------------------------------------- task 2 exits and task 4 is forked

  /** Task 2 is gone; its entry for page 510 and page 510 of task 3 are read-only mappings of one frame. */
  ghost predicate Abandoned(vm: Vm, d1: nat, d: nat, e: nat) {
    && MayFork(vm, TASK4) && Three(vm, d1, d, e, TASK4) && vm.m.cr3 == d1 && !vm.m.used[SPARE]
    && vm.freeDirs != [] && vm.freeDirs[0] == d && !vm.m.pt[Slot(d, 511)].present
    && vm.m.pt[Slot(d, 510)] == Pte(true, false, true, 314)
    && vm.m.pt[Slot(e, 510)] == Pte(true, false, true, 314)
  }

  lemma FirstCleared(vm: Vm, next: nat)
    requires OnCpu(vm) && vm.dirCount[vm.m.cr3] == 1 && Live(vm, next) && next != vm.cur
    requires HeapPageSize(vm.heapTop[vm.cur]) == 2
    ensures !Exit(vm, next).m.pt[Slot(vm.m.cr3, 511)].present
  {
    hide FreeUserPages, Wf;
    FreePagesFrame(vm.m, vm.m.cr3, vm.heapTop[vm.cur]);
    assert Slot(vm.m.cr3, 511) in vm.m.pt by {
      TableHas(vm.m, vm.m.cr3);
    }
  }

  /** Exit frees frames and takes none. */
  lemma SpareAfterExit(vm: Vm, vm': Vm, d: nat)
    requires VmInv(vm) && VmInv(vm') && Owned(vm') <= Owned(vm) && (forall k :: k in Owned(vm') ==> k.dir != d)
    requires forall k :: k in vm.m.pt && k.dir != d ==> vm'.m.pt[k] == vm.m.pt[k]
    requires !vm.m.used[SPARE]
    ensures !vm'.m.used[SPARE]
  {
    MemInvParts(vm.m, Owned(vm), UserDirs(vm));
    MemInvParts(vm'.m, Owned(vm'), UserDirs(vm'));
    hide VmInv, Owned, MemInv;
    assert Owners(vm'.m.pt, Owned(vm'), SPARE) <= Owners(vm.m.pt, Owned(vm), SPARE);
  }

  lemma ExitShrinks(vm: Vm, vm': Vm, d: nat)
    requires VmWf(vm) && VmWf(vm') && vm.cur < NR_TASKS && vm'.dirOf == vm.dirOf[vm.cur := None]
    requires vm'.heapTop == vm.heapTop && vm'.idle == vm.idle
    requires forall t :: 0 <= t < NR_TASKS && t != vm.cur ==> vm.dirOf[t] != Some(d)
    ensures Owned(vm') <= Owned(vm) && forall k :: k in Owned(vm') ==> k.dir != d
  {
    hide Wf;
    forall k | k in Owned(vm')
      ensures k in Owned(vm) && k.dir != d
    {
      var t :| Owns(vm', t, k);
      assert Owns(vm, t, k);
    }
  }

  lemma ThreeStays(vm: Vm, vm': Vm, d1: nat, d: nat, e: nat)
    requires VmWf(vm) && VmWf(vm') && Three(vm, d1, d, e, TASK2) && vm'.dirOf == vm.dirOf[TASK2 := None]
    requires vm'.heapTop == vm.heapTop && vm'.idle == vm.idle
    ensures Three(vm', d1, d, e, TASK4) && vm'.dirOf[TASK4].None?
  {
    hide Wf;
    assert !UserTask(vm, TASK4);
    assert forall t: nat :: UserTask(vm', t) ==> UserTask(vm, t);
  }

  lemma ExitThree(vm: Vm, d1: nat, d: nat, e: nat)
    requires Split(vm, d1, d, e)
    ensures Live(vm, TASK1) && !LeavesHeap(vm) && VmInv(Exit(vm, TASK1))
    ensures Three(Exit(vm, TASK1), d1, d, e, TASK4) && Exit(vm, TASK1).dirOf[TASK4].None?
    ensures !Exit(vm, TASK1).m.used[SPARE]
  {
    assert HeapPageSize(SECOND_TOP) == 2;
    hide VmInv, Wf, Exit, View, EagerExit, HeapPageSize, Owned;
    LastExit(vm, TASK1);
    ExitKeeps(vm, TASK1);
    var vm' := Exit(vm, TASK1);
    ExitShrinks(vm, vm', d);
    SpareAfterExit(vm, vm', d);
    ThreeStays(vm, vm', d1, d, e);
  }

  lemma AbandonedFrom(vm: Vm, d1: nat, d: nat, e: nat)
    requires Split(vm, d1, d, e)
    ensures Live(vm, TASK1) && !LeavesHeap(vm) && Abandoned(Exit(vm, TASK1), d1, d, e)
  {
    SplitReadOnly(vm, d1, d, e);
    ExitThree(vm, d1, d, e);
    assert HeapPageSize(SECOND_TOP) == 2;
    SameKeys(vm.m, vm.m, d);
    SameKeys(vm.m, vm.m, e);
    hide VmInv, Wf, Exit, HeapPageSize, LeavesHeap;
    LastExit(vm, TASK1);
    FirstCleared(vm, TASK1);
    ThreeFacts(vm, d1, d, e, TASK2);
    ThreeFacts(Exit(vm, TASK1), d1, d, e, TASK4);
    hide Three;
  }

  lemma ThreeFacts(vm: Vm, d1: nat, d: nat, e: nat, c: nat)
    requires VmWf(vm) && Three(vm, d1, d, e, c)
    ensures UserTask(vm, TASK1) && vm.dirOf[TASK1] == Some(d1) && vm.heapTop[TASK1] == HEAP_START && d1 != d && d != e
  {
  }

  // ---------------------------------------------------------------- one page of heap

  /** A task without a heap gets one page. */
  lemma OnePage(vm: Vm)
    requires CanMove(vm) && vm.heapTop[vm.cur] == HEAP_START
    requires !vm.m.pt[Slot(vm.m.cr3, 511)].present && !vm.m.used[SPARE]
    ensures var vm' := Sbrk(vm, ONE_PAGE).0;
      && vm' == vm.(m := vm'.m, heapTop := vm.heapTop[vm.cur := FIRST_TOP]) && VmInv(vm') && vm'.m.cr3 == vm.m.cr3
      && forall k :: k in vm.m.pt && k.page != 511 ==> vm'.m.pt[k] == vm.m.pt[k]
  {
    OneRoom(vm);
    hide VmInv, SoleHeap, Wf, NewHeapTop, NoRoom, Grow;
    NewHeapTopExact(HEAP_START, ONE_PAGE);
    assert HeapPageSize(HEAP_START) == 0 && HeapPageSize(FIRST_TOP) == 1;
    MoveFailsExactly(vm, FIRST_TOP);
    MoveSucceeds(vm, FIRST_TOP);
    GrowFrame(vm.m, vm.m.cr3, 0, 1);
  }

  lemma OneRoom(vm: Vm)
    requires OnCpu(vm) && vm.heapTop[vm.cur] == HEAP_START
    requires !vm.m.pt[Slot(vm.m.cr3, 511)].present && !vm.m.used[SPARE]
    ensures !NoRoom(vm, FIRST_TOP)
  {
    hide Wf;
    assert HeapPageSize(HEAP_START) == 0 && HeapPageSize(FIRST_TOP) == 1;
    assert HeapPages(0, 1)[0] == 511;
    assert SPARE in FreeFrameSet(vm.m);
    SubsetSize({SPARE}, FreeFrameSet(vm.m));
  }

  /** Task 4 runs with one page of heap. */
  ghost predicate Ready(vm: Vm, d1: nat, d: nat, e: nat) {
    && VmInv(vm) && Three(vm, d1, d, e, TASK4) && vm.cur == TASK4 && vm.m.cr3 == d && UserTask(vm, TASK4)
    && vm.heapTop[TASK4] == FIRST_TOP
    && vm.m.pt[Slot(d, 510)] == Pte(true, false, true, 314) && vm.m.pt[Slot(e, 510)] == Pte(true, false, true, 314)
  }

  /** Page 510 is in the address space of task 3 only. */
  lemma OnlyThree(vm: Vm, d1: nat, d: nat, e: nat)
    requires Ready(vm, d1, d, e)
    ensures forall k :: k in Owned(vm) && k.page == 510 ==> k == Slot(e, 510)
    ensures Owns(vm, TASK3, Slot(e, 510)) && Slot(e, 510) in Owned(vm)
  {
    hide VmInv, Wf;
    assert HeapPageSize(SECOND_TOP) == 2 && HeapPageSize(HEAP_START) == 0 && HeapPageSize(FIRST_TOP) == 1;
    assert Owns(vm, TASK3, Slot(e, 510));
    forall k | k in Owned(vm) && k.page == 510
      ensures k == Slot(e, 510)
    {
      var t: nat :| Owns(vm, t, k);
      assert t == TASK3;
    }
  }

  lemma LastShare(m: Mem, owned: set<Slot>, k: Slot)
    requires CowInv(m, owned, {}) && k in owned && !m.pt[k].rw && forall j :: j in owned && j.page == k.page ==> j == k
    ensures m.cow[m.pt[k].frame] == 1
  {
    hide Accounted, OwnedMapped, ReservedFree, FixedCounts;
    assert Owners(m.pt, owned, m.pt[k].frame) == {k};
  }

  /** The store gets through, changes the page of task 3 and leaves wrong books. */
  lemma ReadySpoils(vm: Vm, d1: nat, d: nat, e: nat, v: Byte)
    requires Ready(vm, d1, d, e)
    ensures Spoils(vm, 510 * PAGE_SIZE, v)
  {
    var addr := 510 * PAGE_SIZE;
    OnlyThree(vm, d1, d, e);
    MemInvParts(vm.m, Owned(vm), UserDirs(vm));
    assert AccessOk(FIRST_TOP, addr, 1) by {
      assert HeapPageSize(FIRST_TOP) == 1;
    }
    hide VmInv, Owned, MemInv, Store, AccessOk, Three, CowInv;
    LastShare(vm.m, Owned(vm), Slot(e, 510));
    assert addr / PAGE_SIZE == 510;
    assert EntryAt(vm, addr) == Pte(true, false, true, 314);
    ViewAt(vm, Slot(e, 510));
    assert FrameOwned(vm, 314);
    StrayRuns(vm, addr, v);
    StrayBooksIff(vm, addr, v);
  }

  /** A stray store that gets through and leaves the frame books wrong. */
  ghost predicate Spoils(vm: Vm, addr: nat, v: Byte) {
    && IsStray(vm, addr) && Reaches(vm, addr) && Store(vm, addr, v).Running?
    && !CowInv(Store(vm, addr, v).vm.m, Owned(vm), {})
  }

  // ---------------------------------------------------------------- the run

  lemma ThreeAgain(vm: Vm, vm1: Vm, d1: nat, d: nat, e: nat)
    requires Abandoned(vm, d1, d, e) && VmInv(vm1) && Forked(vm, vm1, d, TASK4)
    ensures Three(vm1, d1, d, e, TASK4) && SoleHeap(vm1, TASK4) && Live(vm1, TASK4) && vm.idle != TASK4
  {
    IdleNotFree(vm, TASK4);
    hide VmInv, Wf, ForkedMem;
    ChildAlone(vm, vm1, d, TASK4);
    hide SoleHeap;
    ThreeForked(vm, vm1, d1, d, e);
  }

  lemma ThreeForked(vm: Vm, vm1: Vm, d1: nat, d: nat, e: nat)
    requires VmWf(vm) && VmWf(vm1) && Three(vm, d1, d, e, TASK4) && vm.dirOf[TASK4].None?
    requires vm1.dirOf == vm.dirOf[TASK4 := Some(d)] && vm1.heapTop == vm.heapTop[TASK4 := HEAP_START]
    requires vm1.idle == vm.idle
    ensures Three(vm1, d1, d, e, TASK4)
  {
    hide Wf;
    assert forall t: nat :: UserTask(vm1, t) ==> UserTask(vm, t) || t == TASK4;
  }

  /** Task 4 has been forked and runs, still without a heap. */
  ghost predicate Running4(vm: Vm, d1: nat, d: nat, e: nat) {
    && VmInv(vm) && Three(vm, d1, d, e, TASK4) && vm.cur == TASK4 && vm.m.cr3 == d && SoleHeap(vm, TASK4)
    && vm.heapTop[TASK4] == HEAP_START && !vm.m.used[SPARE] && !vm.m.pt[Slot(d, 511)].present
    && vm.m.pt[Slot(d, 510)] == Pte(true, false, true, 314) && vm.m.pt[Slot(e, 510)] == Pte(true, false, true, 314)
  }

  lemma SwitchAgain(vm: Vm, vm1: Vm, d1: nat, d: nat, e: nat)
    requires Abandoned(vm, d1, d, e) && VmInv(vm1) && Forked(vm, vm1, d, TASK4)
    ensures Live(vm1, TASK4) && Running4(SwitchTo(vm1, TASK4), d1, d, e)
  {
    ThreeAgain(vm, vm1, d1, d, e);
    SameKeys(vm.m, vm1.m, d);
    SameKeys(vm.m, vm1.m, e);
    TableHas(vm.m, d);
    assert vm1.dirOf[TASK1] != vm1.dirOf[TASK4] && e < NR_TASKS && d < NR_TASKS;
    hide VmInv, Wf, View, Three;
    SwitchKeeps(vm1, TASK4);
    var vm2 := SwitchTo(vm1, TASK4);
    ThreeSame(vm1, vm2, d1, d, e);
  }

  lemma ThreeSame(vm: Vm, vm': Vm, d1: nat, d: nat, e: nat)
    requires VmWf(vm) && VmWf(vm') && Three(vm, d1, d, e, TASK4) && vm'.dirOf == vm.dirOf && vm'.idle == vm.idle
    requires vm'.heapTop[TASK1] == HEAP_START && vm'.heapTop[TASK3] == SECOND_TOP
    ensures Three(vm', d1, d, e, TASK4)
  {
    hide Wf;
    assert forall t: nat :: UserTask(vm', t) ==> UserTask(vm, t);
  }

  lemma ReadyFrom(vm: Vm, d1: nat, d: nat, e: nat)
    requires Running4(vm, d1, d, e)
    ensures Ready(Sbrk(vm, ONE_PAGE).0, d1, d, e)
  {
    SameKeys(vm.m, vm.m, d);
    SameKeys(vm.m, vm.m, e);
    ThreeFacts3(vm, d1, d, e);
    hide VmInv, Wf, Sbrk, Three;
    var vm' := Sbrk(vm, ONE_PAGE).0;
    OnePage(vm);
    ThreeSame(vm, vm', d1, d, e);
  }

  lemma ThreeFacts3(vm: Vm, d1: nat, d: nat, e: nat)
    requires VmWf(vm) && Three(vm, d1, d, e, TASK4)
    ensures vm.heapTop[TASK1] == HEAP_START && vm.heapTop[TASK3] == SECOND_TOP && d < NR_TASKS && e < NR_TASKS
  {
  }

  lemma SpareInChild(vm: Vm, vm1: Vm, d: nat)
    requires BeforeFork(vm, TASK2) && VmInv(vm1) && Forked(vm, vm1, d, TASK2)
    requires !vm.m.pt[Slot(d, 511)].present && !vm.m.pt[Slot(d, 510)].present
    ensures Live(vm1, TASK2) && OnCpu(SwitchTo(vm1, TASK2))
    ensures !Sbrk(SwitchTo(vm1, TASK2), TWO_PAGES).0.m.used[SPARE]
  {
    IdleNotFree(vm, TASK2);
    ChildAlone(vm, vm1, d, TASK2);
    var vm2 := SwitchTo(vm1, TASK2);
    assert vm1.dirOf[TASK1] != vm1.dirOf[TASK2];
    TableHas(vm.m, d);
    hide VmInv, TakenSoFar, Wf, Sbrk, View;
    SwitchKeeps(vm1, TASK2);
    assert SoleHeap(vm2, TASK2);
    hide SoleHeap;
    SpareAfterTwo(vm2);
  }

  /** Task 2 is forked, runs, takes two pages of heap, forks task 3 and exits; then task 1 runs. */
  ghost predicate Splits(vm: Vm, vm1: Vm, vm2: Vm, vm3: Vm, vm4: Vm, vm5: Vm, vm6: Vm) {
    && OnCpu(vm) && vm.cur == TASK1 && Fork(vm, TASK2) == Some(vm1)
    && OnCpu(vm1) && Live(vm1, TASK2) && vm2 == SwitchTo(vm1, TASK2)
    && OnCpu(vm2) && vm3 == Sbrk(vm2, TWO_PAGES).0
    && OnCpu(vm3) && vm3.cur == TASK2 && Fork(vm3, TASK3) == Some(vm4)
    && OnCpu(vm4) && vm4.cur == TASK2 && Live(vm4, TASK3) && !LeavesHeap(vm4) && vm5 == Exit(vm4, TASK3)
    && OnCpu(vm5) && Live(vm5, TASK1) && vm6 == SwitchTo(vm5, TASK1)
  }

  /** Which task runs for a moment after an exit makes no difference. */
  lemma ExitThenSwitch(vm: Vm, t: nat, u: nat)
    requires OnCpu(vm) && Live(vm, t) && Live(vm, u) && t != vm.cur && u != vm.cur && vm.dirOf[t] != vm.dirOf[u]
    requires vm.dirOf[t] != vm.dirOf[vm.cur] && vm.dirOf[u] != vm.dirOf[vm.cur]
    ensures OnCpu(Exit(vm, t)) && Live(Exit(vm, t), u) && SwitchTo(Exit(vm, t), u) == Exit(vm, u)
  {
    hide FreeUserPages, Wf;
  }

  lemma AbandonedStep(vm: Vm, d1: nat, d: nat, e: nat)
    requires Split(vm, d1, d, e)
    ensures Live(vm, TASK3) && !LeavesHeap(vm) && OnCpu(Exit(vm, TASK3)) && Live(Exit(vm, TASK3), TASK1)
    ensures Abandoned(SwitchTo(Exit(vm, TASK3), TASK1), d1, d, e)
  {
    AbandonedFrom(vm, d1, d, e);
    hide VmInv, Wf, Exit, SwitchTo, LeavesHeap, Abandoned;
    ExitThenSwitch(vm, TASK3, TASK1);
  }

  lemma SplitsFrom(vm: Vm, d: nat) returns (vm1: Vm, vm2: Vm, vm3: Vm, vm4: Vm, vm5: Vm, vm6: Vm, e: nat)
    requires BeforeFork(vm, TASK2) && vm.freeDirs != [] && vm.freeDirs[0] == d && d < NR_TASKS
    requires !vm.m.pt[Slot(d, 511)].present && !vm.m.pt[Slot(d, 510)].present
    requires vm.dirOf[TASK3].None? && vm.dirOf[TASK4].None? && forall t: nat :: UserTask(vm, t) ==> t == TASK1
    requires forall t :: 0 <= t < NR_TASKS && t != TASK1 ==> vm.dirOf[t] != Some(vm.m.cr3)
    ensures Splits(vm, vm1, vm2, vm3, vm4, vm5, vm6) && Abandoned(vm6, vm.m.cr3, d, e)
  {
    hide VmInv, TakenSoFar, SoleHeap, ForkedMem, Fork, Sbrk, SwitchTo, Wf, TwoDirs, Three, Exit, LeavesHeap, Abandoned;
    ForkChild(vm, TASK2);
    vm1 := Fork(vm, TASK2).value;
    GrowInChild(vm, vm1, d);
    vm2 := SwitchTo(vm1, TASK2);
    vm3 := Sbrk(vm2, TWO_PAGES).0;
    SpareInChild(vm, vm1, d);
    TwoDirsFrom(vm, vm1, vm3, d);
    TwoHeapFrom(vm, vm1, vm3, d);
    SplitFrom(vm3, vm.m.cr3, d);
    vm4 := Fork(vm3, TASK3).value;
    e := vm3.freeDirs[0];
    AbandonedStep(vm4, vm.m.cr3, d, e);
    vm5 := Exit(vm4, TASK3);
    vm6 := SwitchTo(vm5, TASK1);
  }

  /** Task 4 is forked, runs and takes one page of heap. */
  ghost predicate Readies(vm: Vm, vm1: Vm, vm2: Vm, vm3: Vm) {
    && OnCpu(vm) && vm.cur == TASK1 && Fork(vm, TASK4) == Some(vm1)
    && OnCpu(vm1) && Live(vm1, TASK4) && vm2 == SwitchTo(vm1, TASK4)
    && OnCpu(vm2) && vm3 == Sbrk(vm2, ONE_PAGE).0
  }

  lemma ReadiesFrom(vm: Vm, d1: nat, d: nat, e: nat) returns (vm1: Vm, vm2: Vm, vm3: Vm)
    requires Abandoned(vm, d1, d, e)
    ensures Readies(vm, vm1, vm2, vm3) && Ready(vm3, d1, d, e)
  {
    hide VmInv, Three, SoleHeap, Fork, Sbrk, SwitchTo, Wf, ForkedMem;
    ForkChild(vm, TASK4);
    vm1 := Fork(vm, TASK4).value;
    SwitchAgain(vm, vm1, d1, d, e);
    vm2 := SwitchTo(vm1, TASK4);
    ReadyFrom(vm2, d1, d, e);
    vm3 := Sbrk(vm2, ONE_PAGE).0;
  }
}
