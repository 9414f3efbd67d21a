/**
 Accesses outside the owned pages. `free_user_pages` releases entry 511-i but clears entry 511+i,
 so a directory can keep entries of a dead heap. Without such entries every access of user code,
 to any address, is either an access to its own pages or the end of the run.
 */
module Isolation {
  import opened Basics
  import opened Mm
  import opened Cow
  import opened CowLoops
  import opened AddressSpace
  import opened VmInvariant
  import opened Access
  import opened UserCode
  import opened ForkProof
  import opened ExitProof
  import opened SbrkProof
  import opened Runs
  import opened Boot
  import opened Threads
  import opened Ledger

  /** Every mapped page above the code belongs to a live address space. */
  ghost predicate Sealed(vm: Vm)
    requires VmWf(vm)
  {
    forall k :: k in vm.m.pt && k.page >= PAG_LOG_INIT_DATA && vm.m.pt[k].present ==> k in Owned(vm)
  }

  /** The entry a page outside the address space has in a sealed state. */
  lemma UnownedEntry(vm: Vm, page: nat)
    requires VmInv(vm) && Sealed(vm) && UserTask(vm, vm.cur) && page < TOTAL_PAGES && !SpacePage(vm, page)
    ensures var e := vm.m.pt[Slot(vm.m.cr3, page)];
      || (page < NUM_PAG_KERNEL && !e.user)
      || (PAG_LOG_INIT_CODE <= page < PAG_LOG_INIT_DATA && e == CodePte(page))
      || (page >= PAG_LOG_INIT_DATA && e == NULL_PTE)
  {
    CurDir(vm);
    FixedCountsHold(vm.m, Owned(vm), UserDirs(vm));
    assert CodeMapped(vm.m, vm.m.cr3);
    hide MemInv, Owned, UserDirs;
  }

  /** Outside its address space (and reads of code) user code cannot get any further. */
  lemma OutsideHalts(vm: Vm, addr: nat, write: bool)
    requires VmInv(vm) && Sealed(vm) && UserTask(vm, vm.cur) && addr < 0x1_0000_0000
    requires !SpacePage(vm, addr / PAGE_SIZE) && (write || !CodePage(vm, addr / PAGE_SIZE))
    ensures Touch(vm, addr, write).Halted?
  {
    var page := addr / PAGE_SIZE;
    assert HeapPageSize(vm.heapTop[vm.cur]) <= MAX_HEAP_PAGES;
    if page < TOTAL_PAGES {
      UnownedEntry(vm, page);
      TranslateAny(vm.m, Owned(vm), UserDirs(vm), page);
      FixedCountsHold(vm.m, Owned(vm), UserDirs(vm));
      hide MemInv, Owned, UserDirs, HeapInv, DirInv, AllocFrame, CopyFrame, SetSsPag;
      if page >= NUM_PAG_KERNEL {
        assert vm.m.cow[vm.m.pt[Slot(vm.m.cr3, page)].frame] == 0;
      }
    }
  }

  /** Full isolation in a sealed state: any store, to any address. */
  lemma AnyStoreIsolated(vm: Vm, addr: nat, v: Byte)
    requires VmInv(vm) && Sealed(vm) && UserTask(vm, vm.cur) && addr < 0x1_0000_0000
    ensures Store(vm, addr, v).Running? ==>
      && SpacePage(vm, addr / PAGE_SIZE)
      && Slot(vm.m.cr3, addr / PAGE_SIZE) in View(vm)
      && VmInv(Store(vm, addr, v).vm)
      && View(Store(vm, addr, v).vm) == WriteByte(View(vm), Slot(vm.m.cr3, addr / PAGE_SIZE), addr % PAGE_SIZE, v)
  {
    hide VmInv, Sealed, Touch, View, WriteByte, UserTask, Stuck, Owned;
    if SpacePage(vm, addr / PAGE_SIZE) {
      StoreRefines(vm, addr, v);
    } else {
      OutsideHalts(vm, addr, true);
    }
  }

  // ---------------------------------------------------------------- which steps keep a state sealed

  /** Pages that become mapped are owned, pages that stop being owned are unmapped. */
  lemma SealedBy(vm: Vm, vm': Vm)
    requires VmWf(vm) && VmWf(vm') && Sealed(vm)
    requires forall k :: k in vm'.m.pt && k.page >= PAG_LOG_INIT_DATA ==>
      vm'.m.pt[k].present && !vm.m.pt[k].present ==> k in Owned(vm')
    requires forall k :: k in Owned(vm) && k !in Owned(vm') ==> !vm'.m.pt[k].present
    ensures Sealed(vm')
  {
    hide Owned;
  }

  lemma TouchPt(vm: Vm, addr: nat, write: bool)
    requires VmInv(vm) && addr < 0x1_0000_0000 && SpacePage(vm, addr / PAGE_SIZE)
    ensures Touch(vm, addr, write).Running? ==>
      forall k :: k in vm.m.pt && k != Slot(vm.m.cr3, addr / PAGE_SIZE) ==>
        Touch(vm, addr, write).vm.m.pt[k] == vm.m.pt[k]
  {
    hide MemInv, Owned, UserDirs, FaultFix, AccessOk, DirInv, HeapInv;
    var page := addr / PAGE_SIZE;
    TranslateOwned(vm.m, Owned(vm), UserDirs(vm), page);
    if !Allowed(Translate(vm.m, page), write) {
      var m1 := vm.m.(tlb := vm.m.tlb - {page});
      EvictKeeps(vm.m, Owned(vm), UserDirs(vm), page);
      assert WriteFault(m1, Owned(vm), UserDirs(vm), page);
      FaultEffect(m1, Owned(vm), UserDirs(vm), page);
    }
  }

  lemma AccessSealed(vm: Vm, addr: nat, vm': Vm, write: bool)
    requires VmInv(vm) && Sealed(vm) && addr < 0x1_0000_0000 && SpacePage(vm, addr / PAGE_SIZE)
    requires VmInv(vm') && Touch(vm, addr, write).Running? && vm' == vm.(m := vm'.m)
    requires vm'.m.pt == Touch(vm, addr, write).vm.m.pt
    ensures Sealed(vm')
  {
    hide Touch, MemInv, DirInv, HeapInv, Owned, Sealed;
    TouchPt(vm, addr, write);
    SameBooks(vm, vm');
    SealedBy(vm, vm');
  }

  lemma SameTablesSealed(vm: Vm, vm': Vm)
    requires VmInv(vm) && Sealed(vm) && VmWf(vm') && vm'.m.pt == vm.m.pt && Owned(vm') == Owned(vm)
    ensures Sealed(vm')
  {
    hide MemInv, Owned;
  }

  lemma ForkSealed(vm: Vm, child: nat)
    requires VmInv(vm) && Sealed(vm) && UserTask(vm, vm.cur) && child < NR_TASKS && vm.dirOf[child].None?
    ensures child != vm.cur && Fork(vm, child).Some? && Sealed(Fork(vm, child).value)
  {
    hide Fork, MemInv, Owned, UserDirs, DirInv, ForkPages, Sealed;
    ForkBooks(vm, child);
    var d, top := vm.freeDirs[0], vm.heapTop[vm.cur];
    var vm' := Fork(vm, child).value;
    ForkOwned(vm, vm', child, d, top);
    WindowOwned(vm, vm.cur);
    ForkPtChanges(vm.m, vm.m.cr3, d, top);
    SealedBy(vm, vm');
  }

  lemma ForkPtChanges(m: Mem, src: nat, dst: nat, top: int)
    requires Wf(m) && src < NR_TASKS && dst < NR_TASKS && src != dst && 0 <= top <= HEAP_START
    requires HeapPageSize(top) <= MAX_HEAP_PAGES
    ensures forall k :: k in m.pt && !ForkTouches(k, src, dst, top) ==>
      k in ForkPages(m, src, dst, top).pt && ForkPages(m, src, dst, top).pt[k] == m.pt[k]
  {
    hide ShareAll, CopyCode;
    SharesFrame(m, src, dst, top);
  }

  lemma SbrkSealed(vm: Vm, increment: I32)
    requires CanSbrk(vm) && Sealed(vm)
    ensures Sealed(Sbrk(vm, increment).0)
  {
    hide MemInv, Owned, UserDirs, DirInv, HeapInv, NewHeapTop, MoveHeap, Sealed, Wf, SoleHeap;
    var r := NewHeapTop(vm.heapTop[vm.cur], increment);
    if increment != 0 && r.Some? {
      if SoleHeap(vm, vm.cur) {
        MoveSealed(vm, r.value);
      } else {
        MoveRefused(vm, r.value);
        SameBooks(vm, MoveHeap(vm, r.value).0);
        SameTablesSealed(vm, MoveHeap(vm, r.value).0);
      }
    }
  }

  lemma MoveSealed(vm: Vm, top': int)
    requires CanMove(vm) && 0 <= top' <= HEAP_START && Sealed(vm)
    ensures Sealed(MoveHeap(vm, top').0)
  {
    hide MemInv, Owned, UserDirs, DirInv, HeapInv, Sealed, Grow, GrowFailed, Shrink, HeapPageSize, Slots;
    var d, act, new_ := vm.m.cr3, HeapPageSize(vm.heapTop[vm.cur]), HeapPageSize(top');
    var vm' := MoveHeap(vm, top').0;
    if act < new_ && Grow(vm.m, d, act, new_).Some? {
      CanGrow(vm, new_);
      GrowMem(vm.m, vm'.m, Owned(vm), UserDirs(vm), d, act, new_);
      GrowFrame(vm.m, d, act, new_);
      GrowSlots(vm, vm', top');
      SealedBy(vm, vm');
    } else if act < new_ {
      MemInvParts(vm.m, Owned(vm), UserDirs(vm));
      GrowFailedKeeps(vm.m, Owned(vm), d, act, new_);
      SameBooks(vm, vm');
      SameTablesSealed(vm, vm');
    } else {
      ShrinkSlots(vm, vm', top');
      ShrinkKeeps(vm.m, Owned(vm), UserDirs(vm), d, act, new_);
      SealedBy(vm, vm');
    }
  }

  /** An entry that outlives its owner: still mapped for user code as before, and no longer owned. */
  ghost predicate Stale(vm: Vm, vm': Vm, k: Slot) {
    && VmWf(vm) && VmWf(vm') && k in vm.m.pt && k in vm'.m.pt
    && vm'.m.pt[k] == vm.m.pt[k] && vm.m.pt[k].present && vm.m.pt[k].user && k !in Owned(vm')
  }

  /** The heap entries that survive the death of a directory: all but page 511. */
  lemma StaleEntries(vm: Vm, next: nat, p: nat)
    requires VmInv(vm) && UserTask(vm, vm.cur) && Live(vm, next) && next != vm.cur
    requires vm.dirCount[vm.m.cr3] == 1 && p < TOTAL_PAGES
    ensures PAG_LOG_INIT_HEAP - HeapPageSize(vm.heapTop[vm.cur]) < p < PAG_LOG_INIT_HEAP ==>
      Stale(vm, Exit(vm, next), Slot(vm.m.cr3, p))
  {
    var d, top := vm.m.cr3, vm.heapTop[vm.cur];
    assert HeapPageSize(top) <= MAX_HEAP_PAGES;
    MemInvParts(vm.m, Owned(vm), UserDirs(vm));
    ExitCounts(vm);
    var vm1 := FreeDir(vm, vm.cur);
    assert vm1.m == FreeUserPages(vm.m, d, top);
    hide MemInv, Owned, UserDirs, DirInv, HeapInv, CowInv, FreeUserPages, TablesOk, CodeInv, DirSlots, CountsHolders,
      IdleAlone;
    ExitOwned(vm, vm1);
    SameBooks(vm1, Exit(vm, next));
    FreePagesFrame(vm.m, d, top);
    DirSlotsOut(Owned(vm), d);
    if PAG_LOG_INIT_HEAP - HeapPageSize(top) < p < PAG_LOG_INIT_HEAP {
      OwnPageOwned(vm, p);
      UsedOwned(vm.m, Owned(vm));
    }
  }

  lemma DirSlotsOut(owned: set<Slot>, d: nat)
    ensures forall k :: k in owned - DirSlots(owned, d) <==> k in owned && k.dir != d
  {
  }

  /** Exit leaves mapped pages without an owner: the heap below page 511 with the last task, all of it before. */
  ghost predicate ExitLeaves(vm: Vm)
    requires OnCpu(vm)
  {
    HeapPageSize(vm.heapTop[vm.cur]) >= if vm.dirCount[vm.m.cr3] <= 1 then 2 else 1
  }

  /** Exit keeps a sealed state sealed exactly when it leaves no such pages. */
  lemma ExitSealed(vm: Vm, next: nat)
    requires VmInv(vm) && Sealed(vm) && UserTask(vm, vm.cur) && Live(vm, next) && next != vm.cur
    ensures Sealed(Exit(vm, next)) <==> !ExitLeaves(vm)
  {
    var d, top := vm.m.cr3, vm.heapTop[vm.cur];
    ExitCounts(vm);
    if !ExitLeaves(vm) {
      ExitSealedIf(vm, next);
    } else if vm.dirCount[d] == 1 {
      StaleEntries(vm, next, 510);
    } else {
      SharedExitUnseals(vm, next);
    }
  }

  lemma SharedExitUnseals(vm: Vm, next: nat)
    requires VmInv(vm) && UserTask(vm, vm.cur) && Live(vm, next) && next != vm.cur && LeavesHeap(vm)
    ensures !Sealed(Exit(vm, next))
  {
    InvShared(vm);
    SharedExit(vm, next);
    UsedOwned(vm.m, Owned(vm));
    hide VmInv, Owned, Exit, SharedSpace, CowInv;
    var k := LastHeapPage(vm);
    UncoveredLost(vm, Exit(vm, next));
    assert Exit(vm, next).m.pt[k].present && k.page >= PAG_LOG_INIT_DATA;
  }

  lemma ExitSealedIf(vm: Vm, next: nat)
    requires VmInv(vm) && Sealed(vm) && UserTask(vm, vm.cur) && Live(vm, next) && next != vm.cur
    requires vm.dirCount[vm.m.cr3] >= 1 && !ExitLeaves(vm)
    ensures Sealed(Exit(vm, next))
  {
    hide MemInv, Owned, UserDirs, DirInv, HeapInv, Sealed, FreeDir, CountsHolders, IdleAlone;
    ExitCounts(vm);
    var vm1 := FreeDir(vm, vm.cur);
    ExitOwned(vm, vm1);
    FreeDirTables(vm);
    SealedBy(vm, vm1);
    SameBooks(vm1, Exit(vm, next));
    TablesSealed(vm1, Exit(vm, next));
  }

  lemma TablesSealed(vm: Vm, vm': Vm)
    requires VmWf(vm) && Sealed(vm) && VmWf(vm') && vm'.m.pt == vm.m.pt && Owned(vm') == Owned(vm)
    ensures Sealed(vm')
  {
    hide Owned;
  }

  lemma FreeDirTables(vm: Vm)
    requires VmInv(vm) && UserTask(vm, vm.cur) && vm.dirCount[vm.m.cr3] >= 1 && !ExitLeaves(vm)
    ensures var vm1 := FreeDir(vm, vm.cur);
      && (forall k :: k in vm1.m.pt && vm1.m.pt[k].present ==> vm.m.pt[k].present)
      && (vm.dirCount[vm.m.cr3] == 1 ==> forall k :: k in DirSlots(Owned(vm), vm.m.cr3) ==> !vm1.m.pt[k].present)
  {
    hide MemInv, Owned, UserDirs, DirInv, FreeUserPages, WindowSlots, InWindow, HeapPageSize;
    var d, top := vm.m.cr3, vm.heapTop[vm.cur];
    if vm.dirCount[d] == 1 {
      SoleHolderHeap(vm);
      OwnedWindow(vm, vm.cur);
      FreePagesClear(vm.m, d, top);
    }
  }

  lemma FreePagesClear(m: Mem, d: nat, top: int)
    requires Wf(m) && d < NR_TASKS && 0 <= top <= HEAP_START && HeapPageSize(top) <= 1
    ensures var m' := FreeUserPages(m, d, top);
      && (forall k :: k in m'.pt && m'.pt[k].present ==> m.pt[k].present)
      && (forall k :: k in WindowSlots(d, top) && k in m'.pt ==> !m'.pt[k].present)
  {
    hide FreeUserPages;
    FreePagesFrame(m, d, top);
  }

  // ---------------------------------------------------------------- runs

  /** The one kind of step that leaves mapped pages without an owner. */
  ghost predicate LeavesEntries(vm: Vm, op: Op)
    requires OnCpu(vm)
  {
    op.DoExit? && ExitLeaves(vm)
  }

  /** In a sealed state every access that gets through is one to the own address space. */
  lemma RunningProper(vm: Vm, op: Op)
    requires VmInv(vm) && Sealed(vm) && Enabled(vm, op) && Step(vm, op).Running? && !LeavesEntries(vm, op)
    ensures Proper(vm, op) && Inside(vm, op)
  {
    hide VmInv, Sealed, Touch, Fork, Sbrk, Exit, Clone, SwitchTo, Cache, Owned;
    match op
    case DoLoad(addr) =>
      if !SpacePage(vm, addr / PAGE_SIZE) && !CodePage(vm, addr / PAGE_SIZE) {
        OutsideHalts(vm, addr, false);
      }
    case DoStore(addr, v) =>
      if !SpacePage(vm, addr / PAGE_SIZE) {
        OutsideHalts(vm, addr, true);
      }
    case _ =>
  }

  /** An access to the own address space, or a load of code. */
  ghost predicate Inside(vm: Vm, op: Op)
    requires OnCpu(vm)
  {
    && (op.DoLoad? ==> SpacePage(vm, op.addr / PAGE_SIZE) || CodePage(vm, op.addr / PAGE_SIZE))
    && (op.DoStore? ==> SpacePage(vm, op.addr / PAGE_SIZE))
  }

  lemma SealedStep(vm: Vm, op: Op)
    requires VmInv(vm) && Sealed(vm) && Enabled(vm, op) && Step(vm, op).Running?
    ensures VmWf(Step(vm, op).vm) && (Sealed(Step(vm, op).vm) <==> !LeavesEntries(vm, op))
  {
    if op.DoExit? {
      hide VmInv, Sealed, Exit, Owned;
      ExitSealed(vm, op.next);
    } else {
      hide VmInv, Sealed, Refines, Step, Enabled, Proper;
      RunningProper(vm, op);
      StepRefines(vm, op);
      assert VmInv(Step(vm, op).vm) by {
        RefinesInv(vm, op);
      }
      StaysSealed(vm, op);
    }
  }

  lemma RefinesInv(vm: Vm, op: Op)
    requires VmInv(vm) && Enabled(vm, op) && Refines(vm, op) && Step(vm, op).Running?
    ensures VmInv(Step(vm, op).vm)
  {
    hide VmInv, Step, Enabled, EagerNext, LabelOf, CodeImage, View;
  }

  lemma StaysSealed(vm: Vm, op: Op)
    requires VmInv(vm) && Sealed(vm) && Enabled(vm, op) && Step(vm, op).Running? && VmInv(Step(vm, op).vm)
    requires Inside(vm, op) && !op.DoExit?
    ensures Sealed(Step(vm, op).vm)
  {
    hide VmInv, Sealed, Touch, Fork, Sbrk, Exit, Clone, SwitchTo, Cache, Owned;
    var vm' := Step(vm, op).vm;
    match op
    case DoLoad(addr) =>
      if SpacePage(vm, addr / PAGE_SIZE) {
        TouchKeeps(vm, addr, false);
        AccessSealed(vm, addr, vm', false);
      } else {
        CodeLoad(vm, addr);
        CacheSealed(vm, addr / PAGE_SIZE);
      }
    case DoStore(addr, v) =>
      TouchKeeps(vm, addr, true);
      AccessSealed(vm, addr, vm', true);
    case DoFork(child) => ForkSealed(vm, child);
    case DoClone(child) => CloneSealed(vm, child);
    case DoSbrk(increment) => SbrkSealed(vm, increment);
    case DoSwitch(next) => SwitchSealed(vm, next);
    case TlbFill(page) => CacheSealed(vm, page);
    case TlbEvict(page) =>
      SameBooks(vm, vm');
      SameTablesSealed(vm, vm');
  }

  lemma CacheSealed(vm: Vm, page: nat)
    requires VmInv(vm) && Sealed(vm) && page < TOTAL_PAGES
    ensures Sealed(vm.(m := Cache(vm.m, page)))
  {
    hide MemInv, Owned, Sealed, DirInv, HeapInv;
    SameBooks(vm, vm.(m := Cache(vm.m, page)));
    SameTablesSealed(vm, vm.(m := Cache(vm.m, page)));
  }

  lemma SwitchSealed(vm: Vm, next: nat)
    requires VmInv(vm) && Sealed(vm) && Live(vm, next)
    ensures Sealed(SwitchTo(vm, next))
  {
    hide MemInv, Owned, Sealed, DirInv, HeapInv;
    SameBooks(vm, SwitchTo(vm, next));
    SameTablesSealed(vm, SwitchTo(vm, next));
  }

  lemma CloneSealed(vm: Vm, child: nat)
    requires VmInv(vm) && Sealed(vm) && UserTask(vm, vm.cur) && child < NR_TASKS && vm.dirOf[child].None?
    ensures Sealed(Clone(vm, child))
  {
    hide VmInv, Owned, Sealed;
    CloneKeeps(vm, child);
    SameTablesSealed(vm, Clone(vm, child));
  }

  /** No step of the run, up to the one that halts it, leaves mapped pages without an owner. */
  ghost predicate Clean(vm: Vm, ops: seq<Op>)
    requires OnCpu(vm) && AllEnabled(vm, ops)
    decreases |ops|
  {
    ops != [] && Step(vm, ops[0]).Running? ==>
      !LeavesEntries(vm, ops[0]) && Clean(Step(vm, ops[0]).vm, ops[1..])
  }

  /** Along a clean run every state is sealed and every access that gets through is a proper one. */
  lemma {:induction false} RunSealed(vm: Vm, ops: seq<Op>)
    requires VmInv(vm) && Sealed(vm) && AllEnabled(vm, ops) && Clean(vm, ops)
    ensures AllProper(vm, ops)
    ensures Run(vm, ops).Running? ==> VmInv(Run(vm, ops).vm) && Sealed(Run(vm, ops).vm)
    decreases |ops|
  {
    hide VmInv, Sealed, Enabled, Step, LeavesEntries, Refines, Proper;
    if ops != [] && Step(vm, ops[0]).Running? {
      RunningProper(vm, ops[0]);
      StepRefines(vm, ops[0]);
      RefinesInv(vm, ops[0]);
      SealedStep(vm, ops[0]);
      RunSealed(Step(vm, ops[0]).vm, ops[1..]);
    }
  }

  /**
   The memory theorem for arbitrary user code. Over every clean run from boot, with loads and stores
   to any address, any forks, clones, heap changes and switches: what gets through is a run of the
   eagerly copying machine, and the books are exact.
   */
  lemma CleanRunRefines(ram: seq<Page>, g0: nat, g1: nat, ops: seq<Op>)
    requires |ram| == TOTAL_PAGES
    ensures BootState(ram, g0, g1).Some? && VmInv(BootState(ram, g0, g1).value)
    ensures var vm := BootState(ram, g0, g1).value;
      AllEnabled(vm, ops) && Clean(vm, ops) && Run(vm, ops).Running? ==>
        && VmInv(Run(vm, ops).vm) && Sealed(Run(vm, ops).vm) && Ledger.Ledger(Run(vm, ops).vm)
        && EagerAccepts(CodeImage(vm.m), View(vm), Labels(vm, ops), View(Run(vm, ops).vm))
  {
    hide BootState, VmInv, AllEnabled, AllProper, Clean, Run, EagerAccepts, Labels, Ledger.Ledger, View, CodeImage,
      Sealed;
    BootInv(ram, g0, g1);
    BootDetails(ram, g0, g1);
    var vm := BootState(ram, g0, g1).value;
    BootSealed(vm);
    if AllEnabled(vm, ops) && Clean(vm, ops) {
      RunSealed(vm, ops);
      RunRefinesEagerCopy(vm, ops);
      if Run(vm, ops).Running? {
        InvLedger(Run(vm, ops).vm);
      }
    }
  }

  lemma BootSealed(vm: Vm)
    requires VmWf(vm)
    requires forall k :: k in vm.m.pt && k.page >= PAG_LOG_INIT_DATA && vm.m.pt[k].present ==> k in Owned(vm)
    ensures Sealed(vm)
  {
  }
}
