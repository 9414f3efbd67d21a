/**
 The kernel's half of every page table. Boot maps it and leaves out page 0 and the guard pages around the
 task array; no step of any run touches it again.
 */
module KernelMap {
  import opened Basics
  import opened Mm
  import opened Cow
  import opened CowLoops
  import opened AddressSpace
  import opened VmInvariant
  import opened UserCode
  import opened ForkProof
  import opened ExitProof
  import opened SbrkProof
  import opened Runs
  import opened Boot

  /** The entries below the user's pages are the same. */
  ghost predicate LowSame(m: Mem, m': Mem)
    requires Wf(m) && Wf(m')
  {
    forall k :: k in m.pt && k.page < NUM_PAG_KERNEL ==> m'.pt[k] == m.pt[k]
  }

  // ---------------------------------------------------------------- each step

  lemma CopyFrameLow(m: Mem, d: nat, page: nat, f: FrameNo)
    requires Wf(m) && d < NR_TASKS && page < TOTAL_PAGES
    ensures LowSame(m, CopyFrame(m, d, page, f))
  {
  }

  lemma FaultLow(m: Mem, d: nat, page: nat)
    requires Wf(m) && d < NR_TASKS && NUM_PAG_KERNEL <= page < TOTAL_PAGES
    ensures FaultFix(m, d, page).Some? ==> LowSame(m, FaultFix(m, d, page).value)
  {
    hide CopyFrame, FirstFree;
    var f := m.pt[Slot(d, page)].frame;
    if m.cow[f] >= 2 {
      var (m1, g) := AllocFrame(m.(cow := m.cow[f := Wrap8(m.cow[f] as int - 1)]));
      if g != -1 {
        CopyFrameLow(m1, d, page, g);
      }
    }
  }

  lemma TouchLow(vm: Vm, addr: nat, write: bool)
    requires VmInv(vm) && UserTask(vm, vm.cur) && addr < 0x1_0000_0000
    ensures Touch(vm, addr, write).Running? ==> LowSame(vm.m, Touch(vm, addr, write).vm.m)
  {
    assert HeapPageSize(vm.heapTop[vm.cur]) <= MAX_HEAP_PAGES;
    AcceptedExactly(vm.heapTop[vm.cur], addr);
    hide VmInv, UserTask, FaultFix, AccessOk, HeapPageSize;
    var page := addr / PAGE_SIZE;
    if NUM_PAG_KERNEL <= page < TOTAL_PAGES {
      FaultLow(vm.m.(tlb := vm.m.tlb - {page}), vm.dirOf[vm.cur].value, page);
    }
  }

  lemma StoreLow(vm: Vm, addr: nat, v: Byte)
    requires VmInv(vm) && UserTask(vm, vm.cur) && addr < 0x1_0000_0000
    ensures Store(vm, addr, v).Running? ==> LowSame(vm.m, Store(vm, addr, v).vm.m)
  {
    TouchLow(vm, addr, true);
    hide VmInv, UserTask, Touch;
  }

  lemma ForkPagesLow(m: Mem, src: nat, dst: nat, top: int)
    requires Wf(m) && src < NR_TASKS && dst < NR_TASKS && src != dst && 0 <= top <= HEAP_START
    requires HeapPageSize(top) <= MAX_HEAP_PAGES
    ensures LowSame(m, ForkPages(m, src, dst, top))
  {
    hide ShareAll, CopyCode, HeapPageSize;
    SharesFrame(m, src, dst, top);
  }

  lemma ForkLow(vm: Vm, child: nat)
    requires VmInv(vm) && UserTask(vm, vm.cur) && child < NR_TASKS && vm.dirOf[child].None?
    ensures child != vm.cur && (Fork(vm, child).Some? ==> LowSame(vm.m, Fork(vm, child).value.m))
  {
    ForkBooks(vm, child);
    assert HeapPageSize(vm.heapTop[vm.cur]) <= MAX_HEAP_PAGES;
    ForkPagesLow(vm.m, vm.m.cr3, vm.freeDirs[0], vm.heapTop[vm.cur]);
    hide VmInv, UserTask, ForkPages, HeapPageSize, LowSame, Wf;
  }

  lemma GrowLow(m: Mem, owned: set<Slot>, d: nat, act: nat, new_: nat)
    requires CowInv(m, owned, {}) && Grows(m, owned, d, act, new_) && Grow(m, d, act, new_).Some?
    ensures LowSame(m, Grow(m, d, act, new_).value)
  {
    hide CowInv, Grow;
    GrowCow(m, owned, d, act, new_);
    GrowFrame(m, d, act, new_);
  }

  lemma ShrinkLow(m: Mem, d: nat, act: nat, new_: nat)
    requires Wf(m) && d < NR_TASKS && new_ <= act <= MAX_HEAP_PAGES
    ensures LowSame(m, Shrink(m, d, act, new_))
  {
    hide FreeAll;
    FreeAllFrame(m, d, HeapPages(new_, act - new_));
  }

  lemma GrowFailedLow(m: Mem, owned: set<Slot>, d: nat, act: nat, new_: nat)
    requires CowInv(m, owned, {}) && d < NR_TASKS && act <= new_ <= 512
    ensures LowSame(m, GrowFailed(m, d, act, new_))
  {
    hide CowInv, GrowFailed;
    GrowFailedKeeps(m, owned, d, act, new_);
  }

  lemma HeapBounded(vm: Vm)
    requires CanMove(vm)
    ensures OnCpu(vm) && HeapPageSize(vm.heapTop[vm.cur]) <= MAX_HEAP_PAGES && CowInv(vm.m, Owned(vm), {})
  {
    hide CowInv, TablesOk, CodeInv, TlbInv, Owned, UserDirs, DirInv;
  }

  lemma MoveLow(vm: Vm, top': int)
    requires CanMove(vm) && 0 <= top' <= HEAP_START
    ensures OnCpu(vm) && LowSame(vm.m, MoveHeap(vm, top').0.m)
  {
    HeapBounded(vm);
    var d, act, new_ := vm.m.cr3, HeapPageSize(vm.heapTop[vm.cur]), HeapPageSize(top');
    hide CanMove, CowInv, Owned, Grow, GrowFailed, Shrink, HeapPageSize, Grows, LowSame, Wf;
    if act < new_ {
      if Grow(vm.m, d, act, new_).Some? {
        CanGrow(vm, new_);
        GrowLow(vm.m, Owned(vm), d, act, new_);
      } else {
        GrowFailedLow(vm.m, Owned(vm), d, act, new_);
      }
    } else {
      ShrinkLow(vm.m, d, act, new_);
    }
  }

  lemma SbrkLow(vm: Vm, increment: I32)
    requires CanSbrk(vm)
    ensures LowSame(vm.m, Sbrk(vm, increment).0.m)
  {
    hide VmInv, NewHeapTop, MoveHeap, SoleHeap;
    var r := NewHeapTop(vm.heapTop[vm.cur], increment);
    if increment != 0 && r.Some? {
      if SoleHeap(vm, vm.cur) {
        MoveLow(vm, r.value);
      } else {
        MoveRefused(vm, r.value);
      }
    }
  }

  lemma FreePagesLow(m: Mem, d: nat, top: int)
    requires Wf(m) && d < NR_TASKS && 0 <= top <= HEAP_START && HeapPageSize(top) <= MAX_HEAP_PAGES
    ensures LowSame(m, FreeUserPages(m, d, top))
  {
    hide FreeUserPages, HeapPageSize;
    FreePagesFrame(m, d, top);
  }

  lemma ExitLow(vm: Vm, next: nat)
    requires VmInv(vm) && UserTask(vm, vm.cur) && Live(vm, next) && next != vm.cur
    ensures LowSame(vm.m, Exit(vm, next).m)
  {
    assert HeapPageSize(vm.heapTop[vm.cur]) <= MAX_HEAP_PAGES;
    FreePagesLow(vm.m, vm.dirOf[vm.cur].value, vm.heapTop[vm.cur]);
    hide VmInv, UserTask, FreeUserPages, HeapPageSize, Wf;
  }

  lemma StepLow(vm: Vm, op: Op)
    requires VmInv(vm) && Enabled(vm, op) && Step(vm, op).Running?
    ensures VmWf(Step(vm, op).vm) && LowSame(vm.m, Step(vm, op).vm.m)
  {
    hide VmInv, Touch, Store, Fork, Sbrk, Exit, UserTask;
    match op
    case DoLoad(addr) => TouchLow(vm, addr, false);
    case DoStore(addr, v) => StoreLow(vm, addr, v);
    case DoFork(child) => ForkLow(vm, child);
    case DoSbrk(n) => SbrkLow(vm, n);
    case DoExit(next) => ExitLow(vm, next);
    case _ =>
  }

  // ---------------------------------------------------------------- whole runs

  lemma {:induction false} RunLow(vm: Vm, ops: seq<Op>)
    requires VmInv(vm) && AllEnabled(vm, ops) && AllProper(vm, ops)
    ensures Run(vm, ops).Running? ==> VmInv(Run(vm, ops).vm) && LowSame(vm.m, Run(vm, ops).vm.m)
    decreases |ops|
  {
    hide VmInv, Enabled, Proper, Step, LowSame;
    if ops == [] {
      LowRefl(vm.m);
    } else if Step(vm, ops[0]).Running? {
      StepRefines(vm, ops[0]);
      StepLow(vm, ops[0]);
      var vm1 := Step(vm, ops[0]).vm;
      RunLow(vm1, ops[1..]);
      if Run(vm, ops).Running? {
        LowTrans(vm.m, vm1.m, Run(vm, ops).vm.m);
      }
    }
  }

  lemma LowRefl(m: Mem)
    requires Wf(m)
    ensures LowSame(m, m)
  {
  }

  lemma LowTrans(m: Mem, m1: Mem, m2: Mem)
    requires Wf(m) && Wf(m1) && Wf(m2) && LowSame(m, m1) && LowSame(m1, m2)
    ensures LowSame(m, m2)
  {
  }

  /** Mapped one to one, for the kernel only; page 0 and the two guard pages fault for everybody. */
  ghost predicate KernelMapped(m: Mem, g0: nat, g1: nat)
    requires Wf(m)
  {
    forall d, p :: 0 <= d < NR_TASKS && 0 <= p < NUM_PAG_KERNEL ==>
      var e := m.pt[Slot(d, p)];
      && (e.present <==> p != 0 && p != g0 && p != g1)
      && !e.user && (e.present ==> e.rw && e.frame == p)
  }

  lemma KeptMap(m: Mem, m': Mem, g0: nat, g1: nat)
    requires Wf(m) && Wf(m') && KernelMapped(m, g0, g1) && LowSame(m, m')
    ensures KernelMapped(m', g0, g1)
  {
    assert forall d: nat, p: nat :: d < NR_TASKS && p < NUM_PAG_KERNEL ==> Slot(d, p) in m.pt;
  }

  lemma BootLow(ram: seq<Page>, g0: nat, g1: nat)
    requires |ram| == TOTAL_PAGES && BootState(ram, g0, g1).Some?
    ensures KernelMapped(BootState(ram, g0, g1).value.m, g0, g1)
  {
    hide InitMem, SetCodePages, SetDataPages, CowInv;
    var m := InitMem(ram, g0, g1);
    InitTables(ram, g0, g1);
    SetCodePagesEffect(m, TASK1_DIR, NUM_PAG_CODE);
    var m1 := SetCodePages(m, TASK1_DIR, NUM_PAG_CODE).value;
    SetDataPagesEffect(m1, TASK1_DIR, NUM_PAG_DATA);
    InitMapped(ram, g0, g1);
  }

  lemma InitMapped(ram: seq<Page>, g0: nat, g1: nat)
    requires |ram| == TOTAL_PAGES
    ensures KernelMapped(InitMem(ram, g0, g1), g0, g1)
  {
  }

  /** In every state reachable by proper steps the kernel's half of every table is as boot maps it. */
  lemma ReachableKernelMap(ram: seq<Page>, g0: nat, g1: nat, ops: seq<Op>)
    requires |ram| == TOTAL_PAGES
    ensures BootState(ram, g0, g1).Some? && VmInv(BootState(ram, g0, g1).value)
    ensures var vm := BootState(ram, g0, g1).value;
      AllEnabled(vm, ops) && AllProper(vm, ops) && Run(vm, ops).Running? ==>
        OnCpu(Run(vm, ops).vm) && KernelMapped(Run(vm, ops).vm.m, g0, g1)
  {
    BootInv(ram, g0, g1);
    BootLow(ram, g0, g1);
    hide BootState, VmInv, AllEnabled, AllProper, Run, KernelMapped, LowSame;
    var vm := BootState(ram, g0, g1).value;
    if AllEnabled(vm, ops) && AllProper(vm, ops) {
      RunLow(vm, ops);
      if Run(vm, ops).Running? {
        KeptMap(vm.m, Run(vm, ops).vm.m, g0, g1);
      }
    }
  }
}
