/**
 Loads and stores of the running task, at the level of the whole address-space state.
 */
module UserCode {
  import opened Basics
  import opened Mm
  import opened Cow
  import opened AddressSpace
  import opened VmInvariant
  import opened Access

  ghost function View(vm: Vm): (r: map<Slot, Page>)
    requires VmInv(vm)
  {
    Spaces(vm.m, Owned(vm))
  }

  ghost predicate OwnPage(vm: Vm, page: nat)
    requires VmWf(vm)
  {
    UserTask(vm, vm.cur) && InWindow(vm.heapTop[vm.cur], page)
  }

  /** A page of the running task's address space: its own window, or the heap of another thread. */
  ghost predicate SpacePage(vm: Vm, page: nat)
    requires VmWf(vm)
  {
    UserTask(vm, vm.cur) && Slot(vm.m.cr3, page) in Owned(vm)
  }

  ghost predicate CodePage(vm: Vm, page: nat)
    requires VmWf(vm)
  {
    UserTask(vm, vm.cur) && PAG_LOG_INIT_CODE <= page < PAG_LOG_INIT_CODE + NUM_PAG_CODE
  }

  lemma MemOnly(vm: Vm, m': Mem)
    requires VmInv(vm) && MemInv(m', Owned(vm), UserDirs(vm)) && m'.cr3 == vm.m.cr3
    ensures VmInv(vm.(m := m')) && Owned(vm.(m := m')) == Owned(vm) && UserDirs(vm.(m := m')) == UserDirs(vm)
  {
    var vm' := vm.(m := m');
    assert forall t, k :: Owns(vm', t, k) <==> Owns(vm, t, k);
    assert Owned(vm') == Owned(vm);
    assert forall t: nat :: UserTask(vm', t) <==> UserTask(vm, t);
    assert UserDirs(vm') == UserDirs(vm);
    hide MemInv, Owned, UserDirs;
  }

  lemma OwnPageOwned(vm: Vm, page: nat)
    requires VmInv(vm) && OwnPage(vm, page)
    ensures SpacePage(vm, page)
  {
    assert Owns(vm, vm.cur, Slot(vm.m.cr3, page));
  }

  /** Every page a task owns passes the check at the head of `pf_rsi`. */
  lemma OwnPageAccepted(vm: Vm, addr: nat)
    requires VmInv(vm) && OwnPage(vm, addr / PAGE_SIZE)
    ensures AccessOk(vm.heapTop[vm.cur], addr, 1)
  {
    hide MemInv;
  }

  /**
   What else passes it: code, the page below the heap, all of it, and the page above the data but for its
   last byte. Nothing more.
   */
  lemma AcceptedExactly(top: int, addr: nat)
    requires 0 <= top <= HEAP_START && HeapPageSize(top) <= MAX_HEAP_PAGES && addr < 0x1_0000_0000
    ensures var page := addr / PAGE_SIZE;
      AccessOk(top, addr, 1) <==>
        || PAG_LOG_INIT_CODE <= page < PAG_LOG_INIT_CODE + NUM_PAG_CODE
        || InWindow(top, page)
        || page == PAG_LOG_INIT_HEAP - HeapPageSize(top)
        || (page == PAG_LOG_INIT_DATA + NUM_PAG_DATA && (addr + 1) % PAGE_SIZE != 0)
  {
    hide HeapPageSize;
    PageOfNext(addr);
  }

  lemma PageOfNext(addr: nat)
    requires addr < 0x1_0000_0000
    ensures (addr + 1) % 0x1_0000_0000 / PAGE_SIZE ==
      if addr + 1 == 0x1_0000_0000 then 0
      else if (addr + 1) % PAGE_SIZE == 0 then addr / PAGE_SIZE + 1 else addr / PAGE_SIZE
  {
  }

  ghost predicate MustCopy(m: Mem, page: nat)
    requires Wf(m) && page < TOTAL_PAGES
  {
    !m.pt[Slot(m.cr3, page)].rw && m.cow[m.pt[Slot(m.cr3, page)].frame] >= 2
  }

  /** A write that the fault handler never lets through: refused by `access_ok`, or a copy without a frame. */
  ghost predicate Stuck(vm: Vm, addr: nat)
    requires VmWf(vm) && addr / PAGE_SIZE < TOTAL_PAGES
  {
    && !vm.m.pt[Slot(vm.m.cr3, addr / PAGE_SIZE)].rw
    && (!AccessOk(vm.heapTop[vm.cur], addr, 1) || (MustCopy(vm.m, addr / PAGE_SIZE) && OutOfFrames(vm.m)))
  }

  /** In the own window only the missing frame remains. */
  lemma OwnStuck(vm: Vm, addr: nat)
    requires VmInv(vm) && OwnPage(vm, addr / PAGE_SIZE)
    ensures addr / PAGE_SIZE < TOTAL_PAGES
    ensures Stuck(vm, addr) <==> MustCopy(vm.m, addr / PAGE_SIZE) && OutOfFrames(vm.m)
  {
    OwnPageAccepted(vm, addr);
    hide MemInv, AccessOk;
  }

  lemma SpacePageFacts(vm: Vm, page: nat)
    requires VmInv(vm) && SpacePage(vm, page)
    ensures PAG_LOG_INIT_DATA <= page <= PAG_LOG_INIT_HEAP
  {
    hide MemInv;
  }

  /** What an access to a page of the own address space leaves. */
  ghost predicate Touched(vm: Vm, vm': Vm, page: nat)
    requires VmInv(vm) && page < TOTAL_PAGES
  {
    && vm' == vm.(m := vm'.m) && vm'.m.cr3 == vm.m.cr3
    && MemInv(vm'.m, Owned(vm), UserDirs(vm))
    && Spaces(vm'.m, Owned(vm)) == Spaces(vm.m, Owned(vm))
    && Translate(vm'.m, page) == vm'.m.pt[Slot(vm.m.cr3, page)]
  }

  lemma CacheTouches(vm: Vm, m: Mem, page: nat)
    requires VmInv(vm) && SpacePage(vm, page) && page < TOTAL_PAGES
    requires m.cr3 == vm.m.cr3 && MemInv(m, Owned(vm), UserDirs(vm)) && Spaces(m, Owned(vm)) == Spaces(vm.m, Owned(vm))
    ensures Touched(vm, vm.(m := Cache(m, page)), page)
  {
    TranslateOwned(m, Owned(vm), UserDirs(vm), page);
    hide MemInv, Owned, UserDirs, DirInv, HeapInv;
    CacheKeeps(m, Owned(vm), UserDirs(vm), page);
    SpacesFrame(m, Cache(m, page), Owned(vm));
  }

  lemma FaultTouches(vm: Vm, addr: nat)
    requires VmInv(vm) && addr < 0x1_0000_0000 && SpacePage(vm, addr / PAGE_SIZE) && addr / PAGE_SIZE < TOTAL_PAGES
    requires !vm.m.pt[Slot(vm.m.cr3, addr / PAGE_SIZE)].rw
    ensures var page := addr / PAGE_SIZE;
      var r := PfRsi(vm.(m := vm.m.(tlb := vm.m.tlb - {page})), addr);
      && (r.Halted? <==> Stuck(vm, addr))
      && (r.Running? ==> Touched(vm, r.vm.(m := Cache(r.vm.m, page)), page))
  {
    hide MemInv, Owned, UserDirs, Spaces, FaultFix, AccessOk, Cache, Touched, DirInv, HeapInv;
    var page := addr / PAGE_SIZE;
    var owned, dirs := Owned(vm), UserDirs(vm);
    var m1 := vm.m.(tlb := vm.m.tlb - {page});
    EvictKeeps(vm.m, owned, dirs, page);
    assert WriteFault(m1, owned, dirs, page);
    FaultHaltsOnlyWhenFull(m1, owned, dirs, page);
    FaultKeeps(m1, owned, dirs, page);
    SpacesFrame(vm.m, m1, owned);
    if FaultFix(m1, m1.cr3, page).Some? {
      CacheTouches(vm, FaultFix(m1, m1.cr3, page).value, page);
    }
  }

  /**
   An access to a page of the own address space completes, except for a stuck write; it needs at
   most one fault and leaves all contents as they were.
   */
  lemma TouchKeeps(vm: Vm, addr: nat, write: bool)
    requires VmInv(vm) && addr < 0x1_0000_0000 && SpacePage(vm, addr / PAGE_SIZE)
    ensures addr / PAGE_SIZE < TOTAL_PAGES
    ensures Touch(vm, addr, write).Halted? <==> write && Stuck(vm, addr)
    ensures Touch(vm, addr, write).Running? ==> Touched(vm, Touch(vm, addr, write).vm, addr / PAGE_SIZE)
  {
    var page := addr / PAGE_SIZE;
    SpacePageFacts(vm, page);
    TranslateOwned(vm.m, Owned(vm), UserDirs(vm), page);
    hide MemInv, Owned, UserDirs, Spaces, AccessOk, Cache, PfRsi, Touched, DirInv, HeapInv;
    if Allowed(Translate(vm.m, page), write) {
      CacheTouches(vm, vm.m, page);
    } else {
      FaultTouches(vm, addr);
    }
  }

  /** A store to a page of the own address space is a write to that space's copy of the page. */
  lemma StoreRefines(vm: Vm, addr: nat, v: Byte)
    requires VmInv(vm) && addr < 0x1_0000_0000 && SpacePage(vm, addr / PAGE_SIZE)
    ensures addr / PAGE_SIZE < TOTAL_PAGES
    ensures Store(vm, addr, v).Halted? <==> Stuck(vm, addr)
    ensures Slot(vm.m.cr3, addr / PAGE_SIZE) in View(vm)
    ensures Store(vm, addr, v).Running? ==>
      && VmInv(Store(vm, addr, v).vm)
      && View(Store(vm, addr, v).vm) == WriteByte(View(vm), Slot(vm.m.cr3, addr / PAGE_SIZE), addr % PAGE_SIZE, v)
  {
    TouchKeeps(vm, addr, true);
    hide MemInv, Owned, UserDirs, Touch;
    if Touch(vm, addr, true).Running? {
      var m1 := Touch(vm, addr, true).vm.m;
      var k := Slot(vm.m.cr3, addr / PAGE_SIZE);
      PokeKeeps(m1, Owned(vm), UserDirs(vm), k, addr % PAGE_SIZE, v);
      MemOnly(vm, Store(vm, addr, v).vm.m);
    }
  }

  /** A load from a page of the own address space never halts and returns that space's contents. */
  lemma LoadRefines(vm: Vm, addr: nat)
    requires VmInv(vm) && addr < 0x1_0000_0000 && SpacePage(vm, addr / PAGE_SIZE)
    ensures Touch(vm, addr, false).Running?
    ensures VmInv(Touch(vm, addr, false).vm) && View(Touch(vm, addr, false).vm) == View(vm)
    ensures Slot(vm.m.cr3, addr / PAGE_SIZE) in View(vm)
    ensures Loaded(Touch(vm, addr, false).vm, addr) == View(vm)[Slot(vm.m.cr3, addr / PAGE_SIZE)][addr % PAGE_SIZE]
  {
    TouchKeeps(vm, addr, false);
    hide MemInv, Owned, UserDirs, Touch;
    var vm' := Touch(vm, addr, false).vm;
    MemOnly(vm, vm'.m);
    assert Spaces(vm'.m, Owned(vm))[Slot(vm.m.cr3, addr / PAGE_SIZE)] ==
      Spaces(vm.m, Owned(vm))[Slot(vm.m.cr3, addr / PAGE_SIZE)];
  }
}
