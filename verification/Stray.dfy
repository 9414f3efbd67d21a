/**
 Accesses outside the own address space, in any state that satisfies the invariant. They get through
 only by entries that outlive their owner; here is exactly when such a store changes a page that
 somebody owns, when it spoils the frame books, and what such a load returns.
 */
module Stray {
  import opened Mm
  import opened Cow
  import opened AddressSpace
  import opened VmInvariant
  import opened Access
  import opened UserCode
  import opened ExitProof
  import opened ForkProof

  // ---------------------------------------------------------------- what the store does

  /** A store of the running task to a page that is not part of its address space. */
  ghost predicate IsStray(vm: Vm, addr: nat) {
    VmInv(vm) && UserTask(vm, vm.cur) && addr < 0x1_0000_0000 && !SpacePage(vm, addr / PAGE_SIZE)
  }

  ghost function EntryAt(vm: Vm, addr: nat): (e: Pte)
    requires VmWf(vm) && addr / PAGE_SIZE < TOTAL_PAGES
  {
    vm.m.pt[Slot(vm.m.cr3, addr / PAGE_SIZE)]
  }

  /** What the fault handler does to any entry `k` with a count of 1 or more: it maps `g` writable. */
  ghost predicate Remapped(m: Mem, m': Mem, k: Slot, g: FrameNo)
    requires Wf(m) && ValidSlot(k)
  {
    var f := m.pt[k].frame;
    && m'.pt == m.pt[k := Pte(true, true, true, g)]
    && if m.cow[f] == 1 then
         g == f && m'.used == m.used && m'.ram == m.ram && m'.cow == m.cow[f := 0]
       else
         && m.cow[f] >= 2 && UserFrame(g) && !m.used[g]
         && m'.used == m.used[g := true] && m'.ram == m.ram[g := m.ram[f]]
         && m'.cow == m.cow[f := m.cow[f] - 1][g := 0]
  }

  /** The memory once the store is let through, and the frame it goes to. */
  ghost predicate Through(vm: Vm, addr: nat, m': Mem, g: FrameNo)
    requires VmWf(vm) && addr / PAGE_SIZE < TOTAL_PAGES
  {
    if Allowed(EntryAt(vm, addr), true) then
      g == EntryAt(vm, addr).frame && m' == Cache(vm.m, addr / PAGE_SIZE)
    else
      AccessOk(vm.heapTop[vm.cur], addr, 1) && Remapped(vm.m, m', Slot(vm.m.cr3, addr / PAGE_SIZE), g)
  }

  lemma AccessOkPage(top: int, addr: nat)
    requires 0 <= top <= HEAP_START && HeapPageSize(top) <= MAX_HEAP_PAGES && addr < 0x1_0000_0000
    requires AccessOk(top, addr, 1)
    ensures PAG_LOG_INIT_CODE <= addr / PAGE_SIZE <= PAG_LOG_INIT_HEAP
  {
  }

  lemma FaultAny(m: Mem, page: nat)
    requires Wf(m) && TablesOk(m) && TlbInv(m) && page !in m.tlb && page < TEMP_PAGE
    requires forall g :: NUM_PAG_KERNEL <= g < 272 && g % 2 == 0 ==> m.used[g]
    ensures var r := FaultFix(m, m.cr3, page);
      && (m.cow[m.pt[Slot(m.cr3, page)].frame] == 1 ==> r.Some?)
      && (r.Some? ==>
            && page !in r.value.tlb && r.value.cr3 == m.cr3
            && Remapped(m, r.value, Slot(m.cr3, page), r.value.pt[Slot(m.cr3, page)].frame))
  {
    hide CopyFrame, FirstFree;
    var f := m.pt[Slot(m.cr3, page)].frame;
    if m.cow[f] >= 2 {
      var (m1, g) := AllocFrame(m.(cow := m.cow[f := Wrap8(m.cow[f] as int - 1)]));
      if g != -1 {
        CopyFrameEffect(m1, m.cr3, page, g);
      }
    }
  }

  /** Dropping a cached translation. */
  lemma EvictedParts(m: Mem, m1: Mem, page: nat)
    requires Wf(m) && TablesOk(m) && TlbInv(m) && m1 == m.(tlb := m.tlb - {page})
    ensures Wf(m1) && TablesOk(m1) && TlbInv(m1) && page !in m1.tlb
  {
  }

  lemma RemappedFrom(m: Mem, m1: Mem, m': Mem, k: Slot, g: FrameNo)
    requires Wf(m) && Wf(m1) && ValidSlot(k) && m1 == m.(tlb := m1.tlb) && Remapped(m1, m', k, g)
    ensures Remapped(m, m', k, g)
  {
  }

  lemma StrayFault(vm: Vm, m: Mem, addr: nat)
    requires IsStray(vm, addr) && addr / PAGE_SIZE < TEMP_PAGE
    requires m == vm.m.(tlb := vm.m.tlb - {addr / PAGE_SIZE})
    ensures var r := FaultFix(m, m.cr3, addr / PAGE_SIZE);
      && (vm.m.cow[EntryAt(vm, addr).frame] == 1 ==> r.Some?)
      && (r.Some? ==>
            var k := Slot(vm.m.cr3, addr / PAGE_SIZE);
            && addr / PAGE_SIZE !in r.value.tlb && r.value.cr3 == vm.m.cr3
            && Remapped(vm.m, r.value, k, r.value.pt[k].frame))
  {
    FixedCountsHold(vm.m, Owned(vm), UserDirs(vm));
    MemInvParts(vm.m, Owned(vm), UserDirs(vm));
    CodeFramesUsed(vm.m, Owned(vm), {});
    hide MemInv, DirInv, HeapInv, Owned, UserDirs, CowInv, FaultFix, Remapped, SpacePage, UserTask, TablesOk, TlbInv;
    EvictedParts(vm.m, m, addr / PAGE_SIZE);
    FaultAny(m, addr / PAGE_SIZE);
    var r, k := FaultFix(m, m.cr3, addr / PAGE_SIZE), Slot(vm.m.cr3, addr / PAGE_SIZE);
    if r.Some? {
      RemappedFrom(vm.m, m, r.value, k, r.value.pt[k].frame);
    }
  }

  /** A stray store either ends in the fault handler or gets through as described. */
  lemma StrayTouch(vm: Vm, addr: nat)
    requires IsStray(vm, addr)
    ensures addr / PAGE_SIZE < TOTAL_PAGES && Allowed(EntryAt(vm, addr), true) ==> Touch(vm, addr, true).Running?
    ensures AccessOk(vm.heapTop[vm.cur], addr, 1) ==>
      addr / PAGE_SIZE < TOTAL_PAGES && (vm.m.cow[EntryAt(vm, addr).frame] == 1 ==> Touch(vm, addr, true).Running?)
    ensures Touch(vm, addr, true).Running? ==>
      var vm' := Touch(vm, addr, true).vm;
      && vm' == vm.(m := vm'.m) && Through(vm, addr, vm'.m, Translate(vm'.m, addr / PAGE_SIZE).frame)
  {
    var page := addr / PAGE_SIZE;
    StrayPageOk(vm, addr);
    TouchCases(vm, addr, true);
    hide VmInv, IsStray, AccessOk, FaultFix, Remapped, Touch, Wf, HeapPageSize;
    if page < TOTAL_PAGES && !Allowed(EntryAt(vm, addr), true) && AccessOk(vm.heapTop[vm.cur], addr, 1) {
      StrayFault(vm, vm.m.(tlb := vm.m.tlb - {page}), addr);
    }
  }

  lemma StrayPageOk(vm: Vm, addr: nat)
    requires IsStray(vm, addr)
    ensures OnCpu(vm) && addr < 0x1_0000_0000
    ensures AccessOk(vm.heapTop[vm.cur], addr, 1) ==> PAG_LOG_INIT_CODE <= addr / PAGE_SIZE <= PAG_LOG_INIT_HEAP
    ensures addr / PAGE_SIZE < TOTAL_PAGES ==> Translate(vm.m, addr / PAGE_SIZE) == EntryAt(vm, addr)
  {
    assert HeapPageSize(vm.heapTop[vm.cur]) <= MAX_HEAP_PAGES;
    if AccessOk(vm.heapTop[vm.cur], addr, 1) {
      AccessOkPage(vm.heapTop[vm.cur], addr);
    }
    if addr / PAGE_SIZE < TOTAL_PAGES {
      TranslateAny(vm.m, Owned(vm), UserDirs(vm), addr / PAGE_SIZE);
    }
    hide MemInv, DirInv, HeapInv, Owned, UserDirs, AccessOk, HeapPageSize;
  }

  /** An access, case by case. */
  lemma TouchCases(vm: Vm, addr: nat, write: bool)
    requires OnCpu(vm) && addr < 0x1_0000_0000
    requires AccessOk(vm.heapTop[vm.cur], addr, 1) ==> addr / PAGE_SIZE < TOTAL_PAGES
    ensures var page := addr / PAGE_SIZE;
      if page < TOTAL_PAGES && Allowed(Translate(vm.m, page), write) then
        Touch(vm, addr, write) == Running(vm.(m := Cache(vm.m, page)))
      else if !AccessOk(vm.heapTop[vm.cur], addr, 1) then Touch(vm, addr, write) == Halted
      else
        match FaultFix(vm.m.(tlb := vm.m.tlb - {page}), vm.m.cr3, page)
        case None => Touch(vm, addr, write) == Halted
        case Some(m1) => Touch(vm, addr, write) == Running(vm.(m := Cache(m1, page)))
  {
    hide AccessOk, FaultFix, Cache, Allowed;
  }

  // ---------------------------------------------------------------- whose page it changes

  ghost predicate FrameOwned(vm: Vm, f: nat)
    requires VmWf(vm)
  {
    exists j :: j in Owned(vm) && j in vm.m.pt && vm.m.pt[j].frame == f
  }

  /** The store is let through to the frame that the entry maps now, not to a copy. */
  ghost predicate HitsFrame(vm: Vm, addr: nat)
    requires VmWf(vm) && addr / PAGE_SIZE < TOTAL_PAGES
  {
    || Allowed(EntryAt(vm, addr), true)
    || (AccessOk(vm.heapTop[vm.cur], addr, 1) && vm.m.cow[EntryAt(vm, addr).frame] == 1)
  }

  /** The store goes to a frame that an owned page maps. */
  ghost predicate Reaches(vm: Vm, addr: nat)
    requires VmWf(vm)
  {
    addr / PAGE_SIZE < TOTAL_PAGES && HitsFrame(vm, addr) && FrameOwned(vm, EntryAt(vm, addr).frame)
  }

  lemma OwnedFacts(vm: Vm)
    requires VmInv(vm)
    ensures Owned(vm) <= vm.m.pt.Keys
    ensures forall j :: j in Owned(vm) ==> vm.m.used[vm.m.pt[j].frame]
  {
    MemInvParts(vm.m, Owned(vm), UserDirs(vm));
    UsedOwned(vm.m, Owned(vm));
    hide MemInv, Owned, CowInv;
  }

  lemma ViewAt(vm: Vm, j: Slot)
    requires VmInv(vm) && j in Owned(vm)
    ensures j in vm.m.pt && j in View(vm) && View(vm)[j] == vm.m.ram[vm.m.pt[j].frame]
  {
    OwnedFacts(vm);
    hide VmInv, Owned;
  }

  lemma StoreIs(vm: Vm, addr: nat, v: Byte)
    requires OnCpu(vm) && addr < 0x1_0000_0000 && Store(vm, addr, v).Running?
    ensures Touch(vm, addr, true).Running? && addr / PAGE_SIZE < TOTAL_PAGES
    ensures var m1 := Touch(vm, addr, true).vm.m;
      var g := Translate(m1, addr / PAGE_SIZE).frame;
      && Store(vm, addr, v).vm == Touch(vm, addr, true).vm.(m := Store(vm, addr, v).vm.m)
      && Store(vm, addr, v).vm.m == m1.(ram := m1.ram[g := m1.ram[g][addr % PAGE_SIZE := v]])
  {
    hide Touch;
  }

  /** The frame of an owned page after the store went to frame `g`. */
  lemma ThroughFrame(vm: Vm, addr: nat, m1: Mem, g: FrameNo, f: FrameNo)
    requires VmWf(vm) && addr / PAGE_SIZE < TOTAL_PAGES && Wf(m1) && Through(vm, addr, m1, g) && vm.m.used[f]
    ensures m1.ram[f] == vm.m.ram[f]
    ensures g == f <==> HitsFrame(vm, addr) && f == EntryAt(vm, addr).frame
  {
    hide AccessOk;
    CacheRest(vm.m, addr / PAGE_SIZE);
  }

  lemma ThroughTables(vm: Vm, addr: nat, m1: Mem, g: FrameNo)
    requires VmWf(vm) && addr / PAGE_SIZE < TOTAL_PAGES && Wf(m1) && Through(vm, addr, m1, g)
    ensures m1.pt.Keys == vm.m.pt.Keys
    ensures forall j :: j in vm.m.pt && j != Slot(vm.m.cr3, addr / PAGE_SIZE) ==> m1.pt[j] == vm.m.pt[j]
  {
    hide AccessOk;
    CacheRest(vm.m, addr / PAGE_SIZE);
  }

  /** What a stray store that gets through does to an owned page. */
  lemma StrayPage(vm: Vm, addr: nat, v: Byte, j: Slot)
    requires IsStray(vm, addr) && Store(vm, addr, v).Running? && j in Owned(vm)
    ensures addr / PAGE_SIZE < TOTAL_PAGES && j in vm.m.pt && j in Store(vm, addr, v).vm.m.pt
    ensures var m' := Store(vm, addr, v).vm.m;
      var was := vm.m.ram[vm.m.pt[j].frame];
      m'.ram[m'.pt[j].frame] ==
        if HitsFrame(vm, addr) && vm.m.pt[j].frame == EntryAt(vm, addr).frame then was[addr % PAGE_SIZE := v] else was
  {
    StoreIs(vm, addr, v);
    StrayTouch(vm, addr);
    OwnedFacts(vm);
    hide VmInv, Owned, Touch, Store, UserTask, Through, HitsFrame, Wf;
    var m1 := Touch(vm, addr, true).vm.m;
    ThroughTables(vm, addr, m1, Translate(m1, addr / PAGE_SIZE).frame);
    ThroughFrame(vm, addr, m1, Translate(m1, addr / PAGE_SIZE).frame, vm.m.pt[j].frame);
  }

  lemma CacheRest(m: Mem, page: nat)
    requires Wf(m) && page < TOTAL_PAGES
    ensures Cache(m, page).pt == m.pt && Cache(m, page).ram == m.ram
    ensures Cache(m, page).used == m.used && Cache(m, page).cow == m.cow
  {
  }

  /** No owned page other than the one written to changes. */
  ghost predicate OthersKept(vm: Vm, addr: nat, v: Byte)
    requires VmInv(vm) && addr < 0x1_0000_0000
  {
    Store(vm, addr, v).Running? ==>
      var m' := Store(vm, addr, v).vm.m;
      forall j :: j in Owned(vm) && j in m'.pt && j != Slot(vm.m.cr3, addr / PAGE_SIZE) ==>
        m'.ram[m'.pt[j].frame] == vm.m.ram[vm.m.pt[j].frame]
  }

  lemma StrayKept(vm: Vm, addr: nat, v: Byte)
    requires IsStray(vm, addr) && !Reaches(vm, addr)
    ensures OthersKept(vm, addr, v)
  {
    hide VmInv, Owned, Store, HitsFrame;
    if Store(vm, addr, v).Running? {
      var m' := Store(vm, addr, v).vm.m;
      forall j | j in Owned(vm) && j in m'.pt && j != Slot(vm.m.cr3, addr / PAGE_SIZE)
        ensures m'.ram[m'.pt[j].frame] == vm.m.ram[vm.m.pt[j].frame]
      {
        StrayPage(vm, addr, v, j);
      }
    }
  }

  lemma StrayRuns(vm: Vm, addr: nat, v: Byte)
    requires IsStray(vm, addr) && Reaches(vm, addr)
    ensures Store(vm, addr, v).Running?
  {
    StrayTouch(vm, addr);
    hide VmInv, Owned, Touch, AccessOk, UserTask, FrameOwned, Through;
  }

  lemma StrayChanges(vm: Vm, addr: nat) returns (v: Byte)
    requires IsStray(vm, addr) && Reaches(vm, addr)
    ensures !OthersKept(vm, addr, v)
  {
    hide VmInv, Owned, Store, AccessOk, UserTask;
    var off := addr % PAGE_SIZE;
    var j :| j in Owned(vm) && j in vm.m.pt && vm.m.pt[j].frame == EntryAt(vm, addr).frame;
    var page := vm.m.ram[vm.m.pt[j].frame];
    v := if page[off] == 0 then 1 else 0;
    StrayRuns(vm, addr, v);
    StrayPage(vm, addr, v, j);
    assert page[off := v][off] == v;
  }

  lemma WriteOther(e: map<Slot, Page>, k: Slot, off: nat, v: Byte, j: Slot)
    requires k in e && off < PAGE_SIZE && j in e && j != k
    ensures j in WriteByte(e, k, off, v) && WriteByte(e, k, off, v)[j] == e[j]
  {
  }

  lemma SpaceKept(vm: Vm, addr: nat, v: Byte)
    requires VmInv(vm) && addr < 0x1_0000_0000 && SpacePage(vm, addr / PAGE_SIZE)
    ensures OthersKept(vm, addr, v)
  {
    hide VmInv, Owned, Store, Stuck, View, Spaces, WriteByte;
    StoreRefines(vm, addr, v);
    if Store(vm, addr, v).Running? {
      var vm' := Store(vm, addr, v).vm;
      StoreBooks(vm, addr, v);
      forall j | j in Owned(vm) && j in vm'.m.pt && j != Slot(vm.m.cr3, addr / PAGE_SIZE)
        ensures vm'.m.ram[vm'.m.pt[j].frame] == vm.m.ram[vm.m.pt[j].frame]
      {
        ViewAt(vm, j);
        ViewAt(vm', j);
        WriteOther(View(vm), Slot(vm.m.cr3, addr / PAGE_SIZE), addr % PAGE_SIZE, v, j);
      }
    }
  }

  lemma StoreBooks(vm: Vm, addr: nat, v: Byte)
    requires VmInv(vm) && addr < 0x1_0000_0000 && Store(vm, addr, v).Running? && VmInv(Store(vm, addr, v).vm)
    requires SpacePage(vm, addr / PAGE_SIZE)
    ensures Owned(Store(vm, addr, v).vm) == Owned(vm)
  {
    TouchKeeps(vm, addr, true);
    hide MemInv, DirInv, HeapInv, Owned, Touch, Stuck, Spaces;
    SameBooks(vm, Store(vm, addr, v).vm);
  }

  /**
   Isolation of one store, to any address, exactly: whatever byte is written, no other owned page
   changes iff the page belongs to the own address space or the store does not reach an owned frame.
   */
  lemma StoreIsolatedIff(vm: Vm, addr: nat)
    requires VmInv(vm) && UserTask(vm, vm.cur) && addr < 0x1_0000_0000
    ensures (forall v: Byte :: OthersKept(vm, addr, v)) <==> SpacePage(vm, addr / PAGE_SIZE) || !Reaches(vm, addr)
  {
    hide VmInv, Owned, OthersKept, Reaches;
    if !SpacePage(vm, addr / PAGE_SIZE) && Reaches(vm, addr) {
      var v := StrayChanges(vm, addr);
    } else {
      forall v: Byte
        ensures OthersKept(vm, addr, v)
      {
        if SpacePage(vm, addr / PAGE_SIZE) {
          SpaceKept(vm, addr, v);
        } else {
          StrayKept(vm, addr, v);
        }
      }
    }
  }

  // ---------------------------------------------------------------- what it does to the books

  /** Clearing the count of a frame that nobody owns. */
  lemma CountElsewhere(m: Mem, m': Mem, owned: set<Slot>, k: Slot, f: FrameNo)
    requires CowInv(m, owned, {}) && k !in owned && ValidSlot(k) && Remapped(m, m', k, f) && Wf(m')
    requires m.pt[k].frame == f && m.cow[f] == 1 && forall j :: j in owned ==> m.pt[j].frame != f
    ensures CowInv(m', owned, {})
  {
    OwnersFrame(m.pt, m'.pt, owned);
    assert SharedAtSamePage(m'.pt, owned);
    assert FixedCounts(m');
  }

  /** A read-only page with count 0 breaks the count law. */
  lemma CountCleared(m: Mem, m': Mem, owned: set<Slot>, k: Slot, j: Slot)
    requires CowInv(m, owned, {}) && k !in owned && ValidSlot(k) && j in owned && Wf(m') && owned <= m'.pt.Keys
    requires Remapped(m, m', k, m.pt[k].frame) && m.pt[j].frame == m.pt[k].frame && m.cow[m.pt[k].frame] == 1
    ensures !CountLaw(m', owned)
  {
    assert CountLaw(m, owned);
    hide Owners, Accounted, OwnedMapped, SharedAtSamePage, ReservedFree, FixedCounts;
    assert m'.pt[j] == m.pt[j];
  }

  /** A frame in use that nobody owns breaks the frame accounting. */
  lemma FrameLost(m: Mem, m': Mem, owned: set<Slot>, k: Slot, g: FrameNo)
    requires CowInv(m, owned, {}) && k !in owned && ValidSlot(k) && Wf(m') && owned <= m'.pt.Keys
    requires Remapped(m, m', k, g) && m.cow[m.pt[k].frame] >= 2
    ensures !Accounted(m', owned, {})
  {
    UsedOwned(m, owned);
    hide CountLaw, Accounted, OwnedMapped, SharedAtSamePage, ReservedFree, FixedCounts, CowInv;
    OwnersFrame(m.pt, m'.pt, owned);
    assert Owners(m'.pt, owned, g) == {};
    NotAccounted(m', owned, g);
  }

  lemma NotAccounted(m: Mem, owned: set<Slot>, g: FrameNo)
    requires Wf(m) && owned <= m.pt.Keys && m.used[g] && UserFrame(g) && Owners(m.pt, owned, g) == {}
    ensures !Accounted(m, owned, {})
  {
  }

  lemma RemappedBooksIff(m: Mem, m': Mem, owned: set<Slot>, k: Slot, g: FrameNo)
    requires CowInv(m, owned, {}) && k !in owned && ValidSlot(k) && Remapped(m, m', k, g) && Wf(m')
    ensures CowInv(m', owned, {}) <==> m.cow[m.pt[k].frame] == 1 && forall j :: j in owned ==>
      m.pt[j].frame != m.pt[k].frame
  {
    var f := m.pt[k].frame;
    if m.cow[f] >= 2 {
      FrameLost(m, m', owned, k, g);
    } else if j :| j in owned && m.pt[j].frame == f {
      CountCleared(m, m', owned, k, j);
    } else {
      CountElsewhere(m, m', owned, k, f);
    }
  }

  /**
   The frame books survive a stray store exactly when its entry was writable, or it was read-only with
   a count of 1 on a frame that nobody owns.
   */
  lemma StrayBooksIff(vm: Vm, addr: nat, v: Byte)
    requires IsStray(vm, addr) && Store(vm, addr, v).Running?
    ensures addr / PAGE_SIZE < TOTAL_PAGES
    ensures var e := EntryAt(vm, addr);
      CowInv(Store(vm, addr, v).vm.m, Owned(vm), {}) <==>
        Allowed(e, true) || (vm.m.cow[e.frame] == 1 && !FrameOwned(vm, e.frame))
  {
    StoreRest(vm, addr, v);
    StrayTouch(vm, addr);
    OwnedFacts(vm);
    MemInvParts(vm.m, Owned(vm), UserDirs(vm));
    hide VmInv, Owned, Touch, Store, UserTask, CowInv, AccessOk, Remapped;
    var m1, m2 := Touch(vm, addr, true).vm.m, Store(vm, addr, v).vm.m;
    CacheRest(vm.m, addr / PAGE_SIZE);
    var k := Slot(vm.m.cr3, addr / PAGE_SIZE);
    if Allowed(EntryAt(vm, addr), true) {
      UnownedIrrelevant(vm.m, m2, Owned(vm), {});
    } else {
      RemappedBooksIff(vm.m, m1, Owned(vm), k, Translate(m1, addr / PAGE_SIZE).frame);
      BooksSame(m1, m2, Owned(vm));
    }
  }

  lemma StoreRest(vm: Vm, addr: nat, v: Byte)
    requires OnCpu(vm) && addr < 0x1_0000_0000 && Store(vm, addr, v).Running?
    ensures Touch(vm, addr, true).Running? && addr / PAGE_SIZE < TOTAL_PAGES
    ensures var m1, m2 := Touch(vm, addr, true).vm.m, Store(vm, addr, v).vm.m;
      m2.pt == m1.pt && m2.used == m1.used && m2.cow == m1.cow && Wf(m1) && Wf(m2)
  {
    hide Touch;
  }

  lemma BooksSame(m1: Mem, m2: Mem, owned: set<Slot>)
    requires Wf(m1) && Wf(m2) && m2.pt == m1.pt && m2.used == m1.used && m2.cow == m1.cow
    ensures CowInv(m1, owned, {}) <==> CowInv(m2, owned, {})
  {
    hide CowInv;
    if CowInv(m1, owned, {}) {
      UnownedIrrelevant(m1, m2, owned, {});
    }
    if CowInv(m2, owned, {}) {
      UnownedIrrelevant(m2, m1, owned, {});
    }
  }

  // ---------------------------------------------------------------- the stores that do no harm

  /** The store is let through to a frame that nobody owns. */
  ghost predicate Harmless(vm: Vm, addr: nat)
    requires VmWf(vm)
  {
    addr / PAGE_SIZE < TOTAL_PAGES && HitsFrame(vm, addr) && !FrameOwned(vm, EntryAt(vm, addr).frame)
  }

  /** The store leaves the frame books exact and every owned page as it was. */
  ghost predicate Kept(vm: Vm, addr: nat, v: Byte)
    requires VmInv(vm) && addr < 0x1_0000_0000
  {
    Store(vm, addr, v).Running? ==> OthersKept(vm, addr, v) && CowInv(Store(vm, addr, v).vm.m, Owned(vm), {})
  }

  /** Exactly the stray stores that get through to unowned frames keep both contents and books. */
  lemma HarmlessIff(vm: Vm, addr: nat)
    requires IsStray(vm, addr) && Touch(vm, addr, true).Running?
    ensures (forall v: Byte :: Kept(vm, addr, v)) <==> Harmless(vm, addr)
  {
    StrayTouch(vm, addr);
    hide VmInv, Owned, Touch, UserTask, AccessOk, CowInv, OthersKept, FrameOwned, Remapped;
    forall v: Byte
      ensures Store(vm, addr, v).Running?
      ensures Kept(vm, addr, v) <==>
        && OthersKept(vm, addr, v) && HitsFrame(vm, addr)
        && (Allowed(EntryAt(vm, addr), true) || !FrameOwned(vm, EntryAt(vm, addr).frame))
    {
      StrayBooksIff(vm, addr, v);
    }
    StoreIsolatedIff(vm, addr);
    assert Kept(vm, addr, 0) ==> HitsFrame(vm, addr);
  }

  /** A frame that a stray store can go to backs user pages. */
  lemma HitsUserFrame(vm: Vm, addr: nat)
    requires IsStray(vm, addr) && addr / PAGE_SIZE < TOTAL_PAGES && HitsFrame(vm, addr)
    ensures UserPage(addr / PAGE_SIZE) && UserFrame(EntryAt(vm, addr).frame) && EntryAt(vm, addr).present
  {
    var page := addr / PAGE_SIZE;
    assert HeapPageSize(vm.heapTop[vm.cur]) <= MAX_HEAP_PAGES;
    if AccessOk(vm.heapTop[vm.cur], addr, 1) {
      AccessOkPage(vm.heapTop[vm.cur], addr);
    }
    CurDir(vm);
    FixedCountsHold(vm.m, Owned(vm), UserDirs(vm));
    assert CodeMapped(vm.m, vm.m.cr3);
    hide MemInv, DirInv, HeapInv, Owned, UserDirs, AccessOk, HeapPageSize;
  }

  /** The upgrade of an unowned entry with count 1. */
  lemma StrayUpgrade(m: Mem, owned: set<Slot>, dirs: set<nat>, page: nat)
    requires MemInv(m, owned, dirs) && page !in m.tlb && UserPage(page) && Slot(m.cr3, page) !in owned
    requires var f := m.pt[Slot(m.cr3, page)].frame;
      UserFrame(f) && m.cow[f] == 1 && forall j :: j in owned ==> m.pt[j].frame != f
    ensures FaultFix(m, m.cr3, page).Some? && MemInv(FaultFix(m, m.cr3, page).value, owned, dirs)
    ensures FaultFix(m, m.cr3, page).value.ram == m.ram
  {
    var k := Slot(m.cr3, page);
    var f := m.pt[k].frame;
    var m' := FaultFix(m, m.cr3, page).value;
    assert m' == m.(cow := m.cow[f := 0], pt := m.pt[k := Pte(true, true, true, f)]);
    MemInvParts(m, owned, dirs);
    hide CowInv, TablesOk, CodeInv, FaultFix;
    CountElsewhere(m, m', owned, k, f);
    EntryChange(m, m', dirs, k, Pte(true, true, true, f));
    FaultTlb(m, m', page, Pte(true, true, true, f));
  }

  /** What a harmless store leaves, up to the byte it writes. */
  lemma HarmlessTouch(vm: Vm, addr: nat)
    requires IsStray(vm, addr) && Harmless(vm, addr)
    ensures Touch(vm, addr, true).Running?
    ensures var vm' := Touch(vm, addr, true).vm;
      && vm' == vm.(m := vm'.m) && vm'.m.cr3 == vm.m.cr3 && MemInv(vm'.m, Owned(vm), UserDirs(vm))
      && vm'.m.ram == vm.m.ram && Translate(vm'.m, addr / PAGE_SIZE).frame == EntryAt(vm, addr).frame
  {
    var page := addr / PAGE_SIZE;
    HitsUserFrame(vm, addr);
    StrayTouch(vm, addr);
    OwnedFacts(vm);
    TranslateAny(vm.m, Owned(vm), UserDirs(vm), page);
    hide VmInv, Owned, UserDirs, MemInv, FaultFix, AccessOk;
    if Allowed(EntryAt(vm, addr), true) {
      CacheKeeps(vm.m, Owned(vm), UserDirs(vm), page);
    } else {
      var m1 := vm.m.(tlb := vm.m.tlb - {page});
      EvictKeeps(vm.m, Owned(vm), UserDirs(vm), page);
      StrayUpgrade(m1, Owned(vm), UserDirs(vm), page);
      var m2 := FaultFix(m1, m1.cr3, page).value;
      CacheKeeps(m2, Owned(vm), UserDirs(vm), page);
    }
  }

  lemma RamElsewhere(m: Mem, owned: set<Slot>, dirs: set<nat>, f: FrameNo, p: Page)
    requires MemInv(m, owned, dirs) && forall j :: j in owned ==> m.pt[j].frame != f
    ensures MemInv(m.(ram := m.ram[f := p]), owned, dirs)
    ensures Spaces(m.(ram := m.ram[f := p]), owned) == Spaces(m, owned)
  {
    UnownedIrrelevant(m, m.(ram := m.ram[f := p]), owned, {});
    hide CowInv;
  }

  lemma HarmlessFrames(vm: Vm, addr: nat)
    requires IsStray(vm, addr) && Harmless(vm, addr) && Touch(vm, addr, true).Running?
    requires Touch(vm, addr, true).vm.m.ram == vm.m.ram
    ensures var m1 := Touch(vm, addr, true).vm.m;
      && Owned(vm) <= m1.pt.Keys && Spaces(m1, Owned(vm)) == View(vm)
      && forall j :: j in Owned(vm) ==> m1.pt[j].frame != EntryAt(vm, addr).frame
  {
    StrayTouch(vm, addr);
    OwnedFacts(vm);
    hide VmInv, Owned, Touch, UserTask, HitsFrame, Through, Wf;
    var m1 := Touch(vm, addr, true).vm.m;
    ThroughTables(vm, addr, m1, Translate(m1, addr / PAGE_SIZE).frame);
    SpacesFrame(vm.m, m1, Owned(vm));
  }

  /** A harmless store keeps the invariant, all contents, and the kernel's and the code frames. */
  lemma HarmlessKeeps(vm: Vm, addr: nat, v: Byte)
    requires IsStray(vm, addr) && Harmless(vm, addr)
    ensures Store(vm, addr, v).Running? && VmInv(Store(vm, addr, v).vm) && View(Store(vm, addr, v).vm) == View(vm)
    ensures forall g :: 0 <= g < 272 ==> Store(vm, addr, v).vm.m.ram[g] == vm.m.ram[g]
  {
    HarmlessTouch(vm, addr);
    HarmlessFrames(vm, addr);
    HitsUserFrame(vm, addr);
    StoreIs(vm, addr, v);
    hide VmInv, Owned, UserDirs, MemInv, Touch, Store, AccessOk, UserTask, Spaces, HitsFrame, FrameOwned, Wf;
    var m1, f := Touch(vm, addr, true).vm.m, EntryAt(vm, addr).frame;
    RamElsewhere(m1, Owned(vm), UserDirs(vm), f, m1.ram[f][addr % PAGE_SIZE := v]);
    MemOnly(vm, Store(vm, addr, v).vm.m);
  }

  // ---------------------------------------------------------------- loads

  /**
   A load outside the own address space gets through exactly when the entry is present for user code.
   It changes nothing and returns the byte of whatever the frame holds, an owned page's if one maps it.
   */
  lemma StrayLoad(vm: Vm, addr: nat)
    requires IsStray(vm, addr)
    ensures Touch(vm, addr, false).Running? <==> addr / PAGE_SIZE < TOTAL_PAGES && Allowed(EntryAt(vm, addr), false)
    ensures Touch(vm, addr, false).Running? ==>
      var vm' := Touch(vm, addr, false).vm;
      && VmInv(vm') && View(vm') == View(vm) && vm'.m.ram == vm.m.ram
      && Loaded(vm', addr) == vm.m.ram[EntryAt(vm, addr).frame][addr % PAGE_SIZE]
      && forall j :: j in View(vm) && j in vm.m.pt && vm.m.pt[j].frame == EntryAt(vm, addr).frame ==>
           Loaded(vm', addr) == View(vm)[j][addr % PAGE_SIZE]
  {
    var page := addr / PAGE_SIZE;
    if page < TOTAL_PAGES && Allowed(EntryAt(vm, addr), false) {
      TranslateAny(vm.m, Owned(vm), UserDirs(vm), page);
      hide MemInv, Owned, UserDirs, DirInv, HeapInv;
      CacheKeeps(vm.m, Owned(vm), UserDirs(vm), page);
      MemOnly(vm, Cache(vm.m, page));
    } else {
      LoadHalts(vm, addr);
    }
  }

  lemma LoadHalts(vm: Vm, addr: nat)
    requires IsStray(vm, addr) && !(addr / PAGE_SIZE < TOTAL_PAGES && Allowed(EntryAt(vm, addr), false))
    ensures Touch(vm, addr, false).Halted?
  {
    var page := addr / PAGE_SIZE;
    assert HeapPageSize(vm.heapTop[vm.cur]) <= MAX_HEAP_PAGES;
    if AccessOk(vm.heapTop[vm.cur], addr, 1) {
      AccessOkPage(vm.heapTop[vm.cur], addr);
    }
    if page < TOTAL_PAGES {
      CurDir(vm);
      TranslateAny(vm.m, Owned(vm), UserDirs(vm), page);
      FixedCountsHold(vm.m, Owned(vm), UserDirs(vm));
      assert CodeMapped(vm.m, vm.m.cr3);
      hide MemInv, DirInv, HeapInv, Owned, UserDirs, AccessOk, HeapPageSize, AllocFrame, CopyFrame, SetSsPag;
    }
  }
}
