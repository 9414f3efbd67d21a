/**
 Task switches and `sys_exit`: the last task of a directory releases exactly what it owns.
 */
module ExitProof {
  import opened Basics
  import opened Mm
  import opened Cow
  import opened CowLoops
  import opened AddressSpace
  import opened VmInvariant
  import opened UserCode
  import opened ForkProof

  // ---------------------------------------------------------------- task switch

  lemma SameBooks(vm: Vm, vm': Vm)
    requires VmWf(vm) && VmWf(vm')
    requires vm'.dirOf == vm.dirOf && vm'.heapTop == vm.heapTop && vm'.idle == vm.idle
    requires vm'.dirCount == vm.dirCount && vm'.freeDirs == vm.freeDirs
    ensures Owned(vm') == Owned(vm) && UserDirs(vm') == UserDirs(vm)
    ensures DirInv(vm) ==> DirInv(vm')
    ensures HeapInv(vm) ==> HeapInv(vm')
  {
    hide Wf;
    assert forall t, k :: Owns(vm', t, k) <==> Owns(vm, t, k);
    assert Owned(vm') == Owned(vm);
    assert forall t: nat :: UserTask(vm', t) <==> UserTask(vm, t);
    assert UserDirs(vm') == UserDirs(vm);
  }

  /** A switch keeps the invariant, also when the CR3 reload is skipped. */
  lemma SwitchKeeps(vm: Vm, next: nat)
    requires VmInv(vm) && Live(vm, next)
    ensures VmInv(SwitchTo(vm, next)) && View(SwitchTo(vm, next)) == View(vm)
    ensures SwitchTo(vm, next).m == vm.m <==> vm.dirOf[next].value == vm.m.cr3
  {
    hide MemInv, Owned, UserDirs, DirInv, HeapInv, Spaces;
    SameBooks(vm, SwitchTo(vm, next));
    MemInvParts(vm.m, Owned(vm), UserDirs(vm));
    FlushKeeps(vm.m, Owned(vm), UserDirs(vm), vm.dirOf[next].value);
  }

  lemma MemInvParts(m: Mem, owned: set<Slot>, dirs: set<nat>)
    requires MemInv(m, owned, dirs)
    ensures CowInv(m, owned, {}) && TablesOk(m) && CodeInv(m, dirs)
  {
  }

  // ---------------------------------------------------------------- releasing the pages

  ghost function DirSlots(owned: set<Slot>, d: nat): (r: set<Slot>) {
    set k | k in owned && k.dir == d
  }

  lemma FreePagesCow(m: Mem, owned: set<Slot>, d: nat, top: int)
    requires CowInv(m, owned, {}) && d < NR_TASKS && 0 <= top <= HEAP_START && HeapPageSize(top) <= MAX_HEAP_PAGES
    requires forall k :: k in owned && k.dir == d <==> k in WindowSlots(d, top)
    ensures CowInv(FreeUserPages(m, d, top), owned - DirSlots(owned, d), {})
  {
    hide CowInv, FreeAll, FreeHeap;
    var data, heap := DataPages(), HeapPages(0, HeapPageSize(top));
    assert Slots(d, data) <= owned && Slots(d, heap) <= owned - Slots(d, data)
        && owned - Slots(d, data) - Slots(d, heap) == owned - DirSlots(owned, d);
    hide Slots, DirSlots, WindowSlots;
    FreeAllKeeps(m, owned, {}, d, data);
    FreeHeapKeeps(FreeAll(m, d, data), owned - Slots(d, data), {}, d, HeapPageSize(top));
  }

  lemma FreePagesFrame(m: Mem, d: nat, top: int)
    requires Wf(m) && d < NR_TASKS && 0 <= top <= HEAP_START && HeapPageSize(top) <= MAX_HEAP_PAGES
    ensures var m' := FreeUserPages(m, d, top);
      && m'.ram == m.ram && m'.cr3 == m.cr3
      && forall k :: k in m.pt ==>
           m'.pt[k] ==
             if k.dir == d && (k.page in DataPages() || 511 <= k.page < 511 + HeapPageSize(top)) then NULL_PTE
             else m.pt[k]
  {
    hide FreeAll, FreeHeap;
    FreeAllFrame(m, d, DataPages());
    FreeHeapFrame(FreeAll(m, d, DataPages()), d, HeapPageSize(top));
  }

  lemma FreePagesTables(m: Mem, m': Mem, dirs: set<nat>, d: nat)
    requires Wf(m) && Wf(m') && TablesOk(m) && CodeInv(m, dirs)
    requires forall k :: k in m.pt ==> m'.pt[k] == m.pt[k] || (m'.pt[k] == NULL_PTE && k.page >= 264)
    ensures TablesOk(m') && CodeInv(m', dirs)
  {
    hide CodeInv;
    assert TablesOk(m');
    CodeUnchanged(m, m', dirs);
  }

  lemma CodeUnchanged(m: Mem, m': Mem, dirs: set<nat>)
    requires Wf(m) && Wf(m') && CodeInv(m, dirs)
    requires forall k :: k in m.pt && k.page < 264 ==> m'.pt[k] == m.pt[k]
    ensures CodeInv(m', dirs)
  {
    forall d | d in dirs
      ensures d < NR_TASKS && CodeMapped(m', d)
    {
      assert CodeMapped(m, d);
    }
  }

  lemma CodeSubset(m: Mem, dirs: set<nat>, sub: set<nat>)
    requires Wf(m) && CodeInv(m, dirs) && sub <= dirs
    ensures CodeInv(m, sub)
  {
  }

  /** What exit does to the contents when the address space dies. */
  ghost function EagerDrop(e: map<Slot, Page>, d: nat): (r: map<Slot, Page>) {
    map k | k in e && k.dir != d :: e[k]
  }

  lemma FreePagesSpaces(m: Mem, m': Mem, owned: set<Slot>, d: nat)
    requires Wf(m) && Wf(m') && owned <= m.pt.Keys && m'.ram == m.ram
    requires forall k :: k in m.pt && k.dir != d ==> m'.pt[k] == m.pt[k]
    ensures Spaces(m', owned - DirSlots(owned, d)) == EagerDrop(Spaces(m, owned), d)
  {
  }

  // ---------------------------------------------------------------- bookkeeping

  lemma ExitCounts(vm: Vm)
    requires VmInv(vm) && UserTask(vm, vm.cur)
    ensures var vm' := FreeDir(vm, vm.cur);
      && vm'.dirOf == vm.dirOf[vm.cur := None] && vm'.heapTop == vm.heapTop && vm'.idle == vm.idle && vm'.cur == vm.cur
      && CountsHolders(vm') && IdleAlone(vm')
      && vm.dirCount[vm.m.cr3] >= 1
  {
    hide MemInv, HeapInv, Wf, FreeUserPages;
    var vm' := FreeDir(vm, vm.cur);
    var d := vm.m.cr3;
    assert vm.cur in Holders(vm.dirOf, d);
    forall e | 0 <= e < NR_TASKS
      ensures vm'.dirCount[e] == |Holders(vm'.dirOf, e)|
    {
      HoldersSet(vm.dirOf, vm.cur, None, e);
    }
  }

  lemma ExitFree(vm: Vm)
    requires VmInv(vm) && UserTask(vm, vm.cur) && vm.dirCount[vm.m.cr3] >= 1
    ensures FreeDirsExact(FreeDir(vm, vm.cur))
  {
    hide MemInv, HeapInv, Wf, FreeUserPages, CountsHolders;
    var vm' := FreeDir(vm, vm.cur);
    var d := vm.m.cr3;
    if vm.dirCount[d] == 1 {
      assert d !in vm.freeDirs;
      assert vm'.freeDirs == [d] + vm.freeDirs;
    }
  }

  lemma ExitHeap(vm: Vm, vm': Vm)
    requires VmWf(vm) && VmWf(vm') && HeapInv(vm)
    requires vm'.dirOf == vm.dirOf[vm.cur := None] && vm'.heapTop == vm.heapTop && vm'.idle == vm.idle
    ensures HeapInv(vm')
  {
    hide Wf;
  }

  lemma ExitOwned(vm: Vm, vm': Vm)
    requires VmInv(vm) && UserTask(vm, vm.cur) && VmWf(vm')
    requires vm'.dirOf == vm.dirOf[vm.cur := None] && vm'.heapTop == vm.heapTop && vm'.idle == vm.idle
    ensures UserDirs(vm') <= UserDirs(vm)
    ensures vm.dirCount[vm.m.cr3] == 1 ==> Owned(vm') == Owned(vm) - DirSlots(Owned(vm), vm.m.cr3)
    ensures vm.dirCount[vm.m.cr3] > 1 && vm.heapTop[vm.cur] == HEAP_START ==> Owned(vm') == Owned(vm)
  {
    hide MemInv, Wf;
    var d := vm.m.cr3;
    assert forall t: nat :: UserTask(vm', t) <==> UserTask(vm, t) && t != vm.cur;
    assert forall t: nat, k :: Owns(vm', t, k) <==> Owns(vm, t, k) && t != vm.cur;
    ExitDirs(vm, vm');
    if vm.dirCount[d] == 1 {
      SoleHolder(vm);
      ExitOwnedLast(vm, vm');
    } else if vm.dirCount[d] > 1 && vm.heapTop[vm.cur] == HEAP_START {
      ExitOwnedShared(vm, vm');
    }
  }

  lemma ExitDirs(vm: Vm, vm': Vm)
    requires VmWf(vm) && VmWf(vm') && vm'.dirOf == vm.dirOf[vm.cur := None]
    requires forall t: nat :: UserTask(vm', t) <==> UserTask(vm, t) && t != vm.cur
    ensures UserDirs(vm') <= UserDirs(vm)
  {
    hide Wf;
    forall e | e in UserDirs(vm')
      ensures e in UserDirs(vm)
    {
      var t: nat :| t < NR_TASKS && UserTask(vm', t) && vm'.dirOf[t].value == e;
      assert vm.dirOf[t].value == e;
    }
  }

  /** With count 1 the running task is the only one in its directory. */
  lemma SoleHolder(vm: Vm)
    requires OnCpu(vm) && DirInv(vm) && vm.dirCount[vm.m.cr3] == 1
    ensures forall t :: 0 <= t < NR_TASKS && t != vm.cur ==> vm.dirOf[t] != Some(vm.m.cr3)
  {
    hide Wf;
    var h := Holders(vm.dirOf, vm.m.cr3);
    forall t | 0 <= t < NR_TASKS && t != vm.cur
      ensures vm.dirOf[t] != Some(vm.m.cr3)
    {
      if vm.dirOf[t] == Some(vm.m.cr3) {
        SubsetSize({t, vm.cur}, h);
      }
    }
  }

  lemma SoleHolderHeap(vm: Vm)
    requires OnCpu(vm) && DirInv(vm) && vm.dirCount[vm.m.cr3] == 1 && UserTask(vm, vm.cur)
    ensures SoleHeap(vm, vm.cur)
  {
    SoleHolder(vm);
    hide DirInv, Wf;
  }

  lemma ExitOwnedLast(vm: Vm, vm': Vm)
    requires OnCpu(vm) && VmWf(vm')
    requires forall t: nat, k :: Owns(vm', t, k) <==> Owns(vm, t, k) && t != vm.cur
    requires forall t :: 0 <= t < NR_TASKS && t != vm.cur ==> vm.dirOf[t] != Some(vm.m.cr3)
    ensures Owned(vm') == Owned(vm) - DirSlots(Owned(vm), vm.m.cr3)
  {
    hide Wf;
    forall k: Slot
      ensures k in Owned(vm') <==> k in Owned(vm) && k.dir != vm.m.cr3
    {
      if k in Owned(vm) {
        var t: nat :| Owns(vm, t, k);
        if k.dir != vm.m.cr3 {
          assert Owns(vm', t, k);
        }
      }
    }
  }

  lemma ExitOwnedShared(vm: Vm, vm': Vm)
    requires OnCpu(vm) && DirInv(vm) && VmWf(vm') && UserTask(vm, vm.cur) && vm.dirCount[vm.m.cr3] > 1
    requires vm.heapTop[vm.cur] == HEAP_START
    requires forall t: nat, k :: Owns(vm', t, k) <==> Owns(vm, t, k) && t != vm.cur
    ensures Owned(vm') == Owned(vm)
  {
    var u := OtherHolder(vm);
    forall k: Slot
      ensures k in Owned(vm') <==> k in Owned(vm)
    {
      if k in Owned(vm) {
        var t: nat :| Owns(vm, t, k);
        assert Owns(vm, if t == vm.cur then u else t, k);
        assert Owns(vm', if t == vm.cur then u else t, k);
      }
    }
  }

  lemma OtherHolder(vm: Vm) returns (u: nat)
    requires OnCpu(vm) && DirInv(vm) && UserTask(vm, vm.cur) && vm.dirCount[vm.m.cr3] > 1
    ensures u != vm.cur && UserTask(vm, u) && vm.dirOf[u] == vm.dirOf[vm.cur]
  {
    var h := Holders(vm.dirOf, vm.m.cr3);
    if h <= {vm.cur} {
      SubsetSize(h, {vm.cur});
      assert false;
    }
    u :| u in h && u != vm.cur;
  }

  // ---------------------------------------------------------------- exit

  /** The contents after the running task exits: its space goes with its last task. */
  ghost function EagerExit(e: map<Slot, Page>, d: nat, last: bool): (r: map<Slot, Page>) {
    if last then EagerDrop(e, d) else e
  }

  lemma ExitMem(vm: Vm, vm': Vm)
    requires VmInv(vm) && UserTask(vm, vm.cur) && vm' == FreeDir(vm, vm.cur)
    requires UserDirs(vm') <= UserDirs(vm)
    requires vm.dirCount[vm.m.cr3] == 1 ==> Owned(vm') == Owned(vm) - DirSlots(Owned(vm), vm.m.cr3)
    requires vm.dirCount[vm.m.cr3] > 1 ==> Owned(vm') == Owned(vm)
    requires vm.dirCount[vm.m.cr3] >= 1
    ensures CowInv(vm'.m, Owned(vm'), {}) && TablesOk(vm'.m) && CodeInv(vm'.m, UserDirs(vm'))
    ensures Spaces(vm'.m, Owned(vm')) == EagerExit(View(vm), vm.m.cr3, vm.dirCount[vm.m.cr3] == 1)
  {
    hide MemInv, Owned, UserDirs, DirInv, CowInv, TablesOk, CodeInv, FreeUserPages, Spaces, EagerDrop, DirSlots,
      WindowSlots, Wf;
    var d, top := vm.m.cr3, vm.heapTop[vm.cur];
    MemInvParts(vm.m, Owned(vm), UserDirs(vm));
    if vm.dirCount[d] == 1 {
      SoleHolderHeap(vm);
      OwnedWindow(vm, vm.cur);
      FreePagesCow(vm.m, Owned(vm), d, top);
      FreePagesFrame(vm.m, d, top);
      FreePagesTables(vm.m, vm'.m, UserDirs(vm), d);
      FreePagesSpaces(vm.m, vm'.m, Owned(vm), d);
    }
    CodeSubset(vm'.m, UserDirs(vm), UserDirs(vm'));
  }

  /** A thread leaves a directory that lives on, and its heap pages with it. */
  ghost predicate LeavesHeap(vm: Vm)
    requires OnCpu(vm)
  {
    vm.dirCount[vm.m.cr3] > 1 && vm.heapTop[vm.cur] != HEAP_START
  }

  /** `sys_exit`: nothing leaks, nothing else changes, and the next task runs with a fresh TLB. */
  lemma ExitKeeps(vm: Vm, next: nat)
    requires VmInv(vm) && UserTask(vm, vm.cur) && Live(vm, next) && next != vm.cur && !LeavesHeap(vm)
    ensures VmInv(Exit(vm, next))
    ensures View(Exit(vm, next)) == EagerExit(View(vm), vm.m.cr3, vm.dirCount[vm.m.cr3] == 1)
  {
    ExitCounts(vm);
    ExitFree(vm);
    var vm1 := FreeDir(vm, vm.cur);
    hide MemInv, Owned, UserDirs, FreeDir, CowInv, TablesOk, CodeInv, Spaces, EagerExit, CountsHolders, FreeDirsExact,
      IdleAlone, HeapInv;
    ExitHeap(vm, vm1);
    ExitOwned(vm, vm1);
    ExitMem(vm, vm1);
    SameBooks(vm1, Exit(vm, next));
    FlushKeeps(vm1.m, Owned(vm1), UserDirs(vm1), vm1.dirOf[next].value);
  }
}
