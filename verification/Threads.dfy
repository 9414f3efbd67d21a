/**
 Threads that share a directory, each with a heap top of its own. The exit of a thread keeps the
 frame books exactly when another thread's heap still covers its pages; from a state that satisfies
 the invariant, exactly when it has no heap pages to leave behind.
 */
module Threads {
  import opened Basics
  import opened Mm
  import opened Cow
  import opened AddressSpace
  import opened VmInvariant
  import opened ForkProof
  import opened ExitProof

  /** Books kept for some set of entries are wrong for any smaller one. */
  lemma FewerOwnersBreak(m: Mem, owned: set<Slot>, fewer: set<Slot>, k: Slot)
    requires CowInv(m, owned, {}) && fewer <= owned && k in owned && k !in fewer
    ensures !CowInv(m, fewer, {})
  {
    var f := m.pt[k].frame;
    var before, after := Owners(m.pt, owned, f), Owners(m.pt, fewer, f);
    assert k in before && k !in after && after <= before;
    SubsetSize(after, before - {k});
    if after != {} {
      var j :| j in after;
      assert j in fewer && j in owned && m.pt[j].frame == f;
    }
  }

  /** Another thread of the current directory has at least as many heap pages. */
  ghost predicate Covered(vm: Vm, u: nat)
    requires OnCpu(vm)
  {
    && u != vm.cur && UserTask(vm, u) && vm.dirOf[u] == vm.dirOf[vm.cur]
    && HeapPageSize(vm.heapTop[u]) >= HeapPageSize(vm.heapTop[vm.cur])
  }

  /** A user task on the CPU, with correct books, whose directory other threads use too. */
  ghost predicate SharedSpace(vm: Vm) {
    && OnCpu(vm) && DirInv(vm) && UserTask(vm, vm.cur) && vm.dirCount[vm.m.cr3] > 1
    && CowInv(vm.m, Owned(vm), {})
    && forall t: nat :: UserTask(vm, t) ==> HeapPageSize(vm.heapTop[t]) <= MAX_HEAP_PAGES
  }

  lemma SharedExit(vm: Vm, next: nat)
    requires SharedSpace(vm) && Live(vm, next) && next != vm.cur
    ensures var vm' := Exit(vm, next);
      && vm'.m.used == vm.m.used && vm'.m.cow == vm.m.cow && vm'.m.pt == vm.m.pt
      && forall t: nat, k :: Owns(vm', t, k) <==> Owns(vm, t, k) && t != vm.cur
  {
    hide CowInv, DirInv, Owned;
  }

  lemma SharedExitOwned(vm: Vm, vm': Vm)
    requires VmWf(vm) && VmWf(vm') && forall t: nat, k :: Owns(vm', t, k) <==> Owns(vm, t, k) && t != vm.cur
    ensures Owned(vm') <= Owned(vm)
  {
    forall k | k in Owned(vm')
      ensures k in Owned(vm)
    {
      var t :| Owns(vm', t, k);
      assert Owns(vm, t, k);
    }
  }

  lemma CoveredOwned(vm: Vm, vm': Vm, u: nat)
    requires OnCpu(vm) && VmWf(vm') && Covered(vm, u)
    requires forall t: nat, k :: Owns(vm', t, k) <==> Owns(vm, t, k) && t != vm.cur
    ensures Owned(vm) <= Owned(vm')
  {
    forall k | k in Owned(vm)
      ensures k in Owned(vm')
    {
      var t: nat :| Owns(vm, t, k);
      assert Owns(vm, if t == vm.cur then u else t, k);
      assert Owns(vm', if t == vm.cur then u else t, k);
    }
  }

  /** The last heap page of a task nobody covers: mapped and counted, but no longer owned. */
  function LastHeapPage(vm: Vm): (k: Slot)
    requires OnCpu(vm)
  {
    Slot(vm.m.cr3, PAG_LOG_INIT_HEAP + 1 - HeapPageSize(vm.heapTop[vm.cur]))
  }

  lemma UncoveredLost(vm: Vm, vm': Vm)
    requires SharedSpace(vm) && VmWf(vm') && !(exists u: nat :: Covered(vm, u))
    requires forall t: nat, k :: Owns(vm', t, k) <==> Owns(vm, t, k) && t != vm.cur
    ensures LastHeapPage(vm) in Owned(vm) && LastHeapPage(vm) !in Owned(vm')
  {
    var u := OtherHolder(vm);
    assert !Covered(vm, u);
    var k := LastHeapPage(vm);
    assert Owns(vm, vm.cur, k);
    if k in Owned(vm') {
      var t: nat :| Owns(vm', t, k);
      assert Covered(vm, t);
    }
  }

  /**
   A thread leaves a shared directory. Its heap pages are neither released nor handed over, so the
   frame books stay right if and only if some remaining thread's heap reaches as far down.
   */
  lemma SharedExitIff(vm: Vm, next: nat)
    requires SharedSpace(vm) && Live(vm, next) && next != vm.cur
    ensures CowInv(Exit(vm, next).m, Owned(Exit(vm, next)), {}) <==> exists u: nat :: Covered(vm, u)
  {
    SharedExit(vm, next);
    var vm' := Exit(vm, next);
    hide Exit, Owned, CowInv, DirInv;
    SharedExitOwned(vm, vm');
    if u: nat :| Covered(vm, u) {
      CoveredOwned(vm, vm', u);
      assert Owned(vm') == Owned(vm);
      UnownedIrrelevant(vm.m, vm'.m, Owned(vm), {});
    } else {
      UncoveredLost(vm, vm');
      FewerOwnersBreak(vm.m, Owned(vm), Owned(vm'), LastHeapPage(vm));
      if CowInv(vm'.m, Owned(vm'), {}) {
        UnownedIrrelevant(vm'.m, vm.m, Owned(vm'), {});
      }
    }
  }

  // ---------------------------------------------------------------- which exits keep the invariant

  lemma InvShared(vm: Vm)
    requires VmInv(vm) && UserTask(vm, vm.cur) && vm.dirCount[vm.m.cr3] > 1
    ensures SharedSpace(vm)
    ensures (exists u: nat :: Covered(vm, u)) <==> vm.heapTop[vm.cur] == HEAP_START
  {
    MemInvParts(vm.m, Owned(vm), UserDirs(vm));
    hide MemInv, Owned, CowInv;
    var u := OtherHolder(vm);
    if vm.heapTop[vm.cur] == HEAP_START {
      assert Covered(vm, u);
    }
  }

  /** `sys_exit` keeps the invariant iff it does not leave heap pages in a directory that lives on. */
  lemma ExitKeepsIff(vm: Vm, next: nat)
    requires VmInv(vm) && UserTask(vm, vm.cur) && Live(vm, next) && next != vm.cur
    ensures VmInv(Exit(vm, next)) <==> !LeavesHeap(vm)
  {
    if LeavesHeap(vm) {
      InvShared(vm);
      SharedExitIff(vm, next);
    } else {
      ExitKeeps(vm, next);
    }
  }

  /** A process that clones a thread and exits leaks its heap; without a heap nothing leaks. */
  lemma CloneThenExitIff(vm: Vm, child: nat)
    requires VmInv(vm) && UserTask(vm, vm.cur) && child < NR_TASKS && vm.dirOf[child].None?
    ensures OnCpu(Clone(vm, child)) && Live(Clone(vm, child), child)
    ensures VmInv(Exit(Clone(vm, child), child)) <==> vm.heapTop[vm.cur] == HEAP_START
  {
    CloneKeeps(vm, child);
    CloneCount(vm, child);
    hide VmInv, Exit;
    ExitKeepsIff(Clone(vm, child), child);
  }

  lemma CloneCount(vm: Vm, child: nat)
    requires VmInv(vm) && UserTask(vm, vm.cur) && child < NR_TASKS && vm.dirOf[child].None?
    ensures Clone(vm, child).dirCount[vm.m.cr3] > 1 && UserTask(Clone(vm, child), vm.cur)
  {
    hide MemInv, HeapInv;
    assert vm.cur in Holders(vm.dirOf, vm.m.cr3);
    assert Holders(vm.dirOf, vm.m.cr3) != {};
  }
}
