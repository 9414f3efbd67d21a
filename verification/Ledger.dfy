/**
 The memory invariant of every reachable state, spelled out in the kernel's own terms: what
 `phys_mem`, `cow_count_mem`, `dir_status`, the page tables and the TLB say about each other.
 */
module Ledger {
  import opened Basics
  import opened Mm
  import opened Cow
  import opened AddressSpace
  import opened VmInvariant
  import opened Runs
  import opened Boot

  ghost function Mappers(vm: Vm, f: nat): (r: set<Slot>)
    requires VmWf(vm) && Owned(vm) <= vm.m.pt.Keys
    ensures forall k :: k in r <==> k in Owned(vm) && vm.m.pt[k].frame == f
  {
    set k | k in Owned(vm) && vm.m.pt[k].frame == f
  }

  /** Frames from 256 on are in use exactly when they are code frames or an owned page maps them. */
  ghost predicate FramesExact(vm: Vm)
    requires VmWf(vm) && Owned(vm) <= vm.m.pt.Keys
  {
    forall f :: NUM_PAG_KERNEL <= f < TOTAL_PAGES ==>
      (vm.m.used[f] <==> (f < 272 && f % 2 == 0) || Mappers(vm, f) != {})
  }

  /** Count 0 is one writable mapping, count n >= 1 is n read-only mappings; no count exceeds the number of tasks. */
  ghost predicate CountsExact(vm: Vm)
    requires VmWf(vm) && Owned(vm) <= vm.m.pt.Keys
  {
    forall k :: k in Owned(vm) ==>
      var f := vm.m.pt[k].frame;
      && 272 <= f < TOTAL_PAGES && f % 2 == 0
      && vm.m.cow[f] <= NR_TASKS
      && (vm.m.cow[f] == 0 <==> Mappers(vm, f) == {k} && vm.m.pt[k].rw)
      && (vm.m.cow[f] >= 1 <==> forall j :: j in Mappers(vm, f) ==> !vm.m.pt[j].rw)
      && (vm.m.cow[f] >= 1 ==> |Mappers(vm, f)| == vm.m.cow[f])
  }

  /** Code pages: read-only, at the frames of boot. */
  ghost predicate CodeFixed(vm: Vm)
    requires VmWf(vm)
  {
    forall t: nat, p: nat :: UserTask(vm, t) && PAG_LOG_INIT_CODE <= p < PAG_LOG_INIT_CODE + NUM_PAG_CODE ==>
      vm.m.pt[Slot(vm.dirOf[t].value, p)] == Pte(true, false, true, NUM_PAG_KERNEL + 2 * (p - PAG_LOG_INIT_CODE))
  }

  ghost predicate Ledger(vm: Vm) {
    && OnCpu(vm) && Owned(vm) <= vm.m.pt.Keys
    && FramesExact(vm) && CountsExact(vm) && CodeFixed(vm)
    && TlbInv(vm.m) && CountsHolders(vm) && FreeDirsExact(vm)
  }

  lemma MappersAre(vm: Vm, f: nat)
    requires VmWf(vm) && Owned(vm) <= vm.m.pt.Keys
    ensures Mappers(vm, f) == Owners(vm.m.pt, Owned(vm), f)
  {
  }

  lemma InvFrames(vm: Vm)
    requires VmWf(vm) && CowInv(vm.m, Owned(vm), {})
    ensures FramesExact(vm)
  {
    forall f | NUM_PAG_KERNEL <= f < TOTAL_PAGES
      ensures vm.m.used[f] <==> (f < 272 && f % 2 == 0) || Mappers(vm, f) != {}
    {
      MappersAre(vm, f);
    }
  }

  lemma InvCount(vm: Vm, k: Slot)
    requires VmWf(vm) && CowInv(vm.m, Owned(vm), {}) && k in Owned(vm)
    ensures var f := vm.m.pt[k].frame;
      && (vm.m.cow[f] == 0 ==> Mappers(vm, f) == {k} && vm.m.pt[k].rw)
      && (vm.m.cow[f] >= 1 ==> |Mappers(vm, f)| == vm.m.cow[f] && forall j :: j in Mappers(vm, f) ==> !vm.m.pt[j].rw)
      && vm.m.cow[f] <= NR_TASKS && 272 <= f < TOTAL_PAGES && f % 2 == 0
  {
    hide Owned, Accounted, ReservedFree, FixedCounts;
    CountBounded(vm.m, Owned(vm), k);
    var f := vm.m.pt[k].frame;
    MappersAre(vm, f);
    if vm.m.cow[f] == 0 {
      var rest := Mappers(vm, f) - {k};
      assert Mappers(vm, f) == rest + {k};
      assert rest == {};
    }
  }

  lemma InvCounts(vm: Vm)
    requires VmWf(vm) && CowInv(vm.m, Owned(vm), {})
    ensures CountsExact(vm)
  {
    hide CowInv, Owned;
    forall k | k in Owned(vm)
      ensures var f := vm.m.pt[k].frame;
        && 272 <= f < TOTAL_PAGES && f % 2 == 0
        && vm.m.cow[f] <= NR_TASKS
        && (vm.m.cow[f] == 0 <==> Mappers(vm, f) == {k} && vm.m.pt[k].rw)
        && (vm.m.cow[f] >= 1 <==> forall j :: j in Mappers(vm, f) ==> !vm.m.pt[j].rw)
        && (vm.m.cow[f] >= 1 ==> |Mappers(vm, f)| == vm.m.cow[f])
    {
      InvCount(vm, k);
      assert k in Mappers(vm, vm.m.pt[k].frame);
    }
  }

  lemma InvCode(vm: Vm)
    requires VmWf(vm) && CodeInv(vm.m, UserDirs(vm))
    ensures CodeFixed(vm)
  {
    forall t: nat, p: nat | UserTask(vm, t) && PAG_LOG_INIT_CODE <= p < PAG_LOG_INIT_CODE + NUM_PAG_CODE
      ensures vm.m.pt[Slot(vm.dirOf[t].value, p)] ==
        Pte(true, false, true, NUM_PAG_KERNEL + 2 * (p - PAG_LOG_INIT_CODE))
    {
      assert vm.dirOf[t].value in UserDirs(vm);
      assert CodeMapped(vm.m, vm.dirOf[t].value);
    }
  }

  lemma InvLedger(vm: Vm)
    requires VmInv(vm)
    ensures Ledger(vm)
  {
    assert DirInv(vm) && CowInv(vm.m, Owned(vm), {}) && CodeInv(vm.m, UserDirs(vm)) && TlbInv(vm.m);
    hide Owned, CowInv, CodeInv, HeapInv, TablesOk, FramesExact, CountsExact, CodeFixed, UserDirs;
    InvFrames(vm);
    InvCounts(vm);
    InvCode(vm);
  }

  /** In every state reachable from boot the books are exact, code is permanent and the TLB is coherent. */
  lemma ReachableLedger(ram: seq<Page>, g0: nat, g1: nat, ops: seq<Op>)
    requires |ram| == TOTAL_PAGES
    ensures BootState(ram, g0, g1).Some? && VmInv(BootState(ram, g0, g1).value)
    ensures var vm := BootState(ram, g0, g1).value;
      AllEnabled(vm, ops) && AllProper(vm, ops) && Run(vm, ops).Running? ==> Ledger(Run(vm, ops).vm)
  {
    ReachableRefinesEagerCopy(ram, g0, g1, ops);
    hide BootState, VmInv, AllEnabled, AllProper, Run, EagerAccepts, Labels, Ledger;
    var vm := BootState(ram, g0, g1).value;
    if AllEnabled(vm, ops) && AllProper(vm, ops) && Run(vm, ops).Running? {
      InvLedger(Run(vm, ops).vm);
    }
  }
}
