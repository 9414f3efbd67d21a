/**
 The invariant of the address-space state: directory reference counts, heap windows,
 the copy-on-write law over the pages that live tasks own, permanent code pages and
 a coherent TLB.
 */
module VmInvariant {
  import opened Basics
  import opened Mm
  import opened Cow
  import opened AddressSpace

  // ---------------------------------------------------------------- directories

  ghost function Holders(dirOf: seq<Option<nat>>, d: nat): (r: set<nat>) {
    set t | 0 <= t < |dirOf| && dirOf[t] == Some(d)
  }

  ghost predicate CountsHolders(vm: Vm)
    requires VmWf(vm)
  {
    forall d :: 0 <= d < NR_TASKS ==> vm.dirCount[d] == |Holders(vm.dirOf, d)|
  }

  ghost predicate FreeDirsExact(vm: Vm)
    requires VmWf(vm)
  {
    && Distinct(vm.freeDirs)
    && forall d :: 0 <= d < NR_TASKS ==> (d in vm.freeDirs <==> vm.dirCount[d] == 0)
  }

  ghost predicate IdleAlone(vm: Vm)
    requires VmWf(vm)
  {
    && vm.dirOf[vm.idle].Some?
    && forall t :: 0 <= t < NR_TASKS && t != vm.idle ==> vm.dirOf[t] != vm.dirOf[vm.idle]
  }

  ghost predicate DirInv(vm: Vm)
    ensures DirInv(vm) ==> VmWf(vm)
  {
    VmWf(vm) && CountsHolders(vm) && FreeDirsExact(vm) && IdleAlone(vm)
  }

  // ---------------------------------------------------------------- windows

  /** Heap pages stay above the data pages. */
  const MAX_HEAP_PAGES := 228

  predicate InWindow(top: int, p: nat)
    requires 0 <= top <= HEAP_START
  {
    || PAG_LOG_INIT_DATA <= p < PAG_LOG_INIT_DATA + NUM_PAG_DATA
    || PAG_LOG_INIT_HEAP - HeapPageSize(top) < p <= PAG_LOG_INIT_HEAP
  }

  ghost predicate UserTask(vm: Vm, t: nat)
    requires VmWf(vm)
  {
    Live(vm, t) && t != vm.idle
  }

  /** Of the threads that share a directory at most one has a heap. */
  ghost predicate HeapInv(vm: Vm)
    requires VmWf(vm)
  {
    && (forall t: nat :: UserTask(vm, t) ==> HeapPageSize(vm.heapTop[t]) <= MAX_HEAP_PAGES)
    && (forall t: nat, u: nat :: UserTask(vm, t) && UserTask(vm, u) && t != u && vm.dirOf[t] == vm.dirOf[u] ==>
          vm.heapTop[t] == HEAP_START || vm.heapTop[u] == HEAP_START)
  }

  /** No other thread of the directory of `t` has a heap. */
  ghost predicate SoleHeap(vm: Vm, t: nat)
    requires VmWf(vm)
  {
    && UserTask(vm, t)
    && forall u: nat :: UserTask(vm, u) && u != t && vm.dirOf[u] == vm.dirOf[t] ==> vm.heapTop[u] == HEAP_START
  }

  ghost predicate Owns(vm: Vm, t: nat, k: Slot)
    requires VmWf(vm)
  {
    UserTask(vm, t) && vm.dirOf[t].value == k.dir && InWindow(vm.heapTop[t], k.page)
  }

  /** The table entries that belong to live address spaces. */
  ghost function Owned(vm: Vm): (r: set<Slot>)
    requires VmWf(vm)
    ensures forall k :: k in r <==> exists t :: Owns(vm, t, k)
  {
    set k | k in AllSlots() && exists t :: Owns(vm, t, k)
  }

  // ---------------------------------------------------------------- tables and TLB

  /** The entry of code page `p`: read-only, and always the frame given to it at boot. */
  function CodePte(p: nat): Pte
    requires PAG_LOG_INIT_CODE <= p < PAG_LOG_INIT_CODE + NUM_PAG_CODE
  {
    Pte(true, false, true, 256 + 2 * (p - PAG_LOG_INIT_CODE))
  }

  ghost predicate CodeMapped(m: Mem, d: nat)
    requires Wf(m) && d < NR_TASKS
  {
    forall p :: PAG_LOG_INIT_CODE <= p < PAG_LOG_INIT_CODE + NUM_PAG_CODE ==> m.pt[Slot(d, p)] == CodePte(p)
  }

  ghost predicate TablesOk(m: Mem)
    requires Wf(m)
  {
    forall k :: k in m.pt ==>
      && (k.page < NUM_PAG_KERNEL ==> !m.pt[k].user)
      && (k.page >= NUM_PAG_KERNEL && !m.pt[k].present ==> m.pt[k] == NULL_PTE)
      && (k.page >= TEMP_PAGE ==> m.pt[k] == NULL_PTE)
      && (k.page >= PAG_LOG_INIT_DATA && m.pt[k].present ==> m.pt[k].user && UserFrame(m.pt[k].frame))
  }

  /** Every cached translation is the one in the current table. */
  ghost predicate TlbInv(m: Mem)
    requires Wf(m)
  {
    forall p :: p in m.tlb ==> p < TOTAL_PAGES && m.tlb[p] == m.pt[Slot(m.cr3, p)] && m.tlb[p].present
  }

  ghost predicate CodeInv(m: Mem, dirs: set<nat>)
    requires Wf(m)
  {
    forall d :: d in dirs ==> d < NR_TASKS && CodeMapped(m, d)
  }

  /** The memory part: `dirs` are the directories of user tasks. */
  ghost predicate MemInv(m: Mem, owned: set<Slot>, dirs: set<nat>)
    ensures MemInv(m, owned, dirs) ==> Wf(m) && owned <= m.pt.Keys
  {
    && CowInv(m, owned, {})
    && CodeInv(m, dirs)
    && TablesOk(m)
    && TlbInv(m)
  }

  ghost function UserDirs(vm: Vm): (r: set<nat>)
    requires VmWf(vm)
  {
    set t: nat | t < NR_TASKS && UserTask(vm, t) :: vm.dirOf[t].value
  }

  ghost predicate VmInv(vm: Vm)
    ensures VmInv(vm) ==> OnCpu(vm)
  {
    && OnCpu(vm)
    && DirInv(vm)
    && HeapInv(vm)
    && MemInv(vm.m, Owned(vm), UserDirs(vm))
  }

  // ---------------------------------------------------------------- pigeonhole

  ghost function Taken(s: seq<Option<nat>>): (r: set<nat>) {
    if s == [] then {}
    else Taken(s[..|s| - 1]) + if s[|s| - 1].Some? then {s[|s| - 1].value} else {}
  }

  lemma {:induction false} TakenSize(s: seq<Option<nat>>, t: nat)
    requires t < |s|
    ensures |Taken(s)| <= |s|
    ensures s[t].None? ==> |Taken(s)| < |s|
    ensures s[t].Some? ==> s[t].value in Taken(s)
  {
    var n := |s| - 1;
    if n > 0 {
      TakenSize(s[..n], if t < n then t else 0);
    }
  }

  lemma CountedTaken(vm: Vm, d: nat)
    requires DirInv(vm) && d < NR_TASKS && vm.dirCount[d] != 0
    ensures d in Taken(vm.dirOf)
  {
    assert Holders(vm.dirOf, d) != {};
    var u :| u in Holders(vm.dirOf, d);
    TakenSize(vm.dirOf, u);
  }

  /** While a PCB is free, so is a directory: `allocate_DIR` cannot fail in `allocate_process`. */
  lemma FreePcbMeansFreeDir(vm: Vm, t: nat)
    requires DirInv(vm) && t < NR_TASKS && vm.dirOf[t].None?
    ensures vm.freeDirs != []
  {
    hide Taken;
    if vm.freeDirs == [] {
      forall d: nat | d in Dirs(NR_TASKS)
        ensures d in Taken(vm.dirOf)
      {
        CountedTaken(vm, d);
      }
      SubsetSize(Dirs(NR_TASKS), Taken(vm.dirOf));
      TakenSize(vm.dirOf, t);
    }
  }
}
