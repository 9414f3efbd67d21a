/**
 Address spaces: the directory bookkeeping of mm.c, the page-fault handler, and what
 `sys_fork`, `sys_clone`, `sys_sbrk`, `sys_exit` and a task switch do to memory.
 */
module AddressSpace {
  import opened Basics
  import opened Mm

  const ENOMEM := 12

  /** `dirOf`, `heapTop` are the PCB fields; `dirCount`, `freeDirs` are `dir_status` and `free_dirs`. */
  datatype Vm = Vm(
    m: Mem,
    dirOf: seq<Option<nat>>,
    heapTop: seq<int>,
    dirCount: seq<int>,
    freeDirs: seq<nat>,
    idle: nat,
    cur: nat)

  ghost predicate VmWf(vm: Vm) {
    && Wf(vm.m)
    && |vm.dirOf| == |vm.heapTop| == |vm.dirCount| == NR_TASKS
    && (forall t :: 0 <= t < NR_TASKS && vm.dirOf[t].Some? ==> vm.dirOf[t].value < NR_TASKS)
    && (forall t :: 0 <= t < NR_TASKS ==> 0 <= vm.heapTop[t] <= HEAP_START)
    && (forall i :: 0 <= i < |vm.freeDirs| ==> vm.freeDirs[i] < NR_TASKS)
    && vm.idle < NR_TASKS && vm.cur < NR_TASKS
  }

  ghost predicate Live(vm: Vm, t: nat)
    requires VmWf(vm)
  {
    t < NR_TASKS && vm.dirOf[t].Some?
  }

  /** The current task has a directory and CR3 points to it. */
  ghost predicate OnCpu(vm: Vm) {
    VmWf(vm) && Live(vm, vm.cur) && vm.m.cr3 == vm.dirOf[vm.cur].value
  }

  /** `get_heap_page_size`: the ceiling of the heap's byte size over the page size. */
  function HeapPageSize(top: int): (k: nat)
    requires 0 <= top <= HEAP_START
    ensures k <= 512
    ensures PAGE_SIZE * (k - 1) < HEAP_START - top <= PAGE_SIZE * k
  {
    (HEAP_START - (top + 1) + PAGE_SIZE) / PAGE_SIZE
  }

  // ---------------------------------------------------------------- directories

  function AllocateDir(vm: Vm, t: nat): (r: Option<Vm>)
    requires VmWf(vm) && t < NR_TASKS
    ensures r.Some? ==> VmWf(r.value)
  {
    if vm.freeDirs == [] then None
    else
      var d := vm.freeDirs[0];
      Some(vm.(freeDirs := vm.freeDirs[1..], dirOf := vm.dirOf[t := Some(d)], dirCount := vm.dirCount[d := 1]))
  }

  function ReuseDir(vm: Vm, d: nat, t: nat): (r: Vm)
    requires VmWf(vm) && t < NR_TASKS && d < NR_TASKS
    ensures VmWf(r)
  {
    vm.(dirOf := vm.dirOf[t := Some(d)], dirCount := vm.dirCount[d := vm.dirCount[d] + 1])
  }

  function FreeUserPages(m: Mem, d: nat, top: int): (r: Mem)
    requires Wf(m) && d < NR_TASKS && 0 <= top <= HEAP_START
    ensures Wf(r)
  {
    FreeHeap(FreeAll(m, d, DataPages()), d, HeapPageSize(top))
  }

  function FreeDir(vm: Vm, t: nat): (r: Vm)
    requires VmWf(vm) && Live(vm, t)
    ensures VmWf(r)
  {
    var d := vm.dirOf[t].value;
    var c := vm.dirCount[d] - 1;
    var vm1 := vm.(dirCount := vm.dirCount[d := c], dirOf := vm.dirOf[t := None]);
    if c == 0 then vm1.(m := FreeUserPages(vm.m, d, vm.heapTop[t]), freeDirs := [d] + vm.freeDirs) else vm1
  }

  // ---------------------------------------------------------------- fork, clone, exit, switch

  function ForkPages(m: Mem, src: nat, dst: nat, top: int): (r: Mem)
    requires Wf(m) && src < NR_TASKS && dst < NR_TASKS && 0 <= top <= HEAP_START
    ensures Wf(r)
  {
    var m1 := ShareAll(CopyCode(m, src, dst, NUM_PAG_CODE), src, dst, DataPages());
    SetCr3(ShareAll(m1, src, dst, HeapPages(0, HeapPageSize(top))), src)
  }

  /** `sys_fork` into the free PCB `child`; None when no directory is left. */
  function Fork(vm: Vm, child: nat): (r: Option<Vm>)
    requires OnCpu(vm) && child < NR_TASKS && child != vm.cur
    ensures r.Some? ==> VmWf(r.value)
  {
    match AllocateDir(vm, child)
    case None => None
    case Some(vm1) =>
      var top := vm.heapTop[vm.cur];
      Some(vm1.(heapTop := vm1.heapTop[child := top],
                m := ForkPages(vm1.m, vm.dirOf[vm.cur].value, vm1.dirOf[child].value, top)))
  }

  function Clone(vm: Vm, child: nat): (r: Vm)
    requires OnCpu(vm) && child < NR_TASKS
    ensures VmWf(r)
  {
    var vm1 := ReuseDir(vm, vm.dirOf[vm.cur].value, child);
    vm1.(heapTop := vm1.heapTop[child := HEAP_START])
  }

  /** `inner_task_switch`: CR3 is reloaded only when the directory changes. */
  function SwitchTo(vm: Vm, next: nat): (r: Vm)
    requires VmWf(vm) && Live(vm, next)
    ensures VmWf(r)
  {
    var vm1 := vm.(cur := next);
    if vm.dirOf[vm.cur] != vm.dirOf[next] then vm1.(m := SetCr3(vm.m, vm.dirOf[next].value)) else vm1
  }

  function Exit(vm: Vm, next: nat): (r: Vm)
    requires OnCpu(vm) && Live(vm, next) && next != vm.cur
    ensures VmWf(r)
  {
    SwitchTo(FreeDir(vm, vm.cur), next)
  }

  // ---------------------------------------------------------------- sbrk

  /** None: the new top is outside the address space of the heap. */
  function NewHeapTop(top: int, increment: I32): (r: Option<int>)
    requires 0 <= top <= HEAP_START
    ensures r.Some? ==> 0 <= r.value <= HEAP_START
  {
    var raw := (top - increment) % 0x1_0000_0000;
    if raw > HEAP_START then
      if increment < 0 then Some(HEAP_START) else None
    else Some(raw)
  }

  predicate PagesFree(m: Mem, d: nat, ps: seq<nat>)
    requires Wf(m) && d < NR_TASKS && InTable(ps)
  {
    forall i :: 0 <= i < |ps| ==> !m.pt[Slot(d, ps[i])].present
  }

  function Grow(m: Mem, d: nat, act: nat, new_: nat): (r: Option<Mem>)
    requires Wf(m) && d < NR_TASKS && act <= new_ <= 512
    ensures r.Some? ==> Wf(r.value)
  {
    var ps := HeapPages(act, new_ - act);
    var (m1, fs) := Reserve(m, |ps|);
    if PagesFree(m, d, ps) && |fs| == |ps| then Some(AssignAll(m1, d, ps, fs)) else None
  }

  /** What a failing `sys_sbrk` leaves behind. */
  function GrowFailed(m: Mem, d: nat, act: nat, new_: nat): (r: Mem)
    requires Wf(m) && d < NR_TASKS && act <= new_ <= 512
    ensures Wf(r)
  {
    var ps := HeapPages(act, new_ - act);
    if !PagesFree(m, d, ps) then m
    else
      var (m1, fs) := Reserve(m, |ps|);
      FreeFrames(m1, fs)
  }

  function Shrink(m: Mem, d: nat, act: nat, new_: nat): (r: Mem)
    requires Wf(m) && d < NR_TASKS && new_ <= act <= 512
    ensures Wf(r)
  {
    SetCr3(FreeAll(m, d, HeapPages(new_, act - new_)), d)
  }

  /** The heap moves to `newTop`: pages are mapped or released as the page count changes. */
  function MoveHeap(vm: Vm, newTop: int): (r: (Vm, int))
    requires OnCpu(vm) && 0 <= newTop <= HEAP_START
    ensures VmWf(r.0)
  {
    var act, new_ := HeapPageSize(vm.heapTop[vm.cur]), HeapPageSize(newTop);
    var d := vm.dirOf[vm.cur].value;
    if act < new_ then
      match Grow(vm.m, d, act, new_)
      case None => (vm.(m := GrowFailed(vm.m, d, act, new_)), -ENOMEM)
      case Some(m1) => (vm.(m := m1, heapTop := vm.heapTop[vm.cur := newTop]), newTop + 1)
    else
      (vm.(m := Shrink(vm.m, d, act, new_), heapTop := vm.heapTop[vm.cur := newTop]), newTop)
  }

  function Sbrk(vm: Vm, increment: I32): (r: (Vm, int))
    requires OnCpu(vm)
    ensures VmWf(r.0)
  {
    var top := vm.heapTop[vm.cur];
    if increment == 0 then (vm, top)
    else match NewHeapTop(top, increment)
    case None => (vm, -ENOMEM)
    case Some(newTop) => MoveHeap(vm, newTop)
  }

  // ---------------------------------------------------------------- user accesses and page faults

  datatype Outcome = Running(vm: Vm) | Halted

  /** `access_ok(VERIFY_WRITE, ...)`: the first case falls through to the laxer second one. */
  predicate AccessOk(top: int, addr: nat, size: nat)
    requires 0 <= top <= HEAP_START
  {
    var ini := addr / PAGE_SIZE;
    var fin := (addr + size) % 0x1_0000_0000 / PAGE_SIZE;
    var heap := ini <= PAG_LOG_INIT_HEAP && ini >= PAG_LOG_INIT_HEAP - HeapPageSize(top);
    && !(fin < ini)
    && (|| (ini >= PAG_LOG_INIT_DATA && fin <= PAG_LOG_INIT_DATA + NUM_PAG_DATA)
        || heap
        || (ini >= PAG_LOG_INIT_CODE && fin <= PAG_LOG_INIT_DATA + NUM_PAG_DATA))
  }

  /** `pf_rsi` once the address is accepted. None: one of its endless loops. */
  function FaultFix(m: Mem, d: nat, page: nat): (r: Option<Mem>)
    requires Wf(m) && d < NR_TASKS && page < TOTAL_PAGES
    ensures r.Some? ==> Wf(r.value) && (m.cr3 == d ==> r.value.cr3 == d)
    ensures r.Some? ==> Allowed(r.value.pt[Slot(d, page)], true)
    ensures r.Some? ==> r.value.tlb.Keys <= m.tlb.Keys
  {
    var k := Slot(d, page);
    var f := m.pt[k].frame;
    if m.cow[f] == 1 then
      Some(SetSsPag(m.(cow := m.cow[f := 0]), k, f))
    else if m.cow[f] >= 2 then
      var (m1, g) := AllocFrame(m.(cow := m.cow[f := Wrap8(m.cow[f] as int - 1)]));
      if g == -1 then None else Some(SetSsPag(CopyFrame(m1, d, page, g), k, g))
    else None
  }

  function PfRsi(vm: Vm, addr: nat): (r: Outcome)
    requires OnCpu(vm) && addr < 0x1_0000_0000
    ensures r.Running? ==> OnCpu(r.vm) && addr / PAGE_SIZE < TOTAL_PAGES
    ensures r.Running? ==> Allowed(r.vm.m.pt[Slot(r.vm.m.cr3, addr / PAGE_SIZE)], true)
    ensures r.Running? ==> r.vm.m.tlb.Keys <= vm.m.tlb.Keys
  {
    if !AccessOk(vm.heapTop[vm.cur], addr, 1) then Halted
    else match FaultFix(vm.m, vm.dirOf[vm.cur].value, addr / PAGE_SIZE)
    case None => Halted
    case Some(m1) => Running(vm.(m := m1))
  }

  predicate Allowed(e: Pte, write: bool) {
    e.present && e.user && (write ==> e.rw)
  }

  /**
   A user-mode access up to the point where its translation is usable. A refused access drops
   the cached translation (Intel SDM Vol. 3A, section 4.10.4.1), runs the handler and is retried.
   */
  function Touch(vm: Vm, addr: nat, write: bool): (r: Outcome)
    requires OnCpu(vm) && addr < 0x1_0000_0000
    ensures r.Running? ==> OnCpu(r.vm) && addr / PAGE_SIZE < TOTAL_PAGES
    ensures r.Running? ==> Allowed(Translate(r.vm.m, addr / PAGE_SIZE), write)
  {
    var page := addr / PAGE_SIZE;
    if page < TOTAL_PAGES && Allowed(Translate(vm.m, page), write) then
      Running(vm.(m := Cache(vm.m, page)))
    else
      match PfRsi(vm.(m := vm.m.(tlb := vm.m.tlb - {page})), addr)
      case Halted => Halted
      case Running(vm1) => Running(vm1.(m := Cache(vm1.m, page)))
  }

  function Store(vm: Vm, addr: nat, v: Byte): (r: Outcome)
    requires OnCpu(vm) && addr < 0x1_0000_0000
    ensures r.Running? ==> OnCpu(r.vm)
  {
    match Touch(vm, addr, true)
    case Halted => Halted
    case Running(vm1) =>
      var f := Translate(vm1.m, addr / PAGE_SIZE).frame;
      Running(vm1.(m := vm1.m.(ram := vm1.m.ram[f := vm1.m.ram[f][addr % PAGE_SIZE := v]])))
  }

  /** The byte a load returns, once `Touch(vm, addr, false)` has run. */
  function Loaded(vm: Vm, addr: nat): (v: Byte)
    requires VmWf(vm) && addr / PAGE_SIZE < TOTAL_PAGES
  {
    vm.m.ram[Translate(vm.m, addr / PAGE_SIZE).frame][addr % PAGE_SIZE]
  }
}
