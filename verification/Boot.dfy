/**
 The state in which user code starts: `init_mm`, `init_sched`, `init_idle` and `init_task1`.
 */
module Boot {
  import opened Basics
  import opened Mm
  import opened Cow
  import opened AddressSpace
  import opened VmInvariant
  import opened UserCode
  import opened ForkProof
  import opened Runs
  import opened Access

  /** `init_table_pages`: `g0` and `g1` are the guard pages around the task array. */
  function InitPte(page: nat, g0: nat, g1: nat): (e: Pte)
    requires page < TOTAL_PAGES
  {
    if 1 <= page < NUM_PAG_KERNEL then Pte(page != g0 && page != g1, true, false, page) else NULL_PTE
  }

  /** `init_frames`, `init_table_pages` over frames with arbitrary contents. */
  ghost function InitMem(ram: seq<Page>, g0: nat, g1: nat): (m: Mem)
    requires |ram| == TOTAL_PAGES
    ensures Wf(m)
  {
    Mem(seq(TOTAL_PAGES, i => i < NUM_PAG_KERNEL),
        seq(TOTAL_PAGES, i => 0),
        map k | k in AllSlots() :: InitPte(k.page, g0, g1),
        ram, 0, map[])
  }

  function SetCodePage(m: Mem, d: nat, i: nat): (r: Mem)
    requires Wf(m) && d < NR_TASKS && i < NUM_PAG_CODE && AllocFrame(m).1 != -1
    ensures Wf(r)
  {
    var (m1, f) := AllocFrame(m);
    SetPte(m1, Slot(d, PAG_LOG_INIT_CODE + i), Pte(true, false, true, f))
  }

  function SetDataPage(m: Mem, d: nat, i: nat): (r: Mem)
    requires Wf(m) && d < NR_TASKS && i < NUM_PAG_DATA && AllocFrame(m).1 != -1
    ensures Wf(r)
  {
    var (m1, f) := AllocFrame(m);
    SetPte(m1, Slot(d, PAG_LOG_INIT_DATA + i), Pte(true, true, true, f))
  }

  /** The code loop of `set_user_pages`; None if a frame is missing. */
  function SetCodePages(m: Mem, d: nat, n: nat): (r: Option<Mem>)
    requires Wf(m) && d < NR_TASKS && n <= NUM_PAG_CODE
    ensures r.Some? ==> Wf(r.value)
  {
    if n == 0 then Some(m)
    else match SetCodePages(m, d, n - 1)
    case None => None
    case Some(m1) => if AllocFrame(m1).1 == -1 then None else Some(SetCodePage(m1, d, n - 1))
  }

  function SetDataPages(m: Mem, d: nat, n: nat): (r: Option<Mem>)
    requires Wf(m) && d < NR_TASKS && n <= NUM_PAG_DATA
    ensures r.Some? ==> Wf(r.value)
  {
    if n == 0 then Some(m)
    else match SetDataPages(m, d, n - 1)
    case None => None
    case Some(m1) => if AllocFrame(m1).1 == -1 then None else Some(SetDataPage(m1, d, n - 1))
  }

  // ---------------------------------------------------------------- code pages

  /** After `n` code pages: frames 256, 258, ... are taken, in order. */
  ghost predicate TakenSoFar(used: seq<bool>, n: nat)
    requires |used| == TOTAL_PAGES
  {
    forall f :: 0 <= f < TOTAL_PAGES ==> (used[f] <==> f < 256 || (f < 256 + 2 * n && f % 2 == 0))
  }

  ghost predicate CodeSoFar(m: Mem, m': Mem, d: nat, n: nat)
    requires Wf(m) && Wf(m') && d < NR_TASKS && n <= NUM_PAG_CODE
  {
    && m'.ram == m.ram && m'.cr3 == m.cr3 && m'.tlb == m.tlb && m'.cow == m.cow
    && TakenSoFar(m'.used, n)
    && (forall k :: k in m.pt && !(k.dir == d && 256 <= k.page < 256 + n) ==> m'.pt[k] == m.pt[k])
    && (forall p :: 256 <= p < 256 + n ==> m'.pt[Slot(d, p)] == Pte(true, false, true, 256 + 2 * (p - 256)))
  }

  lemma NextFrame(m: Mem, n: nat)
    requires Wf(m) && n < 384
    requires TakenSoFar(m.used, n)
    ensures AllocFrame(m).1 == 256 + 2 * n
    ensures AllocFrame(m).0 == m.(used := m.used[256 + 2 * n := true], cow := m.cow[256 + 2 * n := 0])
  {
    assert !m.used[256 + 2 * n];
    hide FirstFree;
    var r := FirstFree(m.used, NUM_PAG_KERNEL);
    assert (256 + 2 * n - 256) % 2 == 0;
    if r != -1 {
      assert (r - 256) % 2 == 0;
    }
  }

  lemma {:induction false} SetCodePagesEffect(m: Mem, d: nat, n: nat)
    requires Wf(m) && d < NR_TASKS && n <= NUM_PAG_CODE && FixedCounts(m)
    requires forall f :: 0 <= f < TOTAL_PAGES ==> (m.used[f] <==> f < 256)
    ensures SetCodePages(m, d, n).Some? && CodeSoFar(m, SetCodePages(m, d, n).value, d, n)
  {
    hide SetCodePage, AllocFrame;
    if n != 0 {
      SetCodePagesEffect(m, d, n - 1);
      CodePageStep(m, SetCodePages(m, d, n - 1).value, d, n - 1);
    }
  }

  lemma CodePageStep(m: Mem, m1: Mem, d: nat, n: nat)
    requires Wf(m) && Wf(m1) && d < NR_TASKS && n < NUM_PAG_CODE && CodeSoFar(m, m1, d, n) && FixedCounts(m)
    ensures AllocFrame(m1).1 != -1 && CodeSoFar(m, SetCodePage(m1, d, n), d, n + 1)
  {
    CodePageValue(m1, d, n);
    TakeNext(m1.used, n);
    CodePagePt(m, m1, d, n);
    hide AllocFrame, TakenSoFar, SetCodePage, Wf;
  }

  lemma CodePageValue(m: Mem, d: nat, n: nat)
    requires Wf(m) && d < NR_TASKS && n < NUM_PAG_CODE && TakenSoFar(m.used, n) && FixedCounts(m)
    ensures AllocFrame(m).1 != -1
    ensures SetCodePage(m, d, n) == m.(used := m.used[256 + 2 * n := true],
                                       pt := m.pt[Slot(d, 256 + n) := Pte(true, false, true, 256 + 2 * n)])
  {
    NextFrame(m, n);
    hide TakenSoFar, FirstFree;
    assert m.cow[256 + 2 * n := 0] == m.cow;
  }

  lemma CodePagePt(m: Mem, m1: Mem, d: nat, n: nat)
    requires Wf(m) && Wf(m1) && d < NR_TASKS && n < NUM_PAG_CODE && CodeSoFar(m, m1, d, n)
    ensures var pt := m1.pt[Slot(d, 256 + n) := Pte(true, false, true, 256 + 2 * n)];
      && (forall k :: k in m.pt && !(k.dir == d && 256 <= k.page < 256 + (n + 1)) ==> pt[k] == m.pt[k])
      && (forall p :: 256 <= p < 256 + (n + 1) ==> pt[Slot(d, p)] == Pte(true, false, true, 256 + 2 * (p - 256)))
  {
    hide TakenSoFar;
  }

  lemma TakeNext(used: seq<bool>, n: nat)
    requires |used| == TOTAL_PAGES && n < 384 && TakenSoFar(used, n)
    ensures TakenSoFar(used[256 + 2 * n := true], n + 1)
  {
  }

  // ---------------------------------------------------------------- data pages

  ghost function DataSoFar(d: nat, n: nat): (r: set<Slot>)
    ensures forall k: Slot :: k in r <==> k.dir == d && 264 <= k.page < 264 + n
  {
    var r := set p | 264 <= p < 264 + n :: Slot(d, p);
    assert forall k: Slot :: k == Slot(k.dir, k.page);
    r
  }

  lemma CodeTakenCow(m: Mem)
    requires Wf(m) && TakenSoFar(m.used, NUM_PAG_CODE) && FixedCounts(m)
    ensures CowInv(m, {}, {})
  {
    assert forall f: nat :: Owners(m.pt, {}, f) == {};
  }

  lemma {:induction false} SetDataPagesKeeps(m: Mem, d: nat, n: nat)
    requires CowInv(m, {}, {}) && d < NR_TASKS && n <= NUM_PAG_DATA
    requires SetDataPages(m, d, n).Some?
    ensures CowInv(SetDataPages(m, d, n).value, DataSoFar(d, n), {})
  {
    hide CowInv, AllocFrame, SetSsPag;
    if n == 0 {
      assert DataSoFar(d, 0) == {};
    } else {
      SetDataPagesKeeps(m, d, n - 1);
      hide DataSoFar, SetDataPage;
      DataPageKeeps(SetDataPages(m, d, n - 1).value, d, n - 1);
    }
  }

  lemma DataPageKeeps(m: Mem, d: nat, i: nat)
    requires d < NR_TASKS && i < NUM_PAG_DATA && CowInv(m, DataSoFar(d, i), {}) && AllocFrame(m).1 != -1
    ensures CowInv(SetDataPage(m, d, i), DataSoFar(d, i + 1), {})
  {
    hide CowInv, AllocFrame, SetSsPag, SetDataPage;
    var o, k := DataSoFar(d, i), Slot(d, 264 + i);
    AllocKeeps(m, o, {});
    var (m2, f) := AllocFrame(m);
    AssignKeeps(m2, o, {} + {f}, k, f);
    DataPageIsSetSs(m, d, i);
    assert DataSoFar(d, i + 1) == o + {k};
    assert {} + {f} - {f} == {};
  }

  lemma DataPageIsSetSs(m: Mem, d: nat, i: nat)
    requires Wf(m) && d < NR_TASKS && i < NUM_PAG_DATA && AllocFrame(m).1 != -1
    ensures SetDataPage(m, d, i) == SetSsPag(AllocFrame(m).0, Slot(d, 264 + i), AllocFrame(m).1)
  {
  }

  ghost predicate DataOnly(m: Mem, m': Mem, d: nat, n: nat)
    requires Wf(m) && Wf(m')
  {
    && m'.ram == m.ram && m'.cr3 == m.cr3 && m'.tlb == m.tlb
    && TakenSoFar(m'.used, NUM_PAG_CODE + n)
    && (forall k :: k in m.pt && !(k.dir == d && 264 <= k.page < 264 + n) ==> m'.pt[k] == m.pt[k])
  }

  lemma {:induction false} SetDataPagesEffect(m: Mem, d: nat, n: nat)
    requires Wf(m) && d < NR_TASKS && n <= NUM_PAG_DATA && TakenSoFar(m.used, NUM_PAG_CODE)
    ensures SetDataPages(m, d, n).Some? && DataOnly(m, SetDataPages(m, d, n).value, d, n)
  {
    hide SetDataPage, AllocFrame;
    if n != 0 {
      SetDataPagesEffect(m, d, n - 1);
      DataPageStep(m, SetDataPages(m, d, n - 1).value, d, n - 1);
    }
  }

  lemma DataPageStep(m: Mem, m1: Mem, d: nat, n: nat)
    requires Wf(m) && Wf(m1) && d < NR_TASKS && n < NUM_PAG_DATA && DataOnly(m, m1, d, n)
    ensures AllocFrame(m1).1 != -1 && DataOnly(m, SetDataPage(m1, d, n), d, n + 1)
  {
    DataPageValue(m1, d, n);
    TakeNext(m1.used, NUM_PAG_CODE + n);
    hide AllocFrame, TakenSoFar, SetDataPage, Wf;
  }

  lemma DataPageValue(m: Mem, d: nat, n: nat)
    requires Wf(m) && d < NR_TASKS && n < NUM_PAG_DATA && TakenSoFar(m.used, NUM_PAG_CODE + n)
    ensures AllocFrame(m).1 != -1
    ensures var f := NUM_PAG_CODE + n;
      SetDataPage(m, d, n) == m.(used := m.used[256 + 2 * f := true], cow := m.cow[256 + 2 * f := 0],
                                 pt := m.pt[Slot(d, 264 + n) := Pte(true, true, true, 256 + 2 * f)])
  {
    NextFrame(m, NUM_PAG_CODE + n);
    hide TakenSoFar, FirstFree, Wf;
  }

  // ---------------------------------------------------------------- the first two tasks

  const IDLE := 0
  const TASK1 := 1
  const IDLE_DIR := 9
  const TASK1_DIR := 8

  /** `init_sched` and `init_dir_pages`: no task yet, all directories free. */
  ghost function NoTasks(m: Mem): (vm: Vm)
    requires Wf(m)
    ensures VmWf(vm)
  {
    Vm(m, seq(NR_TASKS, t => None), seq(NR_TASKS, t => 0), seq(NR_TASKS, d => 0),
       seq(NR_TASKS, i requires 0 <= i < NR_TASKS => 9 - i), IDLE, IDLE)
  }

  /** The PCB side of `allocate_process(NULL)`. */
  ghost function NewProcess(vm: Vm, t: nat): (r: Option<Vm>)
    requires VmWf(vm) && t < NR_TASKS
    ensures r.Some? ==> VmWf(r.value)
  {
    match AllocateDir(vm, t)
    case None => None
    case Some(vm1) => Some(vm1.(heapTop := vm1.heapTop[t := HEAP_START]))
  }

  lemma FirstTasksAreAllocated(m: Mem)
    requires Wf(m)
    ensures var r0 := NewProcess(NoTasks(m), IDLE);
      r0.Some? &&
      var r1 := NewProcess(r0.value, TASK1);
      r1.Some? && FirstTasks(m) == r1.value.(m := SetCr3(m, TASK1_DIR), cur := TASK1)
  {
    hide Wf;
    var vm0 := NoTasks(m);
    var vm1 := NewProcess(vm0, IDLE).value;
    assert vm1.freeDirs == seq(9, i requires 0 <= i < 9 => 8 - i);
    var vm2 := NewProcess(vm1, TASK1).value;
    assert vm2.freeDirs == FirstTasks(m).freeDirs;
    assert vm2.dirOf == FirstTasks(m).dirOf;
    assert vm2.heapTop == FirstTasks(m).heapTop;
    assert vm2.dirCount == FirstTasks(m).dirCount;
  }

  function SetUserPages(m: Mem, d: nat, code: nat, data: nat): (r: Option<Mem>)
    requires Wf(m) && d < NR_TASKS && code <= NUM_PAG_CODE && data <= NUM_PAG_DATA
    ensures r.Some? ==> Wf(r.value)
  {
    match SetCodePages(m, d, code)
    case None => None
    case Some(m1) => SetDataPages(m1, d, data)
  }

  /** Idle takes the first PCB and the head of `free_dirs`, task 1 the next of both. */
  ghost function FirstTasks(m: Mem): (vm: Vm)
    requires Wf(m)
    ensures VmWf(vm)
  {
    Vm(SetCr3(m, TASK1_DIR),
       seq(NR_TASKS, t => if t == IDLE then Some(IDLE_DIR) else if t == TASK1 then Some(TASK1_DIR) else None),
       seq(NR_TASKS, t => if t < 2 then HEAP_START else 0),
       seq(NR_TASKS, d => if d >= 8 then 1 else 0),
       seq(8, i requires 0 <= i < 8 => 7 - i),
       IDLE, TASK1)
  }

  ghost function BootState(ram: seq<Page>, g0: nat, g1: nat): (r: Option<Vm>)
    requires |ram| == TOTAL_PAGES
    ensures r.Some? ==> VmWf(r.value)
  {
    match SetUserPages(InitMem(ram, g0, g1), TASK1_DIR, NUM_PAG_CODE, NUM_PAG_DATA)
    case None => None
    case Some(m) => Some(FirstTasks(m))
  }

  lemma BootMem(m: Mem, code: nat, data: nat)
    requires Wf(m) && TablesOk(m) && FixedCounts(m) && code == NUM_PAG_CODE && data == NUM_PAG_DATA
    requires forall f :: 0 <= f < TOTAL_PAGES ==> (m.used[f] <==> f < 256)
    ensures SetUserPages(m, TASK1_DIR, code, data).Some?
    ensures MemInv(SetCr3(SetUserPages(m, TASK1_DIR, code, data).value, TASK1_DIR), DataSoFar(TASK1_DIR, data),
      {TASK1_DIR})
    ensures var m' := SetUserPages(m, TASK1_DIR, code, data).value;
      && TakenSoFar(m'.used, code + data)
      && forall k :: k in m.pt && k.page >= PAG_LOG_INIT_DATA && k !in DataSoFar(TASK1_DIR, data) ==>
        m'.pt[k] == m.pt[k]
  {
    hide SetCodePages, SetDataPages, CowInv;
    SetCodePagesEffect(m, TASK1_DIR, code);
    var m1 := SetCodePages(m, TASK1_DIR, code).value;
    CodeTakenCow(m1);
    SetDataPagesEffect(m1, TASK1_DIR, data);
    SetDataPagesKeeps(m1, TASK1_DIR, data);
    var m2 := SetDataPages(m1, TASK1_DIR, data).value;
    BootTables(m, m1, m2, code, data);
    hide DataSoFar;
    FlushKeeps(m2, DataSoFar(TASK1_DIR, data), {TASK1_DIR}, TASK1_DIR);
  }

  lemma InitTables(ram: seq<Page>, g0: nat, g1: nat)
    requires |ram| == TOTAL_PAGES
    ensures TablesOk(InitMem(ram, g0, g1)) && FixedCounts(InitMem(ram, g0, g1))
    ensures forall k :: k in InitMem(ram, g0, g1).pt && k.page >= NUM_PAG_KERNEL ==> !InitMem(ram, g0, g1).pt[k].present
    ensures forall f :: 0 <= f < TOTAL_PAGES ==> (InitMem(ram, g0, g1).used[f] <==> f < 256)
  {
  }

  lemma BootTables(m: Mem, m1: Mem, m2: Mem, code: nat, data: nat)
    requires code == NUM_PAG_CODE && data == NUM_PAG_DATA
    requires Wf(m) && Wf(m1) && TablesOk(m) && CodeSoFar(m, m1, TASK1_DIR, code)
    requires CowInv(m2, DataSoFar(TASK1_DIR, data), {}) && DataOnly(m1, m2, TASK1_DIR, data)
    ensures TablesOk(m2) && CodeInv(m2, {TASK1_DIR})
  {
    UsedOwned(m2, DataSoFar(TASK1_DIR, data));
    hide CowInv, TakenSoFar;
    assert forall k: Slot :: k == Slot(k.dir, k.page);
    forall k | k in m2.pt
      ensures k.page < NUM_PAG_KERNEL ==> !m2.pt[k].user
      ensures k.page >= NUM_PAG_KERNEL && !m2.pt[k].present ==> m2.pt[k] == NULL_PTE
      ensures k.page >= TEMP_PAGE ==> m2.pt[k] == NULL_PTE
    {
      if !(k in DataSoFar(TASK1_DIR, data)) {
        assert m2.pt[k] == m1.pt[k];
      }
    }
    assert CodeMapped(m2, TASK1_DIR);
  }

  lemma BootBooks(m: Mem)
    requires Wf(m)
    ensures DirInv(FirstTasks(m)) && HeapInv(FirstTasks(m))
  {
    var vm := FirstTasks(m);
    hide Wf;
    forall d | 0 <= d < NR_TASKS
      ensures Holders(vm.dirOf, d) == if d == IDLE_DIR then {IDLE} else if d == TASK1_DIR then {TASK1} else {}
    {
    }
    forall d | 0 <= d < NR_TASKS && d < 8
      ensures d in vm.freeDirs
    {
      assert vm.freeDirs[7 - d] == d;
    }
  }

  lemma BootOwned(m: Mem, data: nat)
    requires Wf(m) && data == NUM_PAG_DATA
    ensures Owned(FirstTasks(m)) == DataSoFar(TASK1_DIR, data)
    ensures UserDirs(FirstTasks(m)) == {TASK1_DIR}
  {
    var vm := FirstTasks(m);
    hide Wf;
    assert forall t: nat :: UserTask(vm, t) <==> t == TASK1;
    assert vm.dirOf[TASK1].value == TASK1_DIR && UserTask(vm, TASK1);
    assert TASK1_DIR in UserDirs(vm);
    forall k: Slot
      ensures k in Owned(vm) <==> k in DataSoFar(TASK1_DIR, data)
    {
      if k in DataSoFar(TASK1_DIR, data) {
        assert Owns(vm, TASK1, k);
      }
    }
  }

  /** The kernel starts in a good state, whatever was in memory. */
  lemma BootInv(ram: seq<Page>, g0: nat, g1: nat)
    requires |ram| == TOTAL_PAGES
    ensures BootState(ram, g0, g1).Some? && VmInv(BootState(ram, g0, g1).value)
  {
    hide MemInv, Owned, UserDirs, DirInv, HeapInv, InitMem, SetUserPages, Wf;
    InitTables(ram, g0, g1);
    var m := InitMem(ram, g0, g1);
    BootMem(m, NUM_PAG_CODE, NUM_PAG_DATA);
    var m2 := SetUserPages(m, TASK1_DIR, NUM_PAG_CODE, NUM_PAG_DATA).value;
    BootBooks(m2);
    BootOwned(m2, NUM_PAG_DATA);
  }

  /** At boot 28 frames are taken, and only task 1's data is mapped above the code. */
  lemma BootDetails(ram: seq<Page>, g0: nat, g1: nat)
    requires |ram| == TOTAL_PAGES
    ensures BootState(ram, g0, g1).Some?
    ensures var vm := BootState(ram, g0, g1).value;
      && TakenSoFar(vm.m.used, 28)
      && (forall k :: k in vm.m.pt && k.page >= PAG_LOG_INIT_DATA && vm.m.pt[k].present ==> k in Owned(vm))
      && vm.cur == TASK1 && vm.idle == IDLE && vm.dirCount[TASK1_DIR] == 1 && vm.m.cr3 == TASK1_DIR
      && vm.heapTop[TASK1] == HEAP_START && UserTask(vm, TASK1) && Live(vm, IDLE)
  {
    hide MemInv, Owned, UserDirs, InitMem, SetUserPages;
    InitTables(ram, g0, g1);
    var m := InitMem(ram, g0, g1);
    BootMem(m, NUM_PAG_CODE, NUM_PAG_DATA);
    BootOwned(SetUserPages(m, TASK1_DIR, NUM_PAG_CODE, NUM_PAG_DATA).value, NUM_PAG_DATA);
  }

  lemma BootTasks(ram: seq<Page>, g0: nat, g1: nat)
    requires |ram| == TOTAL_PAGES && BootState(ram, g0, g1).Some?
    ensures var vm := BootState(ram, g0, g1).value;
      && (forall t :: 0 <= t < NR_TASKS ==> vm.dirOf[t] == if t == 0 then Some(9) else if t == 1 then Some(8) else None)
      && vm.freeDirs != [] && vm.freeDirs[0] == 7 && vm.heapTop[TASK1] == HEAP_START
  {
    hide SetUserPages, InitMem, Wf;
  }

  /** Every run from boot: the invariant, and observations of an eagerly copying machine. */
  lemma ReachableRefinesEagerCopy(ram: seq<Page>, g0: nat, g1: nat, ops: seq<Op>)
    requires |ram| == TOTAL_PAGES
    ensures BootState(ram, g0, g1).Some? && VmInv(BootState(ram, g0, g1).value)
    ensures var vm := BootState(ram, g0, g1).value;
      AllEnabled(vm, ops) && AllProper(vm, ops) && Run(vm, ops).Running? ==>
        && VmInv(Run(vm, ops).vm)
        && EagerAccepts(CodeImage(vm.m), View(vm), Labels(vm, ops), View(Run(vm, ops).vm))
  {
    hide BootState, VmInv, AllEnabled, AllProper, Run, View, Labels, CodeImage, EagerAccepts;
    BootInv(ram, g0, g1);
    var vm := BootState(ram, g0, g1).value;
    if AllEnabled(vm, ops) && AllProper(vm, ops) {
      RunRefinesEagerCopy(vm, ops);
    }
  }
}
