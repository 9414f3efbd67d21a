/**
 Whole runs. Any interleaving of user accesses, forks, clones, heap changes, exits, task switches
 and TLB activity keeps the invariant, and what the user code observes is a run of a machine
 that copies every page at fork.
 */
module Runs {
  import opened Basics
  import opened Mm
  import opened Cow
  import opened CowLoops
  import opened AddressSpace
  import opened VmInvariant
  import opened Access
  import opened UserCode
  import opened ForkProof
  import opened ExitProof
  import opened SbrkProof
  import opened Stray

  datatype Op =
    | DoLoad(addr: nat)
    | DoStore(addr: nat, v: Byte)
    | DoFork(child: nat)
    | DoClone(child: nat)
    | DoSbrk(increment: I32)
    | DoExit(next: nat)
    | DoSwitch(next: nat)
    | TlbFill(page: nat)
    | TlbEvict(page: nat)

  /** When a step can happen. Accesses may name any address; the scheduler only picks live tasks. */
  ghost predicate Enabled(vm: Vm, op: Op)
    requires OnCpu(vm)
  {
    match op
    case DoLoad(addr) => UserTask(vm, vm.cur) && addr < 0x1_0000_0000
    case DoStore(addr, v) => UserTask(vm, vm.cur) && addr < 0x1_0000_0000
    case DoFork(child) => UserTask(vm, vm.cur) && child < NR_TASKS && vm.dirOf[child].None?
    case DoClone(child) => UserTask(vm, vm.cur) && child < NR_TASKS && vm.dirOf[child].None?
    case DoSbrk(increment) => UserTask(vm, vm.cur)
    case DoExit(next) => UserTask(vm, vm.cur) && Live(vm, next) && next != vm.cur
    case DoSwitch(next) => Live(vm, next)
    case TlbFill(page) => page < TOTAL_PAGES && vm.m.pt[Slot(vm.m.cr3, page)].present
    case TlbEvict(page) => true
  }

  /**
   The steps the theorems are about. A store goes to the own address space or, outside it, to a frame
   that nobody owns; an exit leaves no heap behind in a directory that lives on. Any other step is
   proper, and so is every load.
   */
  ghost predicate Proper(vm: Vm, op: Op)
    requires OnCpu(vm)
  {
    match op
    case DoStore(addr, v) => SpacePage(vm, addr / PAGE_SIZE) || Harmless(vm, addr)
    case DoExit(next) => !LeavesHeap(vm)
    case _ => true
  }

  ghost function Step(vm: Vm, op: Op): (r: Outcome)
    requires OnCpu(vm) && Enabled(vm, op)
  {
    match op
    case DoLoad(addr) => Touch(vm, addr, false)
    case DoStore(addr, v) => Store(vm, addr, v)
    case DoFork(child) =>
      // A failed fork returns EAGAIN and changes nothing.
      (match Fork(vm, child) case None => Running(vm) case Some(vm') => Running(vm'))
    case DoClone(child) => Running(Clone(vm, child))
    case DoSbrk(increment) => Running(Sbrk(vm, increment).0)
    case DoExit(next) => Running(Exit(vm, next))
    case DoSwitch(next) => Running(SwitchTo(vm, next))
    case TlbFill(page) => Running(vm.(m := Cache(vm.m, page)))
    case TlbEvict(page) => Running(vm.(m := vm.m.(tlb := vm.m.tlb - {page})))
  }

  // ---------------------------------------------------------------- the eager machine

  datatype Label =
    | Silent
    | Read(k: Slot, off: nat, v: Byte)
    | Fetch(page: nat, off: nat, v: Byte)
    | Write(k: Slot, off: nat, v: Byte)
    | Outside(addr: nat)
    | Copy(src: nat, dst: nat, top: int)
    | Resize(d: nat, top: int)
    | Drop(d: nat)

  /** One step of the reference machine: private pages, and a code image nobody can change. */
  ghost predicate EagerNext(code: seq<Page>, e: map<Slot, Page>, l: Label, e': map<Slot, Page>) {
    match l
    case Silent => e' == e
    case Outside(_) => e' == e
    case Read(k, off, v) => e' == e && k in e && off < PAGE_SIZE && e[k][off] == v
    case Fetch(page, off, v) =>
      && e' == e && off < PAGE_SIZE && PAG_LOG_INIT_CODE <= page < PAG_LOG_INIT_CODE + |code|
      && code[page - PAG_LOG_INIT_CODE][off] == v
    case Write(k, off, v) => k in e && off < PAGE_SIZE && e' == WriteByte(e, k, off, v)
    case Copy(src, dst, top) => 0 <= top <= HEAP_START && e' == EagerCopy(e, src, dst, top)
    case Resize(d, top) => 0 <= top <= HEAP_START && Resized(e, e', d, top)
    case Drop(d) => e' == EagerDrop(e, d)
  }

  ghost predicate EagerAccepts(code: seq<Page>, e: map<Slot, Page>, labels: seq<Label>, e': map<Slot, Page>)
    decreases |labels|
  {
    if labels == [] then e' == e
    else exists e1 :: EagerNext(code, e, labels[0], e1) && EagerAccepts(code, e1, labels[1..], e')
  }

  /** What an outside observer sees of a step. */
  ghost function LabelOf(vm: Vm, op: Op): (l: Label)
    requires OnCpu(vm) && Enabled(vm, op)
  {
    match op
    case DoLoad(addr) =>
      if Touch(vm, addr, false).Halted? then Silent
      else
        var v := Loaded(Touch(vm, addr, false).vm, addr);
        if SpacePage(vm, addr / PAGE_SIZE) then Read(Slot(vm.m.cr3, addr / PAGE_SIZE), addr % PAGE_SIZE, v)
        else if CodePage(vm, addr / PAGE_SIZE) then Fetch(addr / PAGE_SIZE, addr % PAGE_SIZE, v)
        else Outside(addr)
    case DoStore(addr, v) =>
      if SpacePage(vm, addr / PAGE_SIZE) then Write(Slot(vm.m.cr3, addr / PAGE_SIZE), addr % PAGE_SIZE, v)
      else Outside(addr)
    case DoFork(child) => if vm.freeDirs == [] then Silent else Copy(vm.m.cr3, vm.freeDirs[0], vm.heapTop[vm.cur])
    case DoSbrk(increment) =>
      var top := vm.heapTop[vm.cur];
      if SoleHeap(vm, vm.cur)
      then Resize(vm.m.cr3, if Sbrk(vm, increment).1 == -ENOMEM then top else NewBreak(top, increment))
      else Silent
    case DoExit(next) => if vm.dirCount[vm.m.cr3] == 1 then Drop(vm.m.cr3) else Silent
    case _ => Silent
  }

  ghost function CodeImage(m: Mem): (r: seq<Page>)
    requires Wf(m)
  {
    seq(NUM_PAG_CODE, i requires 0 <= i < NUM_PAG_CODE => m.ram[256 + 2 * i])
  }

  // ---------------------------------------------------------------- code frames are permanent

  /** The kernel's and the code frames keep their contents. */
  ghost predicate FixedRam(m: Mem, m': Mem)
    requires Wf(m) && Wf(m')
  {
    forall f :: 0 <= f < 272 ==> m'.ram[f] == m.ram[f]
  }

  lemma FixedRamCode(m: Mem, m': Mem)
    requires Wf(m) && Wf(m') && FixedRam(m, m')
    ensures CodeImage(m') == CodeImage(m)
  {
  }

  lemma FaultRam(m: Mem, owned: set<Slot>, dirs: set<nat>, page: nat)
    requires WriteFault(m, owned, dirs, page)
    ensures UserPage(page) && m.cr3 < NR_TASKS
    ensures FaultFix(m, m.cr3, page).Some? ==> FixedRam(m, FaultFix(m, m.cr3, page).value)
  {
    FaultEffect(m, owned, dirs, page);
    UsedOwned(m, owned);
    hide MemInv, FaultFix;
  }

  lemma TouchRam(vm: Vm, addr: nat, write: bool)
    requires VmInv(vm) && addr < 0x1_0000_0000 && SpacePage(vm, addr / PAGE_SIZE)
    ensures Touch(vm, addr, write).Running? ==> FixedRam(vm.m, Touch(vm, addr, write).vm.m)
  {
    var page := addr / PAGE_SIZE;
    SpacePageFacts(vm, page);
    TranslateOwned(vm.m, Owned(vm), UserDirs(vm), page);
    hide MemInv, Owned, UserDirs, FaultFix, AccessOk;
    if !Allowed(Translate(vm.m, page), write) {
      var m1 := vm.m.(tlb := vm.m.tlb - {page});
      EvictKeeps(vm.m, Owned(vm), UserDirs(vm), page);
      assert WriteFault(m1, Owned(vm), UserDirs(vm), page);
      FaultRam(m1, Owned(vm), UserDirs(vm), page);
    }
  }

  lemma StoreRam(vm: Vm, addr: nat, v: Byte)
    requires VmInv(vm) && addr < 0x1_0000_0000 && SpacePage(vm, addr / PAGE_SIZE)
    ensures Store(vm, addr, v).Running? ==> FixedRam(vm.m, Store(vm, addr, v).vm.m)
  {
    TouchRam(vm, addr, true);
    TouchKeeps(vm, addr, true);
    hide Touch, Owned, UserDirs;
    if Touch(vm, addr, true).Running? {
      UsedOwned(Touch(vm, addr, true).vm.m, Owned(vm));
    }
    hide MemInv, VmInv;
  }

  lemma CodeLoad(vm: Vm, addr: nat)
    requires VmInv(vm) && CodePage(vm, addr / PAGE_SIZE)
    ensures addr / PAGE_SIZE < TOTAL_PAGES && addr < 0x1_0000_0000
    ensures Touch(vm, addr, false) == Running(vm.(m := Cache(vm.m, addr / PAGE_SIZE)))
    ensures Loaded(Touch(vm, addr, false).vm, addr) ==
      CodeImage(vm.m)[addr / PAGE_SIZE - PAG_LOG_INIT_CODE][addr % PAGE_SIZE]
    ensures VmInv(Touch(vm, addr, false).vm) && View(Touch(vm, addr, false).vm) == View(vm)
  {
    CodeTouch(vm, addr);
    hide MemInv, Owned, UserDirs, DirInv, HeapInv, Touch, Cache, Spaces;
    CacheQuiet(vm, addr / PAGE_SIZE);
    CodeByte(vm.m, addr);
  }

  lemma CodeByte(m: Mem, addr: nat)
    requires Wf(m) && PAG_LOG_INIT_CODE <= addr / PAGE_SIZE < PAG_LOG_INIT_CODE + NUM_PAG_CODE
    requires Translate(Cache(m, addr / PAGE_SIZE), addr / PAGE_SIZE) == CodePte(addr / PAGE_SIZE)
    ensures Cache(m, addr / PAGE_SIZE).ram[CodePte(addr / PAGE_SIZE).frame][addr % PAGE_SIZE] ==
      CodeImage(m)[addr / PAGE_SIZE - PAG_LOG_INIT_CODE][addr % PAGE_SIZE]
  {
  }

  lemma CacheQuiet(vm: Vm, page: nat)
    requires VmInv(vm) && page < TOTAL_PAGES && Translate(vm.m, page).present
    ensures VmInv(vm.(m := Cache(vm.m, page))) && View(vm.(m := Cache(vm.m, page))) == View(vm)
  {
    hide MemInv, Owned, UserDirs, DirInv, HeapInv, Spaces;
    CacheKeeps(vm.m, Owned(vm), UserDirs(vm), page);
    MemOnly(vm, Cache(vm.m, page));
  }

  lemma CodeTouch(vm: Vm, addr: nat)
    requires VmInv(vm) && CodePage(vm, addr / PAGE_SIZE)
    ensures addr / PAGE_SIZE < TOTAL_PAGES && addr < 0x1_0000_0000
    ensures Touch(vm, addr, false) == Running(vm.(m := Cache(vm.m, addr / PAGE_SIZE)))
    ensures Translate(vm.m, addr / PAGE_SIZE).present
    ensures Translate(Cache(vm.m, addr / PAGE_SIZE), addr / PAGE_SIZE) == CodePte(addr / PAGE_SIZE)
  {
    CurDir(vm);
    CodeTranslate(vm.m, Owned(vm), UserDirs(vm), addr / PAGE_SIZE);
    hide MemInv, Owned, UserDirs, DirInv, HeapInv, Wf;
  }

  lemma CodeTranslate(m: Mem, owned: set<Slot>, dirs: set<nat>, page: nat)
    requires MemInv(m, owned, dirs) && m.cr3 in dirs && PAG_LOG_INIT_CODE <= page < PAG_LOG_INIT_CODE + NUM_PAG_CODE
    ensures Translate(m, page) == CodePte(page) && Translate(Cache(m, page), page) == CodePte(page)
  {
    hide CowInv;
    assert CodeMapped(m, m.cr3);
  }

  // ---------------------------------------------------------------- one step

  /** The step keeps the invariant and is a step of the eager machine. */
  ghost predicate Refines(vm: Vm, op: Op)
    requires VmInv(vm) && Enabled(vm, op)
  {
    && (Step(vm, op).Halted? ==>
          || (op.DoStore? && (OutOfFrames(vm.m) || !AccessOk(vm.heapTop[vm.cur], op.addr, 1)))
          || (op.DoLoad? && IsStray(vm, op.addr)))
    && (Step(vm, op).Running? ==>
          && VmInv(Step(vm, op).vm)
          && CodeImage(Step(vm, op).vm.m) == CodeImage(vm.m)
          && EagerNext(CodeImage(vm.m), View(vm), LabelOf(vm, op), View(Step(vm, op).vm)))
  }

  lemma LoadStep(vm: Vm, op: Op)
    requires VmInv(vm) && Enabled(vm, op) && Proper(vm, op) && op.DoLoad?
    ensures Refines(vm, op)
  {
    hide MemInv, Owned, UserDirs, DirInv, HeapInv, Touch, View, CodeImage, Cache;
    var page := op.addr / PAGE_SIZE;
    if SpacePage(vm, page) {
      LoadRefines(vm, op.addr);
      TouchRam(vm, op.addr, false);
      FixedRamCode(vm.m, Touch(vm, op.addr, false).vm.m);
    } else if CodePage(vm, page) {
      CodeLoad(vm, op.addr);
      assert FixedRam(vm.m, Cache(vm.m, page)) by {
        CacheRam(vm.m, page);
      }
      FixedRamCode(vm.m, Touch(vm, op.addr, false).vm.m);
      assert |CodeImage(vm.m)| == NUM_PAG_CODE by {
        CodeImageSize(vm.m);
      }
    } else {
      StrayLoad(vm, op.addr);
      if Touch(vm, op.addr, false).Running? {
        FixedRamCode(vm.m, Touch(vm, op.addr, false).vm.m);
      }
    }
  }

  lemma CodeImageSize(m: Mem)
    requires Wf(m)
    ensures |CodeImage(m)| == NUM_PAG_CODE
  {
  }

  lemma CacheRam(m: Mem, page: nat)
    requires Wf(m) && page < TOTAL_PAGES
    ensures Cache(m, page).ram == m.ram && Cache(m, page).cr3 == m.cr3
  {
  }

  lemma StoreStep(vm: Vm, op: Op)
    requires VmInv(vm) && Enabled(vm, op) && Proper(vm, op) && op.DoStore?
    ensures Refines(vm, op)
  {
    hide MemInv, Owned, UserDirs, DirInv, HeapInv, Store, View, CodeImage, OutOfFrames, AccessOk, MustCopy, WriteByte;
    if SpacePage(vm, op.addr / PAGE_SIZE) {
      StoreRefines(vm, op.addr, op.v);
      if Store(vm, op.addr, op.v).Running? {
        StoreRam(vm, op.addr, op.v);
        FixedRamCode(vm.m, Store(vm, op.addr, op.v).vm.m);
      }
    } else {
      HarmlessKeeps(vm, op.addr, op.v);
      FixedRamCode(vm.m, Store(vm, op.addr, op.v).vm.m);
    }
  }

  lemma ForkStep(vm: Vm, op: Op)
    requires VmInv(vm) && Enabled(vm, op) && Proper(vm, op) && op.DoFork?
    ensures Refines(vm, op)
  {
    hide MemInv, Owned, UserDirs, DirInv, HeapInv, Fork, View, CodeImage, EagerCopy, ForkPages;
    ForkKeeps(vm, op.child);
    ForkBooks(vm, op.child);
    ForkRam(vm.m, vm.m.cr3, vm.freeDirs[0], vm.heapTop[vm.cur]);
    FixedRamCode(vm.m, Fork(vm, op.child).value.m);
  }

  lemma {:induction false} ShareAllRam(m: Mem, src: nat, dst: nat, ps: seq<nat>)
    requires Wf(m) && src < NR_TASKS && dst < NR_TASKS && InTable(ps)
    ensures ShareAll(m, src, dst, ps).ram == m.ram
  {
    ShareAllFrame(m, src, dst, ps);
  }

  lemma {:induction false} CopyCodeRam(m: Mem, src: nat, dst: nat, n: nat)
    requires Wf(m) && src < NR_TASKS && dst < NR_TASKS && n <= NUM_PAG_CODE
    ensures CopyCode(m, src, dst, n).ram == m.ram
  {
    if n != 0 {
      CopyCodeRam(m, src, dst, n - 1);
    }
  }

  lemma ForkRam(m: Mem, src: nat, dst: nat, top: int)
    requires Wf(m) && src < NR_TASKS && dst < NR_TASKS && 0 <= top <= HEAP_START
    ensures ForkPages(m, src, dst, top).ram == m.ram
  {
    hide CopyCode, ShareAll;
    CopyCodeRam(m, src, dst, NUM_PAG_CODE);
    var m1 := CopyCode(m, src, dst, NUM_PAG_CODE);
    ShareAllRam(m1, src, dst, DataPages());
    ShareAllRam(ShareAll(m1, src, dst, DataPages()), src, dst, HeapPages(0, HeapPageSize(top)));
  }

  lemma SbrkStep(vm: Vm, op: Op)
    requires VmInv(vm) && Enabled(vm, op) && Proper(vm, op) && op.DoSbrk?
    ensures Refines(vm, op)
  {
    hide MemInv, Owned, UserDirs, DirInv, HeapInv, Sbrk, View, CodeImage, Resized, SoleHeap, NewBreak;
    SbrkKeeps(vm, op.increment);
    TopMoves(vm, op.increment);
    SbrkRam(vm, op.increment);
    FixedRamCode(vm.m, Sbrk(vm, op.increment).0.m);
  }

  lemma SbrkRam(vm: Vm, increment: I32)
    requires CanSbrk(vm)
    ensures Sbrk(vm, increment).0.m.ram == vm.m.ram
  {
    hide MemInv, Owned, UserDirs, DirInv, HeapInv, NewHeapTop, MoveHeap, SoleHeap;
    var r := NewHeapTop(vm.heapTop[vm.cur], increment);
    if increment != 0 && r.Some? {
      if Sbrk(vm, increment).1 == -ENOMEM {
        SbrkFailureIsClean(vm, increment);
      } else if SoleHeap(vm, vm.cur) {
        MoveSucceeds(vm, r.value);
      } else {
        MoveRefused(vm, r.value);
      }
    }
  }

  lemma ExitStep(vm: Vm, op: Op)
    requires VmInv(vm) && Enabled(vm, op) && Proper(vm, op) && op.DoExit?
    ensures Refines(vm, op)
  {
    hide MemInv, Owned, UserDirs, DirInv, HeapInv, Exit, View, CodeImage, EagerDrop;
    ExitKeeps(vm, op.next);
    ExitRam(vm, op.next);
    FixedRamCode(vm.m, Exit(vm, op.next).m);
  }

  lemma ExitRam(vm: Vm, next: nat)
    requires VmInv(vm) && UserTask(vm, vm.cur) && Live(vm, next) && next != vm.cur
    ensures Exit(vm, next).m.ram == vm.m.ram
  {
    assert HeapPageSize(vm.heapTop[vm.cur]) <= MAX_HEAP_PAGES;
    hide MemInv, Owned, UserDirs, DirInv, HeapInv, FreeUserPages, HeapPageSize;
    FreePagesFrame(vm.m, vm.m.cr3, vm.heapTop[vm.cur]);
  }

  lemma QuietStep(vm: Vm, op: Op)
    requires VmInv(vm) && Enabled(vm, op) && Proper(vm, op)
    requires op.DoClone? || op.DoSwitch? || op.TlbFill? || op.TlbEvict?
    ensures Refines(vm, op)
  {
    hide MemInv, Owned, UserDirs, DirInv, HeapInv, Spaces, CodeImage;
    match op
    case DoClone(child) =>
      CloneKeeps(vm, child);
    case DoSwitch(next) =>
      SwitchKeeps(vm, next);
      FixedRamCode(vm.m, SwitchTo(vm, next).m);
    case TlbFill(page) =>
      FillTranslate(vm.m, Owned(vm), UserDirs(vm), page);
      CacheKeeps(vm.m, Owned(vm), UserDirs(vm), page);
      MemOnly(vm, Cache(vm.m, page));
      FixedRamCode(vm.m, Cache(vm.m, page));
    case TlbEvict(page) =>
      EvictKeeps(vm.m, Owned(vm), UserDirs(vm), page);
      MemOnly(vm, vm.m.(tlb := vm.m.tlb - {page}));
      FixedRamCode(vm.m, vm.m.(tlb := vm.m.tlb - {page}));
      SpacesFrame(vm.m, vm.m.(tlb := vm.m.tlb - {page}), Owned(vm));
  }

  lemma FillTranslate(m: Mem, owned: set<Slot>, dirs: set<nat>, page: nat)
    requires MemInv(m, owned, dirs) && page < TOTAL_PAGES && m.pt[Slot(m.cr3, page)].present
    ensures Translate(m, page).present
  {
    hide CowInv;
  }

  lemma StepRefines(vm: Vm, op: Op)
    requires VmInv(vm) && Enabled(vm, op) && Proper(vm, op)
    ensures Refines(vm, op)
  {
    hide VmInv, Refines, Enabled, Proper;
    match op
    case DoLoad(_) => LoadStep(vm, op);
    case DoStore(_, _) => StoreStep(vm, op);
    case DoFork(_) => ForkStep(vm, op);
    case DoSbrk(_) => SbrkStep(vm, op);
    case DoExit(_) => ExitStep(vm, op);
    case _ => QuietStep(vm, op);
  }

  // ---------------------------------------------------------------- runs

  ghost predicate AllEnabled(vm: Vm, ops: seq<Op>)
    requires OnCpu(vm)
    decreases |ops|
  {
    ops != [] ==>
      && Enabled(vm, ops[0])
      && (Step(vm, ops[0]).Running? ==> OnCpu(Step(vm, ops[0]).vm) && AllEnabled(Step(vm, ops[0]).vm, ops[1..]))
  }

  /** Every step of the run, up to the one that halts it, is proper. */
  ghost predicate AllProper(vm: Vm, ops: seq<Op>)
    requires OnCpu(vm) && AllEnabled(vm, ops)
    decreases |ops|
  {
    ops != [] && Step(vm, ops[0]).Running? ==> Proper(vm, ops[0]) && AllProper(Step(vm, ops[0]).vm, ops[1..])
  }

  ghost function Run(vm: Vm, ops: seq<Op>): (r: Outcome)
    requires OnCpu(vm) && AllEnabled(vm, ops)
    decreases |ops|
  {
    if ops == [] then Running(vm)
    else match Step(vm, ops[0])
    case Halted => Halted
    case Running(vm1) => Run(vm1, ops[1..])
  }

  ghost function Labels(vm: Vm, ops: seq<Op>): (r: seq<Label>)
    requires OnCpu(vm) && AllEnabled(vm, ops)
    decreases |ops|
  {
    if ops == [] || Step(vm, ops[0]).Halted? then []
    else [LabelOf(vm, ops[0])] + Labels(Step(vm, ops[0]).vm, ops[1..])
  }

  /**
   The main theorem on memory. Along every run the invariant holds (count law, exact frame
   accounting, coherent TLB, directory counts), code never changes, and everything user code reads
   and writes is accepted by the machine that copies eagerly.
   */
  lemma {:induction false} RunRefinesEagerCopy(vm: Vm, ops: seq<Op>)
    requires VmInv(vm) && AllEnabled(vm, ops) && AllProper(vm, ops)
    ensures Run(vm, ops).Running? ==>
      && VmInv(Run(vm, ops).vm)
      && CodeImage(Run(vm, ops).vm.m) == CodeImage(vm.m)
      && EagerAccepts(CodeImage(vm.m), View(vm), Labels(vm, ops), View(Run(vm, ops).vm))
    decreases |ops|
  {
    hide VmInv, Enabled, Proper, Step, EagerNext, LabelOf, CodeImage, View;
    if ops != [] && Step(vm, ops[0]).Running? {
      StepRefines(vm, ops[0]);
      var vm1 := Step(vm, ops[0]).vm;
      RunRefinesEagerCopy(vm1, ops[1..]);
      if Run(vm, ops).Running? {
        assert Labels(vm, ops)[0] == LabelOf(vm, ops[0]) && Labels(vm, ops)[1..] == Labels(vm1, ops[1..]);
        assert EagerNext(CodeImage(vm.m), View(vm), Labels(vm, ops)[0], View(vm1));
      }
    }
  }
}
