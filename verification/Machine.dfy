/**
 The whole kernel: the scheduler of `Sched` and the memory of `Runs` as one machine. The scheduler
 decides which PCB a fork takes and which task runs next; memory follows. The two are linked: a PCB is
 free exactly when it has no page directory.
 */
module Machine {
  import opened Basics
  import Sched
  import SchedInvariant
  import SchedSteps
  import SemHistory
  import Calls
  import Mm
  import AddressSpace
  import VmInvariant
  import ForkProof
  import Runs

  datatype Machine = Machine(s: Sched.Sched, vm: AddressSpace.Vm)

  /** What can happen: user code touches memory, the TLB is filled or evicted, or the kernel is entered. */
  datatype Entry =
    | UserLoad(addr: nat) | UserStore(addr: nat, v: Mm.Byte) | Fill(page: nat) | Evict(page: nat)
    | Fork | Clone | Sbrk(increment: I32)
    | Call(op: Sched.Op)

  ghost predicate Linked(mc: Machine) {
    && Sched.Shape(mc.s) && AddressSpace.OnCpu(mc.vm)
    && mc.s.cur == mc.vm.cur && mc.s.idle == mc.vm.idle
    && (forall t :: 0 <= t < NR_TASKS ==> (mc.s.tasks[t].state == Sched.StInvalid <==> mc.vm.dirOf[t].None?))
  }

  ghost predicate Inv(mc: Machine) {
    SchedInvariant.SInv(mc.s) && VmInvariant.VmInv(mc.vm) && Linked(mc)
  }

  /** Only user tasks touch memory and make system calls; fork and clone are entries of their own. */
  ghost predicate May(mc: Machine, e: Entry)
    requires Linked(mc)
  {
    match e
    case UserLoad(addr) => mc.s.cur != mc.s.idle && addr < 0x1_0000_0000
    case UserStore(addr, _) => mc.s.cur != mc.s.idle && addr < 0x1_0000_0000
    case Fill(page) => page < Mm.TOTAL_PAGES && mc.vm.m.pt[Mm.Slot(mc.vm.m.cr3, page)].present
    case Evict(page) => true
    case Fork => mc.s.cur != mc.s.idle
    case Clone => mc.s.cur != mc.s.idle
    case Sbrk(_) => mc.s.cur != mc.s.idle
    case Call(op) => Sched.Enabled(mc.s, op) && op != Sched.SysSpawn
  }

  /** The entry as the scheduler sees it. */
  function SchedOps(e: Entry): (ops: seq<Sched.Op>) {
    match e
    case Fork => [Sched.SysSpawn]
    case Clone => [Sched.SysSpawn]
    case Sbrk(_) => [Sched.SysOther]
    case Call(op) => [op]
    case _ => []
  }

  ghost function NextSched(mc: Machine, e: Entry): (s: Sched.Sched)
    requires Linked(mc) && May(mc, e)
    ensures Sched.Shape(s)
  {
    match e
    case Fork => Sched.Step(mc.s, Sched.SysSpawn).0
    case Clone => Sched.Step(mc.s, Sched.SysSpawn).0
    case Call(op) => Sched.Step(mc.s, op).0
    case _ => mc.s
  }

  /** The entry as memory sees it: the child is the first free PCB, the next task is the scheduler's. */
  ghost function MemOps(mc: Machine, e: Entry): (ops: seq<Runs.Op>)
    requires Linked(mc) && May(mc, e)
    ensures |ops| <= 1
  {
    match e
    case UserLoad(addr) => [Runs.DoLoad(addr)]
    case UserStore(addr, v) => [Runs.DoStore(addr, v)]
    case Fill(page) => [Runs.TlbFill(page)]
    case Evict(page) => [Runs.TlbEvict(page)]
    case Fork => if mc.s.freeq == [] then [] else [Runs.DoFork(mc.s.freeq[0])]
    case Clone => if mc.s.freeq == [] then [] else [Runs.DoClone(mc.s.freeq[0])]
    case Sbrk(increment) => [Runs.DoSbrk(increment)]
    case Call(op) =>
      if op == Sched.SysExit then [Runs.DoExit(NextSched(mc, e).cur)] else [Runs.DoSwitch(NextSched(mc, e).cur)]
  }

  // ---------------------------------------------------------------- memory follows

  ghost predicate MemEnabled(mc: Machine, e: Entry)
    requires Linked(mc) && May(mc, e)
  {
    forall op :: op in MemOps(mc, e) ==> Runs.Enabled(mc.vm, op)
  }

  /**
   Every entry the scheduler allows is an enabled step of memory: the PCB that a fork takes has no
   directory, and the task that runs next has one.
   */
  lemma EntryEnabled(mc: Machine, e: Entry)
    requires Inv(mc) && May(mc, e)
    ensures MemEnabled(mc, e)
  {
    hide SchedInvariant.SInv, VmInvariant.VmInv, Sched.Step, Mm.Wf;
    Calls.FreeIffInvalid(mc.s, mc.s.cur);
    match e
    case Call(op) => NextLive(mc.s, op);
    case _ =>
      if mc.s.freeq != [] {
        Calls.FreeIffInvalid(mc.s, mc.s.freeq[0]);
      }
  }

  lemma NextLive(s: Sched.Sched, op: Sched.Op)
    requires SchedInvariant.SInv(s) && Sched.Enabled(s, op) && op != Sched.SysSpawn
    ensures var next := Sched.Step(s, op).0.cur;
      next < NR_TASKS && s.tasks[next].state != Sched.StInvalid && (op == Sched.SysExit ==> next != s.cur)
  {
    hide SchedInvariant.SInv, Sched.Step, Sched.Enabled;
    Calls.StepLink(s, op);
    Calls.FreeIffInvalid(s, Sched.Step(s, op).0.cur);
  }

  /** `allocate_process` finds a directory whenever it finds a PCB. */
  lemma ForkFailsOnlyWithoutPcb(mc: Machine)
    requires Inv(mc) && mc.s.freeq != []
    ensures mc.vm.freeDirs != []
  {
    Calls.FreeIffInvalid(mc.s, mc.s.freeq[0]);
    hide SchedInvariant.SInv, VmInvariant.VmInv, AddressSpace.OnCpu;
    ForkProof.ForkBooks(mc.vm, mc.s.freeq[0]);
  }

  // ---------------------------------------------------------------- one step

  ghost predicate Proper(mc: Machine, e: Entry)
    requires Linked(mc) && May(mc, e)
  {
    forall op :: op in MemOps(mc, e) ==> Runs.Proper(mc.vm, op)
  }

  /** None: the kernel loops for ever. */
  ghost function Next(mc: Machine, e: Entry): (r: Option<Machine>)
    requires Inv(mc) && May(mc, e)
  {
    EntryEnabled(mc, e);
    if MemOps(mc, e) == [] then Some(Machine(NextSched(mc, e), mc.vm))
    else match Runs.Step(mc.vm, MemOps(mc, e)[0])
    case Halted => None
    case Running(vm) => Some(Machine(NextSched(mc, e), vm))
  }

  /** The directories and the task on the CPU after a step of memory. */
  ghost predicate Books(vm: AddressSpace.Vm, op: Runs.Op, vm': AddressSpace.Vm)
    requires AddressSpace.OnCpu(vm)
  {
    && |vm'.dirOf| == NR_TASKS && vm'.idle == vm.idle
    && vm'.cur == (if op.DoSwitch? || op.DoExit? then op.next else vm.cur)
    && forall t :: 0 <= t < NR_TASKS ==> (vm'.dirOf[t].None? <==>
         if op.DoFork? || op.DoClone? then vm.dirOf[t].None? && t != op.child
         else if op.DoExit? then vm.dirOf[t].None? || t == vm.cur
         else vm.dirOf[t].None?)
  }

  lemma StepBooks(vm: AddressSpace.Vm, op: Runs.Op)
    requires VmInvariant.VmInv(vm) && Runs.Enabled(vm, op) && Runs.Step(vm, op).Running?
    ensures Books(vm, op, Runs.Step(vm, op).vm)
  {
    hide Mm.Wf, VmInvariant.VmInv, Mm.SetCr3, Mm.Cache;
    hide AddressSpace.Fork, AddressSpace.Touch, AddressSpace.Sbrk, AddressSpace.Exit;
    match op
    case DoFork(child) =>
      ForkProof.ForkBooks(vm, child);
    case DoLoad(addr) =>
      TouchBooks(vm, addr, false);
    case DoStore(addr, v) =>
      TouchBooks(vm, addr, true);
    case DoSbrk(increment) =>
      SbrkBooks(vm, increment);
    case DoExit(next) =>
      ExitBooks(vm, next);
    case _ =>
  }

  lemma ExitBooks(vm: AddressSpace.Vm, next: nat)
    requires AddressSpace.OnCpu(vm) && AddressSpace.Live(vm, next) && next != vm.cur
    ensures var vm' := AddressSpace.Exit(vm, next);
      vm'.dirOf == vm.dirOf[vm.cur := None] && vm'.idle == vm.idle && vm'.cur == next
  {
    hide Mm.Wf, AddressSpace.FreeUserPages;
  }

  lemma SbrkBooks(vm: AddressSpace.Vm, increment: I32)
    requires AddressSpace.OnCpu(vm)
    ensures var vm' := AddressSpace.Sbrk(vm, increment).0;
      vm'.dirOf == vm.dirOf && vm'.idle == vm.idle && vm'.cur == vm.cur
  {
    hide Mm.Wf, AddressSpace.Grow, AddressSpace.GrowFailed, AddressSpace.Shrink, AddressSpace.NewHeapTop;
  }

  lemma TouchBooks(vm: AddressSpace.Vm, addr: nat, write: bool)
    requires AddressSpace.OnCpu(vm) && addr < 0x1_0000_0000 && AddressSpace.Touch(vm, addr, write).Running?
    ensures AddressSpace.Touch(vm, addr, write).vm == vm.(m := AddressSpace.Touch(vm, addr, write).vm.m)
  {
    hide Mm.Wf, AddressSpace.FaultFix, AddressSpace.AccessOk, Mm.Cache;
  }

  /** Who is free and who runs after an entry, by the scheduler. */
  ghost predicate SchedBooks(mc: Machine, e: Entry, s: Sched.Sched)
    requires Linked(mc)
  {
    && |s.tasks| == NR_TASKS && s.idle == mc.s.idle && (!e.Call? ==> s.cur == mc.s.cur)
    && forall t :: 0 <= t < NR_TASKS ==> (s.tasks[t].state == Sched.StInvalid <==>
         if e.Fork? || e.Clone? then
           mc.s.tasks[t].state == Sched.StInvalid && (mc.s.freeq != [] ==> t != mc.s.freeq[0])
         else if e == Call(Sched.SysExit) then mc.s.tasks[t].state == Sched.StInvalid || t == mc.s.cur
         else mc.s.tasks[t].state == Sched.StInvalid)
  }

  lemma EntrySched(mc: Machine, e: Entry)
    requires Inv(mc) && May(mc, e)
    ensures SchedInvariant.SInv(NextSched(mc, e)) && SchedBooks(mc, e, NextSched(mc, e))
  {
    hide SchedInvariant.SInv, VmInvariant.VmInv, Sched.Step;
    match e
    case Fork => SpawnSched(mc.s);
    case Clone => SpawnSched(mc.s);
    case Call(op) =>
      Calls.StepLink(mc.s, op);
      forall t | 0 <= t < NR_TASKS
        ensures mc.s.tasks[t].state == Sched.StInvalid <==> t in mc.s.freeq
      {
        Calls.FreeIffInvalid(mc.s, t);
      }
    case _ =>
  }

  lemma LinkedAgain(mc: Machine, e: Entry, op: Runs.Op, s: Sched.Sched, vm: AddressSpace.Vm)
    requires Linked(mc) && May(mc, e) && MemOps(mc, e) == [op] && s == NextSched(mc, e)
    requires SchedBooks(mc, e, s) && AddressSpace.OnCpu(vm) && Books(mc.vm, op, vm)
    ensures Linked(Machine(s, vm))
  {
    hide Sched.Step, Mm.Wf;
  }

  /** A step of the whole kernel keeps both invariants and the link between them. */
  lemma EntryKeeps(mc: Machine, e: Entry)
    requires Inv(mc) && May(mc, e) && Proper(mc, e) && Next(mc, e).Some?
    ensures Inv(Next(mc, e).value)
  {
    hide SchedInvariant.SInv, VmInvariant.VmInv, Runs.Step, Runs.Enabled, Runs.Proper, NextSched, May, MemOps,
      SchedBooks, Books, Linked;
    EntryEnabled(mc, e);
    EntrySched(mc, e);
    if MemOps(mc, e) != [] {
      var op := MemOps(mc, e)[0];
      Runs.StepRefines(mc.vm, op);
      StepBooks(mc.vm, op);
      LinkedAgain(mc, e, op, NextSched(mc, e), Runs.Step(mc.vm, op).vm);
    } else {
      LinkedIdle(mc, e);
    }
  }

  /** A fork without a free PCB leaves memory alone. */
  lemma LinkedIdle(mc: Machine, e: Entry)
    requires Linked(mc) && May(mc, e) && MemOps(mc, e) == [] && SchedBooks(mc, e, NextSched(mc, e))
    ensures Linked(Machine(NextSched(mc, e), mc.vm))
  {
    hide Sched.Step, Mm.Wf;
  }

  lemma SpawnSched(s: Sched.Sched)
    requires SchedInvariant.SInv(s) && s.cur != s.idle
    ensures var s' := Sched.Step(s, Sched.SysSpawn).0;
      && SchedInvariant.SInv(s') && s'.idle == s.idle && s'.cur == s.cur
      && forall t :: 0 <= t < NR_TASKS ==> (s'.tasks[t].state == Sched.StInvalid <==>
           s.tasks[t].state == Sched.StInvalid && (s.freeq != [] ==> t != s.freeq[0]))
  {
    SchedSteps.StepKeeps(s, Sched.SysSpawn);
    hide SchedInvariant.SInv;
  }

  // ---------------------------------------------------------------- runs

  /** A run whose entries may all happen and, up to the one that halts the kernel, are proper. */
  ghost predicate AllMay(mc: Machine, es: seq<Entry>)
    requires Inv(mc)
    decreases |es|
  {
    es != [] ==>
      && May(mc, es[0])
      && (Next(mc, es[0]).Some? ==>
            && Proper(mc, es[0])
            && (EntryKeeps(mc, es[0]); AllMay(Next(mc, es[0]).value, es[1..])))
  }

  ghost function Run(mc: Machine, es: seq<Entry>): (r: Option<Machine>)
    requires Inv(mc) && AllMay(mc, es)
    ensures r.Some? ==> Inv(r.value)
    decreases |es|
  {
    if es == [] then Some(mc)
    else match Next(mc, es[0])
    case None => None
    case Some(mc1) => EntryKeeps(mc, es[0]); Run(mc1, es[1..])
  }

  /** What the scheduler and what memory see of a run, up to the entry that halts the kernel. */
  ghost function SchedTrace(mc: Machine, es: seq<Entry>): (ops: seq<Sched.Op>)
    requires Inv(mc) && AllMay(mc, es)
    decreases |es|
  {
    if es == [] || Next(mc, es[0]).None? then []
    else
      EntryKeeps(mc, es[0]);
      SchedOps(es[0]) + SchedTrace(Next(mc, es[0]).value, es[1..])
  }

  ghost function MemTrace(mc: Machine, es: seq<Entry>): (ops: seq<Runs.Op>)
    requires Inv(mc) && AllMay(mc, es)
    decreases |es|
  {
    if es == [] then []
    else if Next(mc, es[0]).None? then MemOps(mc, es[0])
    else
      EntryKeeps(mc, es[0]);
      MemOps(mc, es[0]) + MemTrace(Next(mc, es[0]).value, es[1..])
  }

  ghost predicate SchedRun(s: Sched.Sched, ops: seq<Sched.Op>, s': Sched.Sched) {
    Sched.Shape(s) && SemHistory.AllEnabled(s, ops) && SemHistory.Run(s, ops).0 == s'
  }

  ghost predicate MemRun(vm: AddressSpace.Vm, ops: seq<Runs.Op>, r: AddressSpace.Outcome) {
    AddressSpace.OnCpu(vm) && Runs.AllEnabled(vm, ops) && Runs.AllProper(vm, ops) && Runs.Run(vm, ops) == r
  }

  /** How a run ends, as memory sees it. */
  function Result(r: Option<Machine>): (o: AddressSpace.Outcome) {
    match r
    case None => AddressSpace.Halted
    case Some(mc) => AddressSpace.Running(mc.vm)
  }

  lemma SchedFirst(mc: Machine, e: Entry, ops: seq<Sched.Op>, s: Sched.Sched)
    requires Linked(mc) && May(mc, e) && SchedRun(NextSched(mc, e), ops, s)
    ensures SchedRun(mc.s, SchedOps(e) + ops, s)
  {
    hide Sched.Shape;
    if SchedOps(e) == [] {
      assert SchedOps(e) + ops == ops;
    } else {
      assert (SchedOps(e) + ops)[1..] == ops;
    }
  }

  lemma MemFirst(vm: AddressSpace.Vm, op: Runs.Op, ops: seq<Runs.Op>, r: AddressSpace.Outcome)
    requires AddressSpace.OnCpu(vm) && Runs.Enabled(vm, op) && Runs.Proper(vm, op) && Runs.Step(vm, op).Running?
    requires MemRun(Runs.Step(vm, op).vm, ops, r)
    ensures MemRun(vm, [op] + ops, r)
  {
    hide Runs.Step, Runs.Enabled, Runs.Proper, AddressSpace.OnCpu;
    assert ([op] + ops)[1..] == ops;
  }

  lemma MemLast(vm: AddressSpace.Vm, op: Runs.Op)
    requires AddressSpace.OnCpu(vm) && Runs.Enabled(vm, op) && Runs.Step(vm, op).Halted?
    ensures MemRun(vm, [op], AddressSpace.Halted)
  {
    hide Runs.Step, Runs.Enabled, Runs.Proper, AddressSpace.OnCpu;
  }

  /**
   Every run of the whole kernel is a run of the scheduler and a run of memory, so that what is proved of
   either holds of the kernel.
   */
  lemma {:induction false} RunSplits(mc: Machine, es: seq<Entry>)
    requires Inv(mc) && AllMay(mc, es)
    ensures MemRun(mc.vm, MemTrace(mc, es), Result(Run(mc, es)))
    ensures Run(mc, es).Some? ==> SchedRun(mc.s, SchedTrace(mc, es), Run(mc, es).value.s)
    decreases |es|
  {
    hide SchedInvariant.SInv, VmInvariant.VmInv, Runs.Step, Runs.Enabled, Runs.Proper, NextSched, May, MemOps, Linked;
    if es != [] {
      EntryEnabled(mc, es[0]);
      var ops := MemOps(mc, es[0]);
      match Next(mc, es[0])
      case None => MemLast(mc.vm, ops[0]);
      case Some(mc1) =>
        EntryKeeps(mc, es[0]);
        RunSplits(mc1, es[1..]);
        hide MemRun, SchedRun;
        if Run(mc, es).Some? {
          SchedFirst(mc, es[0], SchedTrace(mc1, es[1..]), Run(mc, es).value.s);
        }
        if ops != [] {
          MemFirst(mc.vm, ops[0], MemTrace(mc1, es[1..]), Result(Run(mc1, es[1..])));
          assert ops == [ops[0]];
        } else {
          assert ops + MemTrace(mc1, es[1..]) == MemTrace(mc1, es[1..]);
        }
    }
  }
}
