/**
 The whole kernel from boot. What is proved of the scheduler alone and of memory alone holds in every
 state that the two reach together.
 */
module MachineBoot {
  import opened Basics
  import Mm
  import AddressSpace
  import VmInvariant
  import UserCode
  import Runs
  import Boot
  import Ledger
  import SchedInvariant
  import SchedBoot
  import opened Machine

  ghost function BootMachine(ram: seq<Mm.Page>, g0: nat, g1: nat): (mc: Machine)
    requires |ram| == Mm.TOTAL_PAGES
    ensures Inv(mc) && mc.s == SchedBoot.Booted()
    ensures Boot.BootState(ram, g0, g1) == Some(mc.vm)
  {
    BootLinked(ram, g0, g1);
    Machine(SchedBoot.Booted(), Boot.BootState(ram, g0, g1).value)
  }

  /** Boot gives a directory to exactly the tasks it creates. */
  lemma BootLinked(ram: seq<Mm.Page>, g0: nat, g1: nat)
    requires |ram| == Mm.TOTAL_PAGES
    ensures Boot.BootState(ram, g0, g1).Some?
    ensures Inv(Machine(SchedBoot.Booted(), Boot.BootState(ram, g0, g1).value))
  {
    hide Boot.BootState, VmInvariant.VmInv, SchedInvariant.SInv, Mm.Wf;
    Boot.BootInv(ram, g0, g1);
    Boot.BootDetails(ram, g0, g1);
    Boot.BootTasks(ram, g0, g1);
    SchedBoot.BootedInv();
  }

  /** What holds of the kernel in every state it reaches. */
  ghost predicate Sound(mc0: Machine, es: seq<Entry>, mc: Machine)
    requires Inv(mc0) && AllMay(mc0, es) && Inv(mc) && MemRun(mc0.vm, MemTrace(mc0, es), AddressSpace.Running(mc.vm))
  {
    && SchedBoot.Partition(mc.s) && SchedBoot.OwnersExact(mc.s)
    && Ledger.Ledger(mc.vm)
    && Runs.EagerAccepts(Runs.CodeImage(mc0.vm.m), UserCode.View(mc0.vm),
                         Runs.Labels(mc0.vm, MemTrace(mc0, es)), UserCode.View(mc.vm))
  }

  /**
   The whole kernel. Over every run from boot, with the PCBs and tasks that the scheduler picks: queues and
   owners are exact, every PCB has a directory or is free, the frame books are exact, and user code observes
   a machine that copies eagerly.
   */
  lemma KernelFromBoot(ram: seq<Mm.Page>, g0: nat, g1: nat, es: seq<Entry>)
    requires |ram| == Mm.TOTAL_PAGES && AllMay(BootMachine(ram, g0, g1), es)
    ensures var mc0 := BootMachine(ram, g0, g1);
      && MemRun(mc0.vm, MemTrace(mc0, es), Result(Run(mc0, es)))
      && (Run(mc0, es).Some? ==>
            && SchedRun(SchedBoot.Booted(), SchedTrace(mc0, es), Run(mc0, es).value.s)
            && Linked(Run(mc0, es).value) && Sound(mc0, es, Run(mc0, es).value))
  {
    var mc0 := BootMachine(ram, g0, g1);
    RunSplits(mc0, es);
    if Run(mc0, es).Some? {
      SoundAt(mc0, es);
    }
  }

  lemma SoundAt(mc0: Machine, es: seq<Entry>)
    requires Inv(mc0) && AllMay(mc0, es) && Run(mc0, es).Some?
    requires MemRun(mc0.vm, MemTrace(mc0, es), AddressSpace.Running(Run(mc0, es).value.vm))
    ensures Sound(mc0, es, Run(mc0, es).value)
  {
    hide SchedInvariant.SInv, VmInvariant.VmInv, AllMay, Run, MemTrace, Linked, SchedBoot.Partition,
      SchedBoot.OwnersExact, Ledger.Ledger, Runs.EagerAccepts, Runs.CodeImage, Runs.Labels, UserCode.View,
      Runs.AllEnabled, Runs.AllProper, Runs.Run;
    var mc := Run(mc0, es).value;
    SchedBoot.InvPartition(mc.s);
    SchedBoot.InvOwners(mc.s);
    Ledger.InvLedger(mc.vm);
    Runs.RunRefinesEagerCopy(mc0.vm, MemTrace(mc0, es));
  }
}
