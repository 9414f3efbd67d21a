/**
 The proper steps are exactly the ones the run theorem can be about: any other step breaks the invariant or
 lets a task change a page of somebody else.
 */
module ExactSteps {
  import opened Mm
  import opened Cow
  import opened AddressSpace
  import opened VmInvariant
  import opened UserCode
  import opened ExitProof
  import opened Threads
  import opened Stray
  import opened Runs

  lemma StoreOwned(vm: Vm, addr: nat, v: Byte)
    requires OnCpu(vm) && addr < 0x1_0000_0000 && Store(vm, addr, v).Running?
    ensures VmWf(Store(vm, addr, v).vm) && Owned(Store(vm, addr, v).vm) == Owned(vm)
  {
    var vm' := Store(vm, addr, v).vm;
    assert vm' == vm.(m := vm'.m) by {
      hide FaultFix, Wf;
    }
    hide Store;
    assert forall t, k :: Owns(vm', t, k) <==> Owns(vm, t, k);
  }

  /** A store outside the own space that refines the eager machine keeps contents and books. */
  lemma RefinedKept(vm: Vm, addr: nat, v: Byte)
    requires IsStray(vm, addr) && Store(vm, addr, v).Running? && Refines(vm, DoStore(addr, v))
    ensures Kept(vm, addr, v)
  {
    hide VmInv, Owned, Store, View, CodeImage, UserTask;
    StoreOwned(vm, addr, v);
    var vm' := Store(vm, addr, v).vm;
    assert View(vm') == View(vm);
    forall j | j in Owned(vm)
      ensures j in vm.m.pt && j in vm'.m.pt && vm'.m.ram[vm'.m.pt[j].frame] == vm.m.ram[vm.m.pt[j].frame]
    {
      ViewAt(vm, j);
      ViewAt(vm', j);
    }
    InvCow(vm');
  }

  lemma InvCow(vm: Vm)
    requires VmInv(vm)
    ensures CowInv(vm.m, Owned(vm), {})
  {
    hide CowInv, Owned;
  }

  /** A step refines the eager machine, a store whatever it writes. */
  ghost predicate AlwaysRefines(vm: Vm, op: Op)
    requires VmInv(vm) && Enabled(vm, op)
  {
    if op.DoStore? then forall v: Byte :: Refines(vm, DoStore(op.addr, v)) else Refines(vm, op)
  }

  lemma StoreExact(vm: Vm, addr: nat, v: Byte)
    requires VmInv(vm) && Enabled(vm, DoStore(addr, v)) && Step(vm, DoStore(addr, v)).Running?
    requires !Proper(vm, DoStore(addr, v))
    ensures !AlwaysRefines(vm, DoStore(addr, v))
  {
    hide VmInv, Owned, Touch, Refines, Kept, Harmless, SpacePage, UserTask;
    HarmlessIff(vm, addr);
    var v' :| !Kept(vm, addr, v');
    assert Store(vm, addr, v').Running?;
    hide Store;
    if Refines(vm, DoStore(addr, v')) {
      RefinedKept(vm, addr, v');
    }
  }

  /**
   A step that goes through keeps the invariant and refines the eagerly copying machine, a store for every
   byte it may write, if and only if it is proper.
   */
  lemma ProperExact(vm: Vm, op: Op)
    requires VmInv(vm) && Enabled(vm, op) && Step(vm, op).Running?
    ensures AlwaysRefines(vm, op) <==> Proper(vm, op)
  {
    if Proper(vm, op) {
      ProperRefines(vm, op);
    } else {
      hide VmInv, Refines, LeavesHeap, SpacePage, Harmless, Touch, Exit;
      match op
      case DoStore(addr, v) => StoreExact(vm, addr, v);
      case DoExit(next) =>
        ExitKeepsIff(vm, next);
        if Refines(vm, op) {
          ExitRefined(vm, next);
        }
    }
  }

  lemma ExitRefined(vm: Vm, next: nat)
    requires VmInv(vm) && Enabled(vm, DoExit(next)) && Refines(vm, DoExit(next))
    ensures VmInv(Exit(vm, next))
  {
    hide VmInv, Exit, View, CodeImage;
  }

  lemma ProperRefines(vm: Vm, op: Op)
    requires VmInv(vm) && Enabled(vm, op) && Proper(vm, op)
    ensures AlwaysRefines(vm, op)
  {
    hide VmInv, Refines, LeavesHeap, SpacePage, Harmless, UserTask;
    if op.DoStore? {
      forall v: Byte
        ensures Refines(vm, DoStore(op.addr, v))
      {
        StepRefines(vm, DoStore(op.addr, v));
      }
    } else {
      StepRefines(vm, op);
    }
  }
}
