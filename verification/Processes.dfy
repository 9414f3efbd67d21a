/**
 The system calls on memory as they update PCBs, directory counts and the free list in place.
 Each method is proved to compute the corresponding function of module `AddressSpace`.
 */
module Processes {
  import opened Basics
  import opened Mm
  import opened AddressSpace
  import opened Memory
  import SbrkProof
  import Breaks

  class Processes {
    const mem: Memory
    const dirOf: array<Option<nat>>
    const heapTop: array<int>
    const dirCount: array<int>
    var freeDirs: seq<nat>
    var idle: nat
    var cur: nat

    ghost predicate Shape()
      reads this, mem
    {
      && mem.Valid()
      && dirOf.Length == heapTop.Length == dirCount.Length == NR_TASKS
      && heapTop != dirCount
    }

    ghost function Repr(): set<object>
      reads this
    {
      {this, mem, mem.physMem, mem.cowCount, mem.tables, mem.ram, dirOf, heapTop, dirCount}
    }

    ghost function Value(): (vm: Vm)
      reads this, mem, Repr()
      requires Shape()
    {
      Vm(mem.Value(), dirOf[..], heapTop[..], dirCount[..], freeDirs, idle, cur)
    }

    ghost predicate Valid()
      reads this, mem, Repr()
    {
      Shape() && VmWf(Value())
    }

    /** All PCBs unused and all directories free, as `init_dir_pages` and `init_sched` leave them. */
    constructor (memory: Memory)
      requires memory.Valid()
      ensures Valid() && mem == memory && fresh(dirOf) && fresh(heapTop) && fresh(dirCount)
      ensures forall t :: 0 <= t < NR_TASKS ==> dirOf[t] == None && heapTop[t] == 0 && dirCount[t] == 0
      ensures |freeDirs| == NR_TASKS && (forall i :: 0 <= i < NR_TASKS ==> freeDirs[i] == NR_TASKS - 1 - i)
      ensures idle == 0 && cur == 0
    {
      mem := memory;
      dirOf := new Option<nat>[NR_TASKS](t => None);
      heapTop := new int[NR_TASKS](t => 0);
      dirCount := new int[NR_TASKS](d => 0);
      freeDirs := [];
      idle, cur := 0, 0;
      new;
      for i := 0 to NR_TASKS
        invariant |freeDirs| == i && forall j :: 0 <= j < i ==> freeDirs[j] == i - 1 - j
        invariant mem == memory && fresh(this)
        modifies this`freeDirs
      {
        freeDirs := [i] + freeDirs;
      }
    }

    // -------------------------------------------------------------- directories

    method AllocateDir(t: nat) returns (ok: bool)
      requires Valid() && t < NR_TASKS
      modifies this`freeDirs, dirOf, dirCount
      ensures Shape() && ok == AddressSpace.AllocateDir(old(Value()), t).Some?
      ensures Value() == if ok then AddressSpace.AllocateDir(old(Value()), t).value else old(Value())
    {
      hide mem.Value;
      if freeDirs == [] {
        return false;
      }
      var d := freeDirs[0];
      freeDirs := freeDirs[1..];
      dirOf[t] := Some(d);
      dirCount[d] := 1;
      return true;
    }

    method ReuseDir(d: nat, t: nat)
      requires Valid() && t < NR_TASKS && d < NR_TASKS
      modifies dirOf, dirCount
      ensures Shape() && Value() == AddressSpace.ReuseDir(old(Value()), d, t)
    {
      hide mem.Value;
      dirOf[t] := Some(d);
      dirCount[d] := dirCount[d] + 1;
    }

    method FreeDir(t: nat)
      requires Valid() && Live(Value(), t)
      modifies Repr()
      ensures Shape() && Value() == AddressSpace.FreeDir(old(Value()), t)
    {
      hide mem.Value, AddressSpace.FreeUserPages;
      var d := dirOf[t].value;
      dirCount[d] := dirCount[d] - 1;
      if dirCount[d] == 0 {
        mem.FreeUserPages(d, heapTop[t]);
        freeDirs := [d] + freeDirs;
      }
      dirOf[t] := None;
    }

    // -------------------------------------------------------------- fork, clone, exit, switch

    /** `sys_fork`, with the PCB taken from the head of the free queue. */
    method Fork(child: nat) returns (ok: bool)
      requires Valid() && OnCpu(Value()) && child < NR_TASKS && child != cur
      modifies Repr()
      ensures Shape() && ok == AddressSpace.Fork(old(Value()), child).Some?
      ensures Value() == if ok then AddressSpace.Fork(old(Value()), child).value else old(Value())
    {
      hide mem.Value, AddressSpace.ForkPages;
      ok := AllocateDir(child);
      if ok {
        heapTop[child] := heapTop[cur];
        mem.ForkPages(dirOf[cur].value, dirOf[child].value, heapTop[cur]);
      }
    }

    method Clone(child: nat)
      requires Valid() && OnCpu(Value()) && child < NR_TASKS
      modifies Repr()
      ensures Shape() && Value() == AddressSpace.Clone(old(Value()), child)
    {
      hide mem.Value;
      ReuseDir(dirOf[cur].value, child);
      heapTop[child] := HEAP_START;
    }

    method SwitchTo(next: nat)
      requires Valid() && Live(Value(), next)
      modifies Repr()
      ensures Shape() && Value() == AddressSpace.SwitchTo(old(Value()), next)
    {
      hide mem.Value;
      if dirOf[cur] != dirOf[next] {
        mem.LoadCr3(dirOf[next].value);
      }
      cur := next;
    }

    /** `sys_exit` and the switch to the task the scheduler picks. */
    method Exit(next: nat)
      requires Valid() && OnCpu(Value()) && Live(Value(), next) && next != cur
      modifies Repr()
      ensures Shape() && Value() == AddressSpace.Exit(old(Value()), next)
    {
      hide mem.Value, AddressSpace.FreeUserPages;
      FreeDir(cur);
      SwitchTo(next);
    }

    // -------------------------------------------------------------- sbrk and page faults

    method MoveHeap(newTop: int) returns (r: int)
      requires Valid() && OnCpu(Value()) && 0 <= newTop <= HEAP_START
      modifies Repr()
      ensures Shape() && (Value(), r) == AddressSpace.MoveHeap(old(Value()), newTop)
    {
      hide mem.Value, AddressSpace.Grow, AddressSpace.Shrink, GrowFailed, HeapPageSize;
      var d := dirOf[cur].value;
      var act, new_ := HeapPageSize(heapTop[cur]), HeapPageSize(newTop);
      if act < new_ {
        var ok := mem.Grow(d, act, new_);
        if !ok {
          return -ENOMEM;
        }
        r := newTop + 1;
      } else {
        mem.Shrink(d, act, new_);
        r := newTop;
      }
      heapTop[cur] := newTop;
    }

    method Sbrk(increment: I32) returns (r: int)
      requires Valid() && OnCpu(Value())
      modifies Repr()
      ensures Shape() && (Value(), r) == AddressSpace.Sbrk(old(Value()), increment)
      ensures SbrkProof.CanSbrk(old(Value())) ==> Breaks.SbrkAnswer(old(Value()), increment, Value(), r)
    {
      hide mem.Value, AddressSpace.MoveHeap, SbrkProof.CanSbrk, Breaks.SbrkAnswer;
      if SbrkProof.CanSbrk(Value()) {
        Breaks.SbrkAnswers(Value(), increment);
      }
      if increment == 0 {
        return heapTop[cur];
      }
      var newTop := (heapTop[cur] - increment) % 0x1_0000_0000;
      if newTop > HEAP_START {
        if increment < 0 {
          newTop := HEAP_START;
        } else {
          return -ENOMEM;
        }
      }
      r := MoveHeap(newTop);
    }

    /** `pf_rsi`: false when the handler ends in one of its endless loops. */
    method PfRsi(addr: nat) returns (resumed: bool)
      requires Valid() && OnCpu(Value()) && addr < 0x1_0000_0000
      modifies Repr()
      ensures Shape() && resumed == AddressSpace.PfRsi(old(Value()), addr).Running?
      ensures resumed ==> Value() == AddressSpace.PfRsi(old(Value()), addr).vm
    {
      hide mem.Value, AddressSpace.FaultFix;
      if !AccessOk(heapTop[cur], addr, 1) {
        return false;
      }
      resumed := mem.FaultFix(dirOf[cur].value, addr / PAGE_SIZE);
    }
  }
}
