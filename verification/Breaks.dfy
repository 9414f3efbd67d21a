/**
 The program break. What `sys_sbrk` answers and where it leaves `heap_top`, for every task and every
 increment; when the answer can be used as the address of new memory; and the size of every heap over
 whole runs, from the increments alone.
 */
module Breaks {
  import opened Basics
  import opened Mm
  import opened AddressSpace
  import opened VmInvariant
  import opened UserCode
  import opened ForkProof
  import opened ExitProof
  import opened SbrkProof
  import opened Runs
  import Machine

  // ---------------------------------------------------------------- one call

  /** The byte lies in a page of the heap that the running task owns. */
  ghost predicate HeapByte(vm: Vm, addr: int)
    requires VmWf(vm)
  {
    && 0 <= addr < 0x1_0000_0000 && addr / PAGE_SIZE >= PAG_LOG_INIT_DATA + NUM_PAG_DATA
    && Slot(vm.m.cr3, addr / PAGE_SIZE) in Owned(vm)
  }

  /** The heap gets more pages. */
  predicate AddsPages(top: int, top': int)
    requires 0 <= top <= HEAP_START && 0 <= top' <= HEAP_START
  {
    HeapPageSize(top) < HeapPageSize(top')
  }

  /**
   A refused call moves nothing. Otherwise the top moves by the increment; a call that adds pages answers
   with the first of `increment` new heap bytes, which reach up to the old top, and any other call with the
   new top.
   */
  ghost predicate SbrkAnswer(vm: Vm, increment: int, vm': Vm, r: int)
    requires OnCpu(vm) && VmWf(vm')
  {
    var top, top' := vm.heapTop[vm.cur], vm'.heapTop[vm.cur];
    && vm'.heapTop == vm.heapTop[vm.cur := if r == -ENOMEM then top else NewBreak(top, increment)]
    && (increment == 0 ==> r == top && vm' == vm)
    && (r != -ENOMEM && increment != 0 ==>
          if AddsPages(top, top') then
            && r == top' + 1 && increment > 0 && r + increment == top + 1
            && forall a :: r <= a < r + increment ==> HeapByte(vm', a)
          else r == top')
  }

  lemma Answered(vm: Vm, increment: I32)
    requires CanSbrk(vm) && increment != 0
    ensures var (vm', r) := Sbrk(vm, increment);
      r != -ENOMEM ==>
        r == vm'.heapTop[vm.cur] + if AddsPages(vm.heapTop[vm.cur], vm'.heapTop[vm.cur]) then 1 else 0
  {
    hide MemInv, Owned, UserDirs, DirInv, HeapInv, NewHeapTop, HeapPageSize, Wf, Grow, GrowFailed, Shrink;
  }

  /** After a growth the window of the new top is owned. */
  lemma GrownOwns(vm: Vm, increment: I32, a: int)
    requires CanSbrk(vm) && increment > 0 && Sbrk(vm, increment).1 != -ENOMEM && 0 <= a < 0x1_0000_0000
    requires a / PAGE_SIZE >= PAG_LOG_INIT_DATA + NUM_PAG_DATA
    ensures var vm' := Sbrk(vm, increment).0;
      && VmInv(vm') && CanMove(vm')
      && (HeapByte(vm', a) <==>
            PAG_LOG_INIT_HEAP - HeapPageSize(vm'.heapTop[vm.cur]) < a / PAGE_SIZE <= PAG_LOG_INIT_HEAP)
  {
    var vm' := Sbrk(vm, increment).0;
    GrownMeansSole(vm, increment);
    SbrkKeeps(vm, increment);
    GrownSole(vm, increment);
    hide MemInv, UserDirs, DirInv, HeapInv, Sbrk, HeapPageSize, Wf, HeapMoved;
    OwnedWindow(vm', vm.cur);
    hide Owned;
  }

  lemma GrownSole(vm: Vm, increment: I32)
    requires CanMove(vm) && increment > 0 && Sbrk(vm, increment).1 != -ENOMEM
    ensures var vm' := Sbrk(vm, increment).0; vm'.cur == vm.cur && VmInv(vm') && CanMove(vm')
  {
    hide *;
    GrownMove(vm, increment);
    MoveSucceeds(vm, vm.heapTop[vm.cur] - increment);
    InvOf(MoveHeap(vm, vm.heapTop[vm.cur] - increment).0);
  }

  lemma InvOf(vm: Vm)
    requires CanMove(vm)
    ensures VmInv(vm)
  {
  }

  lemma Bounds(vm: Vm)
    requires CanMove(vm)
    ensures OnCpu(vm) && vm.cur < |vm.heapTop| && 0 <= vm.heapTop[vm.cur] <= HEAP_START
  {
    hide MemInv, DirInv, HeapInv, SoleHeap, Wf;
  }

  lemma GrownMove(vm: Vm, increment: I32)
    requires CanMove(vm) && increment > 0 && Sbrk(vm, increment).1 != -ENOMEM
    ensures OnCpu(vm) && vm.cur < |vm.heapTop| && 0 <= vm.heapTop[vm.cur] - increment <= HEAP_START
    ensures Sbrk(vm, increment) == MoveHeap(vm, vm.heapTop[vm.cur] - increment)
  {
    hide *;
    Bounds(vm);
    SbrkCases(vm, increment);
    NewHeapTopExact(vm.heapTop[vm.cur], increment);
  }

  /** The bytes above a heap top, below another one, lie in its pages. */
  lemma ByteInWindow(top: int, a: int)
    requires 0 <= top < a <= HEAP_START
    ensures PAG_LOG_INIT_HEAP - HeapPageSize(top) < a / PAGE_SIZE <= PAG_LOG_INIT_HEAP
  {
  }

  /** The top itself lies there too, unless the heap fills its last page to the end. */
  lemma TopInWindow(top: int)
    requires 0 <= top <= HEAP_START
    ensures PAG_LOG_INIT_HEAP - HeapPageSize(top) < top / PAGE_SIZE <= PAG_LOG_INIT_HEAP <==> (top + 1) % PAGE_SIZE != 0
  {
  }

  lemma GrowPages(vm: Vm, increment: I32)
    requires CanSbrk(vm) && increment > 0 && Sbrk(vm, increment).1 != -ENOMEM
    ensures OnCpu(vm) && VmWf(vm) && vm.cur < |vm.heapTop| && 0 <= vm.heapTop[vm.cur] <= HEAP_START
    ensures var vm' := Sbrk(vm, increment).0;
      && VmWf(vm') && vm.cur < |vm'.heapTop| && 0 <= vm'.heapTop[vm.cur] <= HEAP_START
      && vm'.heapTop[vm.cur] == vm.heapTop[vm.cur] - increment && HeapPageSize(vm'.heapTop[vm.cur]) <= MAX_HEAP_PAGES
  {
    var vm' := Sbrk(vm, increment).0;
    TopMoves(vm, increment);
    SbrkKeeps(vm, increment);
    GrownMeansSole(vm, increment);
    GrownSole(vm, increment);
    hide MemInv, Owned, UserDirs, DirInv, Sbrk, HeapPageSize, Wf, HeapMoved, SoleHeap;
    assert UserTask(vm', vm.cur) by {
      SoleIsUser(vm', vm.cur);
    }
  }

  lemma SoleIsUser(vm: Vm, t: nat)
    requires VmWf(vm) && SoleHeap(vm, t)
    ensures UserTask(vm, t)
  {
  }

  lemma HighPage(top: int, a: int)
    requires 0 <= top <= a <= HEAP_START && HeapPageSize(top) <= MAX_HEAP_PAGES
    ensures 0 <= a < 0x1_0000_0000 && a / PAGE_SIZE >= PAG_LOG_INIT_DATA + NUM_PAG_DATA - 1
    ensures a > top || (top + 1) % PAGE_SIZE != 0 ==> a / PAGE_SIZE >= PAG_LOG_INIT_DATA + NUM_PAG_DATA
  {
  }

  /** A byte between the new and the old top is a heap byte after a growth. */
  lemma NewByte(vm: Vm, increment: I32, a: int)
    requires CanSbrk(vm) && increment > 0 && Sbrk(vm, increment).1 != -ENOMEM
    requires Sbrk(vm, increment).0.heapTop[vm.cur] < a <= vm.heapTop[vm.cur]
    ensures HeapByte(Sbrk(vm, increment).0, a)
  {
    hide *;
    GrowPages(vm, increment);
    var top' := Sbrk(vm, increment).0.heapTop[vm.cur];
    HighPage(top', a);
    GrownOwns(vm, increment, a);
    ByteInWindow(top', a);
  }

  lemma TopByte(vm: Vm, increment: I32)
    requires CanSbrk(vm) && increment > 0 && Sbrk(vm, increment).1 != -ENOMEM
    ensures var (vm', _) := Sbrk(vm, increment);
      HeapByte(vm', vm'.heapTop[vm.cur]) <==> (vm'.heapTop[vm.cur] + 1) % PAGE_SIZE != 0
  {
    hide *;
    GrowPages(vm, increment);
    var vm' := Sbrk(vm, increment).0;
    var top' := vm'.heapTop[vm.cur];
    TopInWindow(top');
    HighPage(top', top');
    if top' / PAGE_SIZE >= PAG_LOG_INIT_DATA + NUM_PAG_DATA {
      GrownOwns(vm, increment, top');
    } else {
      NotHeap(vm', top');
    }
  }

  /** All bytes between the new and the old top are heap bytes after a growth; the new top may be one. */
  lemma NewBytes(vm: Vm, increment: I32)
    requires CanSbrk(vm) && increment > 0 && Sbrk(vm, increment).1 != -ENOMEM
    ensures var (vm', _) := Sbrk(vm, increment);
      && vm'.heapTop[vm.cur] == vm.heapTop[vm.cur] - increment
      && (forall a :: vm'.heapTop[vm.cur] < a <= vm.heapTop[vm.cur] ==> HeapByte(vm', a))
      && (HeapByte(vm', vm'.heapTop[vm.cur]) <==> (vm'.heapTop[vm.cur] + 1) % PAGE_SIZE != 0)
  {
    var vm' := Sbrk(vm, increment).0;
    GrowPages(vm, increment);
    TopByte(vm, increment);
    hide CanSbrk, Sbrk, HeapByte, HeapPageSize, Wf;
    forall a | vm'.heapTop[vm.cur] < a <= vm.heapTop[vm.cur]
      ensures HeapByte(vm', a)
    {
      NewByte(vm, increment, a);
    }
  }

  lemma NotHeap(vm: Vm, a: int)
    requires VmWf(vm) && a / PAGE_SIZE < PAG_LOG_INIT_DATA + NUM_PAG_DATA
    ensures !HeapByte(vm, a)
  {
  }

  /** Every call, whoever makes it. */
  lemma SbrkAnswers(vm: Vm, increment: I32)
    requires CanSbrk(vm)
    ensures SbrkAnswer(vm, increment, Sbrk(vm, increment).0, Sbrk(vm, increment).1)
  {
    TopMoves(vm, increment);
    var top := vm.heapTop[vm.cur];
    if increment != 0 {
      Answered(vm, increment);
      if increment > 0 && Sbrk(vm, increment).1 != -ENOMEM {
        NewBytes(vm, increment);
      }
      if increment < 0 {
        HeapSizeMonotone(NewBreak(top, increment), top);
      }
    }
    hide CanSbrk, MoveHeap, NewHeapTop, HeapByte, HeapPageSize, Wf;
  }

  /** The answer is the address of `increment` bytes of heap. */
  ghost predicate Usable(vm: Vm, r: int, increment: int)
    requires VmWf(vm)
  {
    forall a :: r <= a < r + increment ==> HeapByte(vm, a)
  }

  /**
   A growth answers with the address of `increment` heap bytes iff it adds pages or does not fill the last
   page of the heap to its end. Without new pages the answer is one byte too low.
   */
  lemma UsableIff(vm: Vm, increment: I32)
    requires CanSbrk(vm) && increment > 0 && Sbrk(vm, increment).1 != -ENOMEM
    ensures var (vm', r) := Sbrk(vm, increment);
      var top := vm.heapTop[vm.cur];
      && 0 <= top - increment
      && (Usable(vm', r, increment) <==> AddsPages(top, top - increment) || (top - increment + 1) % PAGE_SIZE != 0)
  {
    SbrkAnswers(vm, increment);
    NewBytes(vm, increment);
    hide CanSbrk, Sbrk, HeapByte, HeapPageSize, Wf, NewBreak;
    var (vm', r) := Sbrk(vm, increment);
    if !AddsPages(vm.heapTop[vm.cur], vm'.heapTop[vm.cur]) {
      assert Usable(vm', r, increment) ==> HeapByte(vm', r);
    }
  }

  // ---------------------------------------------------------------- whole runs

  /** The sizes of all heaps, in bytes, after a step: inherited at fork, none for a thread, moved by sbrk. */
  ghost function SizesNext(vm: Vm, op: Op, h: seq<int>): (r: seq<int>)
    requires OnCpu(vm) && Enabled(vm, op) && |h| == NR_TASKS
    ensures |r| == NR_TASKS
  {
    match op
    case DoFork(child) => h[child := h[vm.cur]]
    case DoClone(child) => h[child := 0]
    case DoSbrk(n) =>
      if Refused(vm, n) then h else h[vm.cur := if h[vm.cur] + n >= 0 then h[vm.cur] + n else 0]
    case _ => h
  }

  ghost predicate Sized(vm: Vm, h: seq<int>)
    requires VmWf(vm)
  {
    |h| == NR_TASKS && forall t :: 0 <= t < NR_TASKS ==> h[t] == HEAP_START - vm.heapTop[t]
  }

  lemma MovedSize(tops: seq<int>, cur: nat, n: int, h: seq<int>)
    requires |tops| == |h| == NR_TASKS && cur < NR_TASKS
    requires forall t :: 0 <= t < NR_TASKS ==> h[t] == HEAP_START - tops[t]
    ensures var h', tops' := h[cur := if h[cur] + n >= 0 then h[cur] + n else 0], tops[cur := NewBreak(tops[cur], n)];
      forall t :: 0 <= t < NR_TASKS ==> h'[t] == HEAP_START - tops'[t]
    ensures tops[cur := tops[cur]] == tops
  {
  }

  lemma SbrkSizes(vm: Vm, n: I32, h: seq<int>)
    requires CanSbrk(vm) && Sized(vm, h)
    ensures Sized(Sbrk(vm, n).0, SizesNext(vm, DoSbrk(n), h))
  {
    TopMoves(vm, n);
    SbrkFailsExactly(vm, n);
    MovedSize(vm.heapTop, vm.cur, n, h);
    hide NewBreak, VmInv, Sbrk, Refused, Wf, UserTask;
  }

  lemma TouchTops(vm: Vm, op: Op)
    requires OnCpu(vm) && Enabled(vm, op) && Step(vm, op).Running? && (op.DoLoad? || op.DoStore?)
    ensures VmWf(Step(vm, op).vm) && Step(vm, op).vm.heapTop == vm.heapTop
  {
    Machine.TouchBooks(vm, op.addr, op.DoStore?);
    hide Touch;
  }

  lemma ExitTops(vm: Vm, next: nat)
    requires OnCpu(vm) && Live(vm, next) && next != vm.cur
    ensures Exit(vm, next).heapTop == vm.heapTop
  {
    hide Wf, FreeUserPages;
  }

  lemma ForkTops(vm: Vm, child: nat)
    requires OnCpu(vm) && child < NR_TASKS && child != vm.cur && Fork(vm, child).Some?
    ensures Fork(vm, child).value.heapTop == vm.heapTop[child := vm.heapTop[vm.cur]]
  {
    hide Wf, ForkPages;
  }

  lemma ForkSizes(vm: Vm, child: nat, h: seq<int>)
    requires VmInv(vm) && Enabled(vm, DoFork(child)) && Sized(vm, h)
    ensures Step(vm, DoFork(child)).Running? && VmWf(Step(vm, DoFork(child)).vm)
    ensures Sized(Step(vm, DoFork(child)).vm, SizesNext(vm, DoFork(child), h))
  {
    hide VmInv, Fork, Wf;
    ForkBooks(vm, child);
    ForkTops(vm, child);
  }

  lemma AccessSizes(vm: Vm, op: Op, h: seq<int>)
    requires OnCpu(vm) && Enabled(vm, op) && Step(vm, op).Running? && (op.DoLoad? || op.DoStore?) && Sized(vm, h)
    ensures VmWf(Step(vm, op).vm) && Sized(Step(vm, op).vm, SizesNext(vm, op, h))
  {
    TouchTops(vm, op);
    hide Step, Wf;
  }

  lemma SbrkIsStep(vm: Vm, n: I32)
    requires OnCpu(vm) && Enabled(vm, DoSbrk(n))
    ensures Step(vm, DoSbrk(n)) == Running(Sbrk(vm, n).0)
  {
    hide Sbrk;
  }

  lemma StepSizes(vm: Vm, op: Op, h: seq<int>)
    requires VmInv(vm) && Enabled(vm, op) && Step(vm, op).Running? && Sized(vm, h)
    ensures VmWf(Step(vm, op).vm) && Sized(Step(vm, op).vm, SizesNext(vm, op, h))
  {
    hide VmInv, Step, SizesNext, Wf, Sized;
    match op
    case DoFork(child) => ForkSizes(vm, child, h);
    case DoSbrk(n) =>
      assert Step(vm, op) == Running(Sbrk(vm, n).0) by {
        SbrkIsStep(vm, n);
      }
      SbrkSizes(vm, n, h);
    case DoLoad(_) => AccessSizes(vm, op, h);
    case DoStore(_, _) => AccessSizes(vm, op, h);
    case _ => OtherSizes(vm, op, h);
  }

  lemma OtherSizes(vm: Vm, op: Op, h: seq<int>)
    requires OnCpu(vm) && Enabled(vm, op) && Sized(vm, h)
    requires op.DoClone? || op.DoExit? || op.DoSwitch? || op.TlbFill? || op.TlbEvict?
    ensures Step(vm, op).Running? && VmWf(Step(vm, op).vm) && Sized(Step(vm, op).vm, SizesNext(vm, op, h))
  {
    hide Exit, SetCr3, Cache;
    if op.DoExit? {
      ExitTops(vm, op.next);
    }
  }

  ghost function Sizes(vm: Vm, ops: seq<Op>, h: seq<int>): (r: seq<int>)
    requires OnCpu(vm) && AllEnabled(vm, ops) && |h| == NR_TASKS
    decreases |ops|
  {
    if ops == [] || Step(vm, ops[0]).Halted? then h
    else Sizes(Step(vm, ops[0]).vm, ops[1..], SizesNext(vm, ops[0], h))
  }

  /** Over every run of proper steps each heap has the size that the increments give it. */
  lemma {:induction false} RunSizes(vm: Vm, ops: seq<Op>, h: seq<int>)
    requires VmInv(vm) && AllEnabled(vm, ops) && AllProper(vm, ops) && |h| == NR_TASKS && Sized(vm, h)
    ensures Run(vm, ops).Running? ==> OnCpu(Run(vm, ops).vm) && Sized(Run(vm, ops).vm, Sizes(vm, ops, h))
    decreases |ops|
  {
    hide VmInv, Enabled, Proper, Step, Sized, SizesNext;
    if ops != [] && Step(vm, ops[0]).Running? {
      StepRefines(vm, ops[0]);
      StepSizes(vm, ops[0], h);
      RunSizes(Step(vm, ops[0]).vm, ops[1..], SizesNext(vm, ops[0], h));
    }
  }
}
