/**
 The scheduler state that boot leaves behind, and what therefore holds in every state the kernel
 can reach.
 */
module SchedBoot {
  import opened Basics
  import opened Sched
  import opened SchedInvariant
  import opened SchedSteps
  import opened SemHistory
  import opened TaskHistory
  import opened KList
  import opened Layout
  import opened KernelParts

  // ---------------------------------------------------------------- init_sched, init_idle, init_task1

  const NO_TASK := Task(0, StInvalid, 0, 0, false, [], Fresh)
  const NO_SEM := Sem(false, 0, 0, [])

  function UpTo(k: nat): (q: seq<nat>)
    ensures |q| == k && forall i :: 0 <= i < k ==> q[i] == i
  {
    seq(k, i requires 0 <= i => i)
  }

  /** The tasks below `k` are on the free queue. */
  function Freed(k: nat): (s: Sched)
    ensures Sized(s)
  {
    Sched(seq(NR_TASKS, _ => NO_TASK), UpTo(k), [], seq(NR_SEMAPHORES, _ => NO_SEM), 0, 0, 0, 0)
  }

  /** Task 0 is idle, task 1 runs, the others are free in order. */
  function Booted(): (s: Sched)
    ensures Sized(s) && Shape(s)
  {
    Sched([Task(0, StReady, DEFAULT_QUANTUM, 0, false, [], Fresh),
           Task(1, StRun, DEFAULT_QUANTUM, DEFAULT_QUANTUM, false, [], Fresh)] + seq(NR_TASKS - 2, _ => NO_TASK),
          UpTo(NR_TASKS)[2..], [], seq(NR_SEMAPHORES, _ => NO_SEM), 1, 0, 0, 2)
  }

  lemma FreedNext(k: nat)
    requires k < NR_TASKS
    ensures At(Freed(k), k, Off) && Freed(k + 1) == Transfer(Freed(k), k, Off, On(FreeList))
  {
    assert UpTo(k) + [k] == UpTo(k + 1);
    assert Freed(k).tasks[k := NO_TASK] == Freed(k).tasks;
  }

  /** The boot state with idle set up and task 1 still free. */
  function IdleOnly(): (s: Sched)
    ensures Sized(s)
  {
    Sched([Task(0, StReady, DEFAULT_QUANTUM, 0, false, [], Fresh)] + seq(NR_TASKS - 1, _ => NO_TASK),
          UpTo(NR_TASKS)[1..], [], seq(NR_SEMAPHORES, _ => NO_SEM), 0, 0, 0, 1)
  }

  /** Boot, in the order of the source. */
  lemma BootParts()
    ensures var s := Freed(NR_TASKS);
      && Shape(s) && s.freeq != [] && s.freeq[0] == 0 && s.tasks[0].sems == []
      && var s1 := Allocated(s, Fresh).(idle := 0);
      SetTask(s1, 0, s1.tasks[0].(state := StReady)) == IdleOnly()
    ensures var s := IdleOnly();
      && Shape(s) && s.freeq != [] && s.freeq[0] == 1 && s.tasks[1].sems == []
      && var s1 := Allocated(s, Fresh);
      Accounted(SetTask(s1, 1, s1.tasks[1].(state := StRun)), 1, FreeToReady).(cur := 1) == Booted()
  {
    assert UpTo(NR_TASKS)[1..][1..] == UpTo(NR_TASKS)[2..];
    var s1 := Allocated(IdleOnly(), Fresh);
    var s2 := Accounted(SetTask(s1, 1, s1.tasks[1].(state := StRun)), 1, FreeToReady);
    assert s2.tasks == Booted().tasks;
    var r1 := Allocated(Freed(NR_TASKS), Fresh);
    assert SetTask(r1, 0, r1.tasks[0].(state := StReady)).tasks == IdleOnly().tasks;
  }

  /** The boot state, field by field. */
  ghost predicate Initial(s: Sched) {
    && Sized(s) && s.idle == 0 && s.cur == 1 && s.lastPid == 2 && s.ready == []
    && s.tasks[0].pid == 0 && s.tasks[0].state == StReady
    && s.tasks[1].pid == 1 && s.tasks[1].state == StRun
    && (forall t :: 0 <= t < NR_TASKS ==> s.tasks[t].sems == [] && !s.tasks[t].semDeleted && s.tasks[t].cont == Fresh)
    && (forall t :: 2 <= t < NR_TASKS ==> s.tasks[t].state == StInvalid)
    && |s.freeq| == NR_TASKS - 2 && (forall i :: 0 <= i < NR_TASKS - 2 ==> s.freeq[i] == i + 2)
    && (forall n :: 0 <= n < NR_SEMAPHORES ==> s.sems[n] == NO_SEM)
  }

  lemma InitialQueues(s: Sched)
    requires Initial(s)
    ensures Shape(s) && FreeQueue(s) && ReadyQueue(s) && OnCpu(s, true) && Marks(s)
  {
    forall t | 0 <= t < NR_TASKS && s.tasks[t].state == StInvalid
      ensures t in s.freeq
    {
      assert s.freeq[t - 2] == t;
    }
  }

  lemma InitialSems(s: Sched)
    requires Initial(s) && Shape(s)
    ensures BlockedQueues(s) && Ownership(s, true) && Pids(s, true)
  {
    forall n | 0 <= n < NR_SEMAPHORES
      ensures BlockedOn(s, n) && SemOk(s, true, n)
    {
    }
    forall t | 0 <= t < NR_TASKS
      ensures OwnOk(s, t)
    {
    }
    assert forall t: nat :: Alive(s, true, t) ==> t == 0 || t == 1;
  }

  lemma BootedInv()
    ensures Initial(Booted()) && SInv(Booted())
  {
    InitialQueues(Booted());
    InitialSems(Booted());
    hide FreeQueue, ReadyQueue, BlockedQueues, OnCpu, Ownership, Pids, Marks;
    GoodFrom(Booted(), true);
  }

  // ---------------------------------------------------------------- reachable states

  /** Every task other than idle is in exactly one place, and its state says which. */
  ghost predicate Partition(s: Sched)
    requires Shape(s)
  {
    && (forall t :: 0 <= t < NR_TASKS && t != s.idle ==>
          && (t in s.freeq <==> s.tasks[t].state == StInvalid)
          && (t in s.ready <==> s.tasks[t].state == StReady)
          && (t == s.cur <==> s.tasks[t].state == StRun)
          && (forall n :: 0 <= n < NR_SEMAPHORES ==>
                (t in s.sems[n].blocked <==> s.tasks[t].state == StBlocked && s.tasks[t].cont == InWait(n)))
          && (s.tasks[t].state == StBlocked ==>
                s.tasks[t].cont.InWait? && s.tasks[t].cont.n < NR_SEMAPHORES && s.sems[s.tasks[t].cont.n].used))
    && s.idle !in s.freeq && s.idle !in s.ready
    && (forall n :: 0 <= n < NR_SEMAPHORES ==> s.idle !in s.sems[n].blocked)
    && Distinct(s.freeq) && Distinct(s.ready) && (forall n :: 0 <= n < NR_SEMAPHORES ==> Distinct(s.sems[n].blocked))
  }

  /** A task owns exactly the used semaphores that name it as owner, each once, and owners are live. */
  ghost predicate OwnersExact(s: Sched)
    requires Shape(s)
  {
    && (forall t, n :: 0 <= t < NR_TASKS && 0 <= n < NR_SEMAPHORES ==>
          (n in s.tasks[t].sems <==> s.sems[n].used && s.sems[n].owner == t))
    && (forall t :: 0 <= t < NR_TASKS ==> Distinct(s.tasks[t].sems))
    && (forall n :: 0 <= n < NR_SEMAPHORES && s.sems[n].used ==>
          s.sems[n].owner < NR_TASKS && s.tasks[s.sems[n].owner].state != StInvalid)
  }

  lemma InvPartition(s: Sched)
    requires SInv(s)
    ensures Partition(s)
  {
    hide Pids, Marks;
    forall n | 0 <= n < NR_SEMAPHORES
      ensures Distinct(s.sems[n].blocked) && s.idle !in s.sems[n].blocked &&
        (s.sems[n].blocked != [] ==> s.sems[n].used)
      ensures forall t :: t in s.sems[n].blocked ==> s.tasks[t].state == StBlocked && s.tasks[t].cont == InWait(n)
    {
      assert BlockedOn(s, n) && SemOk(s, true, n);
    }
    forall t | 0 <= t < NR_TASKS && t != s.idle && s.tasks[t].state == StBlocked
      ensures s.tasks[t].cont.InWait? && s.tasks[t].cont.n < NR_SEMAPHORES && t in s.sems[s.tasks[t].cont.n].blocked
    {
      assert WaitsSomewhere(s, t);
    }
    hide Ownership, BlockedQueues;
  }

  lemma InvOwners(s: Sched)
    requires SInv(s)
    ensures OwnersExact(s)
  {
    hide FreeQueue, ReadyQueue, BlockedQueues, OnCpu, Pids, Marks;
    forall n | 0 <= n < NR_SEMAPHORES && s.sems[n].used
      ensures s.sems[n].owner < NR_TASKS && n in s.tasks[s.sems[n].owner].sems
      ensures s.tasks[s.sems[n].owner].state != StInvalid
    {
      assert SemOk(s, true, n);
    }
    forall t | 0 <= t < NR_TASKS
      ensures Distinct(s.tasks[t].sems) && forall n :: n in s.tasks[t].sems ==>
        n < NR_SEMAPHORES && s.sems[n].used && s.sems[n].owner == t
    {
      assert OwnOk(s, t);
    }
    hide Ownership;
  }

  /** In every state the kernel can reach the queues partition the tasks and ownership is exact. */
  lemma ReachablePartition(ops: seq<Op>)
    requires AllEnabled(Booted(), ops)
    ensures Partition(Run(Booted(), ops).0) && OwnersExact(Run(Booted(), ops).0)
  {
    BootedInv();
    hide SInv, Run, AllEnabled, Booted;
    RunKeeps(Booted(), ops);
    InvPartition(Run(Booted(), ops).0);
    InvOwners(Run(Booted(), ops).0);
  }

  /** A semaphore that has never been created. */
  const UNTOUCHED := Hist(0, 0, 0, [], [])

  /**
   Over every run from boot: each semaphore conserves its units and releases its waiters in arrival
   order, and someone waits only while the count is zero.
   */
  lemma ReachableSemaphores(ops: seq<Op>, n: nat)
    requires AllEnabled(Booted(), ops) && n < NR_SEMAPHORES
    ensures var (s, evs) := Run(Booted(), ops);
      var h := HistFold(n, UNTOUCHED, evs);
      && HistOk(s.sems[n], h)
      && (s.sems[n].used && -TWO31 <= h.init + h.signals - h.grants < TWO31 ==>
            s.sems[n].count + h.grants == h.init + h.signals)
      && (s.sems[n].blocked != [] ==> s.sems[n].used && s.sems[n].count == 0)
  {
    BootedInv();
    hide SInv, Run, AllEnabled, Booted, HistFold;
    RunConserves(Booted(), ops, n, UNTOUCHED);
    RunKeeps(Booted(), ops);
    WaitedMeansZero(Run(Booted(), ops).0, n);
  }

  /**
   Over every run from boot counts stay non-negative iff no semaphore is created with a value of 2^31 or
   more and no signal without waiters meets the count 2^31 - 1.
   */
  lemma ReachableCounts(ops: seq<Op>)
    requires AllEnabled(Booted(), ops)
    ensures CountsAlwaysOk(Booted(), ops) <==> NeverLeavesRange(Booted(), ops)
  {
    BootedInv();
    assert CountsOk(Booted());
    hide SInv, AllEnabled, Booted, CountsAlwaysOk, NeverLeavesRange;
    CountsStayNonNegative(Booted(), ops);
  }

  // ---------------------------------------------------------------- the two ways to a negative count

  /** Task 1 creates a semaphore with the smallest value that does not fit. */
  lemma NegativeFromBoot()
    ensures AllEnabled(Booted(), [SysSemInit(0, TWO31)])
    ensures var s := Run(Booted(), [SysSemInit(0, TWO31)]).0; s.sems[0].used && s.sems[0].count == -TWO31
  {
    var ops := [SysSemInit(0, TWO31)];
    assert ops[1..] == [];
    assert Step(Booted(), ops[0]).0.sems[0].count == -TWO31;
  }

  /** Task 1 creates a semaphore with the largest value that fits and signals it. */
  lemma OverflowFromBoot()
    ensures AllEnabled(Booted(), [SysSemInit(0, TWO31 - 1), SysSemSignal(0)])
    ensures var s := Run(Booted(), [SysSemInit(0, TWO31 - 1), SysSemSignal(0)]).0;
      s.sems[0].used && s.sems[0].count == -TWO31
  {
    var ops := [SysSemInit(0, TWO31 - 1), SysSemSignal(0)];
    var s1 := Step(Booted(), ops[0]).0;
    assert s1.sems[0] == Sem(true, TWO31 - 1, 1, []) && s1.cur == 1 && s1.idle == 0;
    assert ops[1..] == [SysSemSignal(0)] && ops[1..][1..] == [];
    assert Step(s1, SysSemSignal(0)).0.sems[0].count == -TWO31;
    hide Step, Booted;
    assert Run(s1, ops[1..]).0 == Step(s1, SysSemSignal(0)).0;
  }

  lemma WaitedMeansZero(s: Sched, n: nat)
    requires SInv(s) && n < NR_SEMAPHORES
    ensures s.sems[n].blocked != [] ==> s.sems[n].used && s.sems[n].count == 0
  {
    assert SemOk(s, true, n);
  }

  /** Over every run from boot no blocked wait returns the wrong value and no tick is charged to the wrong bucket. */
  lemma ReachableTasks(ops: seq<Op>, t: nat)
    requires AllEnabled(Booted(), ops) && 0 < t < NR_TASKS
    ensures var k := Follow(t, Track(NotWaiting, if t == 1 then User else Unborn), Run(Booted(), ops).1);
      k.w != Wrong && k.p != Broken && Fits(Run(Booted(), ops).0, t, k)
  {
    BootedInv();
    var k := Track(NotWaiting, if t == 1 then User else Unborn);
    assert Fits(Booted(), t, k);
    hide SInv, Run, AllEnabled, Booted, Fits, Follow;
    RunTracks(Booted(), ops, t, k);
  }

  // ---------------------------------------------------------------- PIDs

  /** How many tasks the run creates. */
  function Spawns(s: Sched, ops: seq<Op>): (k: nat)
    requires Shape(s) && AllEnabled(s, ops)
    decreases |ops|
  {
    if ops == [] then 0
    else (if ops[0] == SysSpawn && s.freeq != [] then 1 else 0) + Spawns(Step(s, ops[0]).0, ops[1..])
  }

  lemma StepPids(s: Sched, op: Op)
    requires SInv(s) && Enabled(s, op)
    ensures Step(s, op).0.lastPid == s.lastPid + if op == SysSpawn && s.freeq != [] then 1 else 0
  {
    hide SInv, Exit, Destroy;
    match op
    case SysExit => ExitPids(s);
    case SysSemDestroy(n) =>
      if !BadSem(n) {
        DestroyExact(s, n);
      }
    case _ =>
  }

  lemma ExitPids(s: Sched)
    requires SInv(s) && s.cur != s.idle
    ensures Exit(s).0.lastPid == s.lastPid
  {
    hide DestroyEach, Reschedule, Good, Dying, Exit;
    ExitGone(s);
    RescheduleShape(DestroyEach(Retire(s), s.tasks[s.cur].sems).0);
  }

  lemma {:induction false} RunPids(s: Sched, ops: seq<Op>)
    requires SInv(s) && AllEnabled(s, ops)
    ensures Run(s, ops).0.lastPid == s.lastPid + Spawns(s, ops)
    decreases |ops|
  {
    hide SInv, Step, Enabled;
    if ops != [] {
      StepKeeps(s, ops[0]);
      StepPids(s, ops[0]);
      RunPids(Step(s, ops[0]).0, ops[1..]);
    }
  }

  /** PIDs fit an `int` in every run from boot that creates at most 2^31 - 2 tasks. */
  lemma ReachablePids(ops: seq<Op>, t: nat)
    requires AllEnabled(Booted(), ops) && t < NR_TASKS && Run(Booted(), ops).0.tasks[t].state != StInvalid
    ensures Run(Booted(), ops).0.tasks[t].pid < 2 + Spawns(Booted(), ops)
  {
    BootedInv();
    assert Booted().lastPid == 2;
    hide SInv, Run, AllEnabled, Booted, Spawns;
    RunKeeps(Booted(), ops);
    RunPids(Booted(), ops);
    PidBelow(Run(Booted(), ops).0, t);
  }

  lemma PidBelow(s: Sched, t: nat)
    requires SInv(s) && t < NR_TASKS && s.tasks[t].state != StInvalid
    ensures s.tasks[t].pid < s.lastPid
  {
    assert Alive(s, true, t);
  }
}
