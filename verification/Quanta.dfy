/**
 Time slices. Who keeps the CPU and for how long is told from the clock ticks since the last dispatch and
 from the quantum alone, not from the remaining ticks that the scheduler tests.
 */
module Quanta {
  import opened Basics
  import opened Sched
  import opened SchedInvariant
  import opened SchedSteps
  import opened SemHistory
  import opened TaskHistory
  import opened RoundRobin
  import opened SchedBoot
  import opened Calls

  // ---------------------------------------------------------------- which entries give up the CPU

  /** The entry ends with a dispatch: the slice is over, idle is no longer needed, or the caller leaves or blocks. */
  predicate Switches(s: Sched, op: Op)
    requires Shape(s)
  {
    match op
    case ClockTick => (s.cur == s.idle && s.ready != []) || s.ticks + 1 >= s.tasks[s.cur].quantum
    case SysExit => true
    case SysSemWait(n) => InUse(s, n) && s.sems[n].count == 0
    case _ => false
  }

  /** What the entry does to the CPU. */
  ghost predicate CpuStep(s: Sched, op: Op, s': Sched, evs: seq<Ev>)
    requires Shape(s)
  {
    if Switches(s, op) then Dispatches(evs) == [s'.cur] && s'.ticks == 0
    else Dispatches(evs) == [] && s'.cur == s.cur && s'.ticks == s.ticks + Ticks(op)
  }

  /** What a tick does to the ready queue. */
  ghost predicate TickStep(s: Sched, s': Sched)
    requires Shape(s)
  {
    var q := if s.cur == s.idle then s.ready else s.ready + [s.cur];
    if !Switches(s, ClockTick) then s'.ready == s.ready
    else if q == [] then s'.cur == s.idle && s'.ready == []
    else [s'.cur] + s'.ready == q
  }

  lemma RescheduleCpu(s: Sched, a: seq<Ev>)
    requires Shape(s) && NoDispatch(a)
    ensures var (s', evs) := Reschedule(s);
      && Dispatches(a + evs) == [s'.cur] && s'.ticks == 0 && s'.cur == Next(s)
      && s'.ready == if s.ready == [] then [] else s.ready[1..]
  {
    NoDispatches(a);
    DispatchesAppend(a, Reschedule(s).1);
    RescheduleDispatches(s);
  }

  /** The scheduler's own test, after the tick has been counted, says the same. */
  lemma NeedsIffSwitches(s: Sched)
    requires Shape(s)
    ensures NeedsSched(RefreshTicks(s.(ticks := s.ticks + 1))) <==> Switches(s, ClockTick)
  {
  }

  lemma TickCpu(s: Sched)
    requires SInv(s)
    ensures CpuStep(s, ClockTick, Tick(s).0, Tick(s).1) && TickStep(s, Tick(s).0)
  {
    hide Good, Reschedule, Tick;
    TickUnfold(s);
    var s1 := RefreshTicks(s.(ticks := s.ticks + 1));
    var a := [Acct(s.cur, UserToSys), Acct(s.cur, CurrentTicksUpdated)];
    NeedsIffSwitches(s);
    if NeedsSched(s1) {
      var s2 := Preempt(s1);
      assert s2.ready == if s.cur == s.idle then s.ready else s.ready + [s.cur];
      RescheduleCpu(s2, a + [Acct(s.cur, SysToReady)]);
      assert s2.ready != [] ==> [s2.ready[0]] + s2.ready[1..] == s2.ready;
    } else {
      NoDispatches(a + [Acct(s.cur, SysToUser)]);
    }
  }

  lemma ExitCpu(s: Sched)
    requires SInv(s) && s.cur != s.idle
    ensures CpuStep(s, SysExit, Exit(s).0, Exit(s).1)
  {
    hide Good, DestroyEach, Reschedule, Dying;
    ExitGone(s);
    var s1, ns := Retire(s), s.tasks[s.cur].sems;
    var (s2, evs) := DestroyEach(s1, ns);
    DestroyNoDispatch(s1, ns);
    RescheduleCpu(s2, [Acct(s.cur, UserToSys)] + evs);
  }

  lemma WaitCpu(s: Sched, n: int)
    requires Shape(s)
    ensures CpuStep(s, SysSemWait(n), SemWait(s, n).0, SemWait(s, n).2)
  {
    hide Reschedule;
    if InUse(s, n) && s.sems[n].count == 0 {
      var a := [Acct(s.cur, UserToSys), Park(s.cur, n), Acct(s.cur, SysToBlocked)];
      RescheduleCpu(Block(s, n), a);
      assert SemWait(s, n).2 == a + Reschedule(Block(s, n)).1;
    } else {
      NoDispatches(SemWait(s, n).2);
    }
  }

  lemma DestroyCpu(s: Sched, n: int)
    requires Shape(s)
    ensures CpuStep(s, SysSemDestroy(n), SemDestroy(s, n).0, SemDestroy(s, n).2)
  {
    hide Destroy;
    if InUse(s, n) && MayDestroy(s, n) {
      DestroyExact(s, n);
      WakeNoDispatch(s.sems[n].blocked, n);
    }
    NoDispatches(SemDestroy(s, n).2);
  }

  /** A call that returns to its caller, seen as what changes and what happens. */
  lemma QuietCpu(s: Sched, op: Op, s': Sched, evs: seq<Ev>)
    requires Shape(s) && NoDispatch(evs) && !Switches(s, op) && op != ClockTick
    requires s'.cur == s.cur && s'.ticks == s.ticks
    ensures CpuStep(s, op, s', evs)
  {
    NoDispatches(evs);
  }

  lemma SpawnCpu(s: Sched)
    requires Shape(s)
    ensures CpuStep(s, SysSpawn, Spawn(s).0, Spawn(s).2)
  {
    QuietCpu(s, SysSpawn, Spawn(s).0, Spawn(s).2);
  }

  lemma InitCpu(s: Sched, n: int, v: int)
    requires Shape(s) && 0 <= v < TWO32
    ensures CpuStep(s, SysSemInit(n, v), SemInit(s, n, v).0, SemInit(s, n, v).2)
  {
    hide Int32;
    QuietCpu(s, SysSemInit(n, v), SemInit(s, n, v).0, SemInit(s, n, v).2);
  }

  lemma SignalCpu(s: Sched, n: int)
    requires Shape(s)
    ensures CpuStep(s, SysSemSignal(n), SemSignal(s, n).0, SemSignal(s, n).2)
  {
    hide Int32;
    QuietCpu(s, SysSemSignal(n), SemSignal(s, n).0, SemSignal(s, n).2);
  }

  lemma StatsCpu(s: Sched, pid: int)
    requires Shape(s)
    ensures CpuStep(s, SysGetStats(pid), GetStats(s, pid).0, GetStats(s, pid).2)
  {
    hide FindPid;
    QuietCpu(s, SysGetStats(pid), GetStats(s, pid).0, GetStats(s, pid).2);
  }

  lemma StepCpu(s: Sched, op: Op)
    requires SInv(s) && Enabled(s, op)
    ensures CpuStep(s, op, Step(s, op).0, Step(s, op).1)
  {
    hide SInv, Tick, Exit, SemWait, SemDestroy, CpuStep, Spawn, SemInit, SemSignal, GetStats;
    match op
    case ClockTick => TickCpu(s);
    case SysExit => ExitCpu(s);
    case SysSemWait(n) => WaitCpu(s, n);
    case SysSemDestroy(n) => DestroyCpu(s, n);
    case SysSpawn => SpawnCpu(s);
    case SysSemInit(n, v) => InitCpu(s, n, v);
    case SysSemSignal(n) => SignalCpu(s, n);
    case SysGetStats(pid) => StatsCpu(s, pid);
    case SysOther => QuietCpu(s, op, s, Quiet(s, 0, []).2);
  }

  // ---------------------------------------------------------------- whole runs

  /** The clock ticks of a run since its last dispatch; `used` of them before it begins. */
  function SinceDispatch(s: Sched, ops: seq<Op>, used: nat): (r: nat)
    requires Shape(s) && AllEnabled(s, ops)
    decreases |ops|
  {
    if ops == [] then used
    else
      var (s1, evs) := Step(s, ops[0]);
      SinceDispatch(s1, ops[1..], if Dispatches(evs) != [] then 0 else used + Ticks(ops[0]))
  }

  /** A running task has not used up its slice. */
  ghost predicate InSlice(s: Sched)
    requires Shape(s)
  {
    s.ticks >= 0 && (s.cur != s.idle ==> s.ticks < AtLeastOne(s.tasks[s.cur].quantum))
  }

  lemma StepInSlice(s: Sched, op: Op)
    requires SInv(s) && Enabled(s, op) && InSlice(s)
    ensures InSlice(Step(s, op).0)
  {
    hide SInv, Step;
    StepCpu(s, op);
    StepNames(s, op);
    IdleStays(s, op);
    CurNotFree(s);
  }

  lemma CurNotFree(s: Sched)
    requires SInv(s)
    ensures s.freeq != [] ==> s.freeq[0] != s.cur
  {
    assert s.freeq != [] ==> s.freeq[0] in s.freeq;
  }

  /** `current_ticks` counts the ticks since the last dispatch. */
  lemma {:induction false} RunSlices(s: Sched, ops: seq<Op>)
    requires SInv(s) && AllEnabled(s, ops) && InSlice(s)
    ensures InSlice(Run(s, ops).0) && Run(s, ops).0.ticks == SinceDispatch(s, ops, s.ticks)
    decreases |ops|
  {
    hide SInv, Step, Enabled, InSlice;
    if ops != [] {
      SliceTicks(s);
      StepKeeps(s, ops[0]);
      StepCpu(s, ops[0]);
      StepInSlice(s, ops[0]);
      RunSlices(Step(s, ops[0]).0, ops[1..]);
    }
  }

  lemma SliceTicks(s: Sched)
    requires Shape(s) && InSlice(s)
    ensures s.ticks >= 0
  {
  }

  /**
   The next tick, after `used` ticks since the last dispatch: it takes the CPU from a task iff it is the
   last of the slice, and the task goes to the end of the ready queue; it takes the CPU from idle for a
   ready task iff there is one.
   */
  ghost predicate SliceExact(s: Sched, used: nat)
    requires Shape(s)
  {
    var (s', evs) := Tick(s);
    && (s.cur != s.idle ==>
          && used < AtLeastOne(s.tasks[s.cur].quantum)
          && (Dispatches(evs) != [] <==> used + 1 == AtLeastOne(s.tasks[s.cur].quantum))
          && (Dispatches(evs) != [] ==> [s'.cur] + s'.ready == s.ready + [s.cur] && Dispatches(evs) == [s'.cur])
          && (Dispatches(evs) == [] ==> s'.cur == s.cur && s'.ready == s.ready))
    && (s.cur == s.idle ==>
          && (s.ready != [] ==> [s'.cur] + s'.ready == s.ready && Dispatches(evs) == [s'.cur])
          && (s.ready == [] ==> s'.cur == s.idle && s'.ready == []))
  }

  lemma SliceFrom(s: Sched)
    requires SInv(s) && InSlice(s)
    ensures SliceExact(s, s.ticks)
  {
    TickCpu(s);
    hide SInv, Tick, Dispatches;
  }

  /** Whatever ran since the last dispatch, a task keeps the CPU for exactly max(1, quantum) ticks. */
  lemma QuantumExact(s: Sched, ops: seq<Op>)
    requires SInv(s) && AllEnabled(s, ops) && InSlice(s)
    ensures SliceExact(Run(s, ops).0, SinceDispatch(s, ops, s.ticks))
  {
    hide SInv, AllEnabled, Run, SliceExact;
    RunKeeps(s, ops);
    RunSlices(s, ops);
    SliceFrom(Run(s, ops).0);
  }

  /** The slices, with the quantum that boot gives, and the other places where the CPU changes hands. */
  ghost predicate SlicesShown(s: Sched, used: nat, op: Op)
    requires Shape(s)
  {
    && SliceExact(s, used)
    && (s.cur != s.idle ==> s.tasks[s.cur].quantum == 100)
    && (Enabled(s, op) && op != ClockTick ==>
          (Dispatches(Step(s, op).1) != [] <==>
            op == SysExit || (op.SysSemWait? && InUse(s, op.n) && s.sems[op.n].count == 0)))
  }

  lemma SlicesFrom(s: Sched, op: Op)
    requires SInv(s) && InSlice(s) && Named(s)
    ensures SlicesShown(s, s.ticks, op)
  {
    hide SInv, SliceExact, PidsApart, Step;
    SliceFrom(s);
    FreeIffInvalid(s, s.cur);
    if Enabled(s, op) && op != ClockTick {
      StepCpu(s, op);
    }
  }

  /** From boot every slice has 100 ticks, and the CPU changes hands only at these places. */
  lemma ReachableSlices(ops: seq<Op>, op: Op)
    requires AllEnabled(Booted(), ops)
    ensures SlicesShown(Run(Booted(), ops).0, SinceDispatch(Booted(), ops, 0), op)
  {
    BootedInv();
    BootedNamed();
    BootSlice(1);
    hide SInv, Run, AllEnabled, Booted, SlicesShown, Named, InSlice, Initial, LeftExact;
    RunKeeps(Booted(), ops);
    RunNamed(Booted(), ops);
    RunSlices(Booted(), ops);
    SlicesFrom(Run(Booted(), ops).0, op);
  }

  // ---------------------------------------------------------------- remaining ticks

  predicate Born(s: Sched, op: Op, t: nat)
    requires Shape(s)
  {
    op == SysSpawn && s.freeq != [] && t == s.freeq[0]
  }

  /** How much of its slice task `t` has used: ticks on the CPU since its last dispatch, preemption or birth. */
  function UsedNext(s: Sched, op: Op, t: nat, used: nat): (r: nat)
    requires Shape(s) && Enabled(s, op)
  {
    var ds := Dispatches(Step(s, op).1);
    if t in ds || Born(s, op, t) then 0
    else if op == ClockTick && s.cur == t then (if ds != [] then 0 else used + 1)
    else used
  }

  function Used(s: Sched, ops: seq<Op>, t: nat, used: nat): (r: nat)
    requires Shape(s) && AllEnabled(s, ops)
    decreases |ops|
  {
    if ops == [] then used else Used(Step(s, ops[0]).0, ops[1..], t, UsedNext(s, ops[0], t, used))
  }

  /** The remaining ticks of a task after a step. */
  ghost predicate LeftStep(s: Sched, op: Op, t: nat, s': Sched, evs: seq<Ev>)
    requires Shape(s) && Shape(s') && t < NR_TASKS
  {
    var q := s.tasks[t].quantum;
    s'.tasks[t].remaining ==
      if t in Dispatches(evs) then NonNegative(q)
      else if Born(s, op, t) then s'.tasks[t].quantum
      else if op == ClockTick && s.cur == t then (if Dispatches(evs) != [] then q else NonNegative(q - (s.ticks + 1)))
      else s.tasks[t].remaining
  }

  lemma RescheduleLeft(s: Sched, t: nat)
    requires Shape(s) && t < NR_TASKS
    ensures Reschedule(s).0.tasks[t].remaining ==
      if t == Next(s) then NonNegative(s.tasks[t].quantum) else s.tasks[t].remaining
  {
  }

  lemma TickLeft(s: Sched, t: nat)
    requires SInv(s) && t < NR_TASKS
    ensures LeftStep(s, ClockTick, t, Tick(s).0, Tick(s).1)
  {
    hide Good, Reschedule, Tick;
    TickUnfold(s);
    var s1 := RefreshTicks(s.(ticks := s.ticks + 1));
    var a := [Acct(s.cur, UserToSys), Acct(s.cur, CurrentTicksUpdated)];
    if NeedsSched(s1) {
      RescheduleCpu(Preempt(s1), a + [Acct(s.cur, SysToReady)]);
      RescheduleLeft(Preempt(s1), t);
    } else {
      NoDispatches(a + [Acct(s.cur, SysToUser)]);
    }
  }

  lemma ExitLeft(s: Sched, t: nat)
    requires SInv(s) && s.cur != s.idle && t < NR_TASKS
    ensures LeftStep(s, SysExit, t, Exit(s).0, Exit(s).1)
  {
    hide Good, DestroyEach, Reschedule, Dying;
    ExitGone(s);
    var s1, ns := Retire(s), s.tasks[s.cur].sems;
    var (s2, evs) := DestroyEach(s1, ns);
    DestroyNoDispatch(s1, ns);
    RescheduleCpu(s2, [Acct(s.cur, UserToSys)] + evs);
    RescheduleLeft(s2, t);
  }

  lemma WaitLeft(s: Sched, n: int, t: nat)
    requires Shape(s) && t < NR_TASKS
    ensures LeftStep(s, SysSemWait(n), t, SemWait(s, n).0, SemWait(s, n).2)
  {
    hide Reschedule;
    WaitCpu(s, n);
    if InUse(s, n) && s.sems[n].count == 0 {
      RescheduleLeft(Block(s, n), t);
      RescheduleCpu(Block(s, n), []);
    }
  }

  lemma DestroyLeft(s: Sched, n: int, t: nat)
    requires SInv(s) && t < NR_TASKS
    ensures LeftStep(s, SysSemDestroy(n), t, SemDestroy(s, n).0, SemDestroy(s, n).2)
  {
    DestroyCpu(s, n);
    SemDestroyAnswers(s, n);
    hide SInv, SemDestroy;
  }

  /** Without a dispatch only the clock and a birth change the remaining ticks. */
  lemma QuietLeft(s: Sched, op: Op, t: nat, s': Sched, evs: seq<Ev>)
    requires Shape(s) && Shape(s') && t < NR_TASKS && op != ClockTick && CpuStep(s, op, s', evs) && !Switches(s, op)
    requires s'.tasks[t].remaining == if Born(s, op, t) then s'.tasks[t].quantum else s.tasks[t].remaining
    ensures LeftStep(s, op, t, s', evs)
  {
  }

  lemma CallLeft(s: Sched, op: Op, t: nat)
    requires SInv(s) && Enabled(s, op) && t < NR_TASKS
    requires op.SysSpawn? || op.SysSemInit? || op.SysSemSignal? || op.SysGetStats? || op.SysOther?
    ensures LeftStep(s, op, t, Step(s, op).0, Step(s, op).1)
  {
    StepCpu(s, op);
    hide SInv, CpuStep, Int32, FindPid, LeftStep;
    QuietLeft(s, op, t, Step(s, op).0, Step(s, op).1);
  }

  lemma StepLeft(s: Sched, op: Op, t: nat)
    requires SInv(s) && Enabled(s, op) && t < NR_TASKS
    ensures LeftStep(s, op, t, Step(s, op).0, Step(s, op).1)
  {
    hide SInv, Tick, Exit, SemWait, SemDestroy, LeftStep, Spawn, SemInit, SemSignal, GetStats;
    match op
    case ClockTick => TickLeft(s, t);
    case SysExit => ExitLeft(s, t);
    case SysSemWait(n) => WaitLeft(s, n, t);
    case SysSemDestroy(n) => DestroyLeft(s, n, t);
    case _ => CallLeft(s, op, t);
  }

  /** The remaining ticks of a live task are its quantum less what it has used. */
  ghost predicate LeftExact(s: Sched, t: nat, used: nat)
    requires Shape(s) && t < NR_TASKS
  {
    s.tasks[t].state != StInvalid ==>
      s.tasks[t].remaining == NonNegative(s.tasks[t].quantum - used) && (t == s.cur ==> used == s.ticks)
  }

  lemma StepLeftExact(s: Sched, op: Op, t: nat, used: nat)
    requires SInv(s) && Enabled(s, op) && InSlice(s) && Named(s) && t < NR_TASKS && t != s.idle
    requires LeftExact(s, t, used)
    ensures LeftExact(Step(s, op).0, t, UsedNext(s, op, t, used))
  {
    hide SInv, Step, PidsApart;
    StepCpu(s, op);
    StepLeft(s, op, t);
    StepNamed(s, op);
    StepNames(s, op);
    StepLink(s, op);
    StillDead(s, op, t);
    FreeIffInvalid(s, s.cur);
    CurNotFree(s);
  }

  /** Only a birth makes a PCB live. */
  lemma StillDead(s: Sched, op: Op, t: nat)
    requires SInv(s) && Enabled(s, op) && t < NR_TASKS
    ensures s.tasks[t].state == StInvalid && !Born(s, op, t) ==> Step(s, op).0.tasks[t].state == StInvalid
  {
    hide SInv, Step;
    FreeIffInvalid(s, t);
    SpawnFirst(s);
    StepLink(s, op);
  }

  lemma {:induction false} RunLeft(s: Sched, ops: seq<Op>, t: nat, used: nat)
    requires SInv(s) && AllEnabled(s, ops) && InSlice(s) && Named(s) && t < NR_TASKS && t != s.idle
    requires LeftExact(s, t, used)
    ensures LeftExact(Run(s, ops).0, t, Used(s, ops, t, used))
    decreases |ops|
  {
    hide SInv, Step, Enabled, InSlice, Named, LeftExact, UsedNext;
    if ops != [] {
      StepKeeps(s, ops[0]);
      StepInSlice(s, ops[0]);
      StepNamed(s, ops[0]);
      StepLeftExact(s, ops[0], t, used);
      IdleStays(s, ops[0]);
      RunLeft(Step(s, ops[0]).0, ops[1..], t, UsedNext(s, ops[0], t, used));
    }
  }

  /** A live task's remaining ticks are 100 less what it has used of its slice, and never below zero. */
  ghost predicate LeftShown(s: Sched, t: nat, used: nat)
    requires Shape(s) && t < NR_TASKS
  {
    s.tasks[t].state != StInvalid ==> s.tasks[t].remaining == NonNegative(100 - used)
  }

  lemma LeftMeans(s: Sched, t: nat, used: nat)
    requires Shape(s) && Named(s) && t < NR_TASKS && LeftExact(s, t, used)
    ensures LeftShown(s, t, used)
  {
  }

  /** The remaining ticks in every state the kernel can reach. */
  lemma ReachableLeft(ops: seq<Op>, t: nat)
    requires AllEnabled(Booted(), ops) && 0 < t < NR_TASKS
    ensures LeftShown(Run(Booted(), ops).0, t, Used(Booted(), ops, t, 0))
  {
    BootedInv();
    BootedNamed();
    BootSlice(t);
    hide SInv, Run, AllEnabled, Booted, Named, InSlice, Used, Initial, LeftExact, LeftShown;
    RunNamed(Booted(), ops);
    RunLeft(Booted(), ops, t, 0);
    LeftMeans(Run(Booted(), ops).0, t, Used(Booted(), ops, t, 0));
  }

  lemma BootSlice(t: nat)
    requires 0 < t < NR_TASKS
    ensures InSlice(Booted()) && Booted().ticks == 0 && Booted().idle == 0 && LeftExact(Booted(), t, 0)
  {
  }
}
