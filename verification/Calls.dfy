/**
 What each system call answers its caller, and what it changes, said without the code of the call:
 when a fork fails and which PID it returns, which semaphore numbers are refused and to whom, and a
 count of semaphore units that looks only at the calls that were made.
 */
module Calls {
  import opened Basics
  import opened Sched
  import opened SchedInvariant
  import opened SchedSteps
  import opened SemHistory
  import opened TaskHistory
  import opened SchedBoot

  // ---------------------------------------------------------------- the free queue

  /** Which PCBs are free after a step. */
  function FreeAfter(s: Sched, op: Op): (q: seq<nat>) {
    if op == SysSpawn && s.freeq != [] then s.freeq[1..]
    else if op == SysExit then s.freeq + [s.cur]
    else s.freeq
  }

  lemma ExitFreeQueue(s: Sched)
    requires SInv(s) && s.cur != s.idle
    ensures Exit(s).0.freeq == s.freeq + [s.cur]
  {
    hide DestroyEach, Reschedule, Good, Dying, Exit;
    ExitGone(s);
    RescheduleShape(DestroyEach(Retire(s), s.tasks[s.cur].sems).0);
  }

  lemma StepFree(s: Sched, op: Op)
    requires SInv(s) && Enabled(s, op)
    ensures Step(s, op).0.freeq == FreeAfter(s, op)
  {
    hide SInv, Exit, Destroy;
    match op
    case SysExit => ExitFreeQueue(s);
    case SysSemDestroy(n) =>
      if !BadSem(n) {
        DestroyExact(s, n);
      }
    case _ =>
  }

  lemma FreeIffInvalid(s: Sched, t: nat)
    requires SInv(s) && t < NR_TASKS
    ensures s.tasks[t].state == StInvalid <==> t in s.freeq
    ensures s.tasks[s.cur].state == StRun
  {
  }

  /** What a scheduler step does to who is free and who runs. */
  lemma StepLink(s: Sched, op: Op)
    requires SInv(s) && Enabled(s, op)
    ensures var s' := Step(s, op).0;
      && SInv(s') && s'.idle == s.idle && s'.tasks[s'.cur].state == StRun
      && forall t :: 0 <= t < NR_TASKS ==> (s'.tasks[t].state == StInvalid <==> t in FreeAfter(s, op))
  {
    hide SInv, Step, Enabled;
    StepKeeps(s, op);
    IdleStays(s, op);
    StepFree(s, op);
    var s' := Step(s, op).0;
    forall t | 0 <= t < NR_TASKS
      ensures s'.tasks[t].state == StInvalid <==> t in FreeAfter(s, op)
    {
      FreeIffInvalid(s', t);
    }
    FreeIffInvalid(s', s'.cur);
  }

  // ---------------------------------------------------------------- fork and clone

  ghost predicate NobodyFree(s: Sched)
    requires Shape(s)
  {
    forall t :: 0 <= t < NR_TASKS ==> s.tasks[t].state != StInvalid
  }

  /** Task `t`, free before, is the child: last in the ready queue, with a PID that no other live task has. */
  ghost predicate Child(s: Sched, s': Sched, r: int, t: nat)
    requires Shape(s) && Shape(s')
  {
    && t < NR_TASKS && s.tasks[t].state == StInvalid && s'.tasks[t].state == StReady
    && s'.tasks[t].pid == r && s'.tasks[t].quantum == s.tasks[s.cur].quantum
    && s'.ready == s.ready + [t] && s'.cur == s.cur && s'.ticks == s.ticks && s'.sems == s.sems
    && (forall u :: 0 <= u < NR_TASKS && u != t ==> s'.tasks[u] == s.tasks[u])
    && (forall u :: 0 <= u < NR_TASKS && s'.tasks[u].state != StInvalid && s'.tasks[u].pid == r ==> u == t)
  }

  /** -EAGAIN and no change iff every PCB is taken; otherwise the PID of the one task that is new. */
  ghost predicate SpawnAnswer(s: Sched, s': Sched, r: int)
    requires Shape(s) && Shape(s')
  {
    && (r == -EAGAIN <==> NobodyFree(s))
    && (r == -EAGAIN ==> s' == s)
    && (r != -EAGAIN ==> r > 0 && exists t: nat :: Child(s, s', r, t))
  }

  lemma SpawnAnswers(s: Sched)
    requires SInv(s) && s.lastPid > 0
    ensures SpawnAnswer(s, Spawn(s).0, Spawn(s).1)
  {
    hide BlockedQueues, Ownership, Marks, OnCpu;
    if s.freeq != [] {
      var t := s.freeq[0];
      var s' := Spawn(s).0;
      assert t in s.freeq;
      forall u: nat | u < NR_TASKS && s.tasks[u].state != StInvalid
        ensures s.tasks[u].pid < s.lastPid
      {
        PidBelow(s, u);
      }
      assert Child(s, s', Spawn(s).1, t);
    }
  }

  lemma SpawnAnswersIf(s: Sched)
    requires SInv(s)
    ensures s.lastPid > 0 ==> SpawnAnswer(s, Spawn(s).0, Spawn(s).1)
  {
    hide SInv, Spawn, SpawnAnswer;
    if s.lastPid > 0 {
      SpawnAnswers(s);
    }
  }

  // ---------------------------------------------------------------- semaphores

  /** The number of a semaphore in use. */
  predicate InUse(s: Sched, n: int)
    requires Shape(s)
  {
    0 <= n < NR_SEMAPHORES && s.sems[n].used
  }

  /** Nothing but semaphore `n` differs, and of the tasks only which semaphores they own. */
  ghost predicate OnlySem(s: Sched, s': Sched, n: int)
    requires Shape(s) && Shape(s') && 0 <= n < NR_SEMAPHORES
  {
    && s' == s.(sems := s.sems[n := s'.sems[n]], tasks := s'.tasks)
    && forall t :: 0 <= t < NR_TASKS ==> s'.tasks[t] == s.tasks[t].(sems := s'.tasks[t].sems)
  }

  ghost predicate InitAnswer(s: Sched, n: int, v: int, s': Sched, r: int)
    requires Shape(s) && Shape(s')
  {
    && (r == -EINVAL <==> !(0 <= n < NR_SEMAPHORES))
    && (r == -EBUSY <==> InUse(s, n))
    && (r == 0 <==> 0 <= n < NR_SEMAPHORES && !InUse(s, n))
    && (r != 0 ==> s' == s)
    && (r == 0 ==>
          && OnlySem(s, s', n) && s'.sems[n].used && s'.sems[n].owner == s.cur && s'.sems[n].blocked == []
          && (v - s'.sems[n].count) % TWO32 == 0
          && s'.tasks[s.cur].sems == [n as nat] + s.tasks[s.cur].sems
          && forall t :: 0 <= t < NR_TASKS && t != s.cur ==> s'.tasks[t] == s.tasks[t])
  }

  lemma InitAnswers(s: Sched, n: int, v: int)
    requires Shape(s) && 0 <= v < TWO32
    ensures InitAnswer(s, n, v, SemInit(s, n, v).0, SemInit(s, n, v).1)
  {
    assert Int32(v) == (v + TWO31) % TWO32 - TWO31;
  }

  /** None: the caller blocks, and its answer comes when it runs again. */
  ghost predicate WaitAnswer(s: Sched, n: int, s': Sched, r: Option<int>)
    requires Shape(s) && Shape(s')
  {
    && (r == Some(-EINVAL) <==> !InUse(s, n))
    && (r == Some(0) <==> InUse(s, n) && s.sems[n].count != 0)
    && (r == None <==> InUse(s, n) && s.sems[n].count == 0)
    && (r == Some(-EINVAL) ==> s' == s)
    && (r == Some(0) ==>
          && s' == s.(sems := s.sems[n := s.sems[n].(count := s'.sems[n].count)])
          && (s.sems[n].count - 1 - s'.sems[n].count) % TWO32 == 0)
    && (r == None ==>
          && s'.sems == s.sems[n := s.sems[n].(blocked := s.sems[n].blocked + [s.cur])]
          && s'.tasks[s.cur].state == StBlocked && s'.freeq == s.freeq
          && (if s.ready == [] then s'.cur == s.idle && s'.ready == [] else [s'.cur] + s'.ready == s.ready))
  }

  lemma WaitAnswers(s: Sched, n: int)
    requires SInv(s) && s.cur != s.idle
    ensures WaitAnswer(s, n, SemWait(s, n).0, SemWait(s, n).1)
  {
    assert s.cur !in s.ready by {
      hide BlockedQueues, Ownership, Pids, Marks;
    }
    hide Good;
    if InUse(s, n) && s.sems[n].count == 0 {
      assert s.ready != [] ==> s.ready[0] in s.ready && [s.ready[0]] + s.ready[1..] == s.ready;
    }
  }

  ghost predicate SignalAnswer(s: Sched, n: int, s': Sched, r: int)
    requires Shape(s) && Shape(s')
  {
    && (r == -EINVAL <==> !InUse(s, n))
    && (r == 0 <==> InUse(s, n))
    && (r == -EINVAL ==> s' == s)
    && (r == 0 && s.sems[n].blocked == [] ==>
          && s' == s.(sems := s.sems[n := s.sems[n].(count := s'.sems[n].count)])
          && (s.sems[n].count + 1 - s'.sems[n].count) % TWO32 == 0)
    && (r == 0 && s.sems[n].blocked != [] ==>
          var t := s.sems[n].blocked[0];
          && s' == s.(sems := s.sems[n := s.sems[n].(blocked := s.sems[n].blocked[1..])],
                      ready := s.ready + [t],
                      tasks := s.tasks[t := s.tasks[t].(state := StReady)]))
  }

  lemma SignalAnswers(s: Sched, n: int)
    requires Shape(s)
    ensures SignalAnswer(s, n, SemSignal(s, n).0, SemSignal(s, n).1)
  {
  }

  /** 0 to the owner, -1 to anybody else, -EINVAL without a semaphore; only the owner changes anything. */
  ghost predicate DestroyAnswer(s: Sched, n: int, s': Sched, r: int)
    requires Shape(s) && Shape(s')
  {
    && (r == 0 <==> InUse(s, n) && s.sems[n].owner == s.cur)
    && (r == -1 <==> InUse(s, n) && s.sems[n].owner != s.cur)
    && (r == -EINVAL <==> !InUse(s, n))
    && (r != 0 ==> s' == s)
    && (r == 0 ==>
          && Destroyed(s, s', n) && s'.ready == s.ready + s.sems[n].blocked && s'.sems[n].blocked == []
          && s'.cur == s.cur)
  }

  lemma DestroyAnswers(s: Sched, n: int, on: bool)
    requires Good(s, on) && Alive(s, on, s.cur)
    ensures DestroyAnswer(s, n, DestroyCall(s, n).0, DestroyCall(s, n).1)
  {
    if InUse(s, n) {
      MayDestroyIffOwner(s, n, on);
      DestroyExact(s, n);
      var b := s.sems[n].blocked;
      assert b[..|b|] == b && b[|b|..] == [];
    }
    hide Good, Destroy, MayDestroy;
  }

  lemma CurAlive(s: Sched)
    requires SInv(s)
    ensures Alive(s, true, s.cur)
  {
  }

  lemma SemDestroyAnswers(s: Sched, n: int)
    requires SInv(s)
    ensures DestroyAnswer(s, n, SemDestroy(s, n).0, SemDestroy(s, n).1)
  {
    CurAlive(s);
    DestroyAnswers(s, n, true);
    hide SInv, DestroyCall, DestroyAnswer;
  }

  // ---------------------------------------------------------------- sys_get_stats

  ghost predicate HasPid(s: Sched, t: nat, pid: int)
    requires Shape(s)
  {
    t < NR_TASKS && s.tasks[t].state != StInvalid && s.tasks[t].pid == pid
  }

  /** PIDs are never given twice; a PCB that has not been used yet still carries 0, which is idle's. */
  ghost predicate PidsApart(s: Sched)
    requires Shape(s)
  {
    && s.lastPid > 0
    && (forall t :: 0 <= t < NR_TASKS ==> 0 <= s.tasks[t].pid < s.lastPid)
    && (forall t, u :: 0 <= t < u < NR_TASKS && s.tasks[t].pid == s.tasks[u].pid ==>
          s.tasks[u].pid == 0 && s.tasks[u].state == StInvalid)
  }

  /** A call that brings the statistics of `t` up to date, unless `t` is running. */
  function Refreshing(s: Sched, t: nat): (evs: seq<Ev>)
    requires Shape(s) && t < NR_TASKS
  {
    if s.tasks[t].state == StRun then [Acct(s.cur, UserToSys), Acct(s.cur, SysToUser)]
    else [Acct(s.cur, UserToSys), Acct(t, Refresh(s.tasks[t].state)), Acct(s.cur, SysToUser)]
  }

  /**
   0 iff a live task has that PID. The statistics of a task that is not on the CPU are brought up to
   date, and nobody else's.
   */
  ghost predicate StatsAnswer(s: Sched, pid: int, r: int, evs: seq<Ev>)
    requires Shape(s)
  {
    && (r == 0 <==> exists t: nat :: HasPid(s, t, pid))
    && (r == -EINVAL <==> pid < 0)
    && (r == -ESRCH <==> pid >= 0 && forall t: nat :: !HasPid(s, t, pid))
    && (forall t: nat :: HasPid(s, t, pid) ==> evs == Refreshing(s, t))
    && ((forall t: nat :: !HasPid(s, t, pid)) ==> evs == [Acct(s.cur, UserToSys), Acct(s.cur, SysToUser)])
  }

  /** The search finds the live task with the PID, if there is one. */
  lemma FoundLive(s: Sched, pid: int)
    requires Shape(s) && PidsApart(s)
    ensures var i := FindPid(s, pid, 0);
      && (pid < 0 ==> i == NR_TASKS)
      && (if i < NR_TASKS && s.tasks[i].state != StInvalid
          then HasPid(s, i, pid) && forall t: nat :: HasPid(s, t, pid) ==> t == i
          else forall t: nat :: !HasPid(s, t, pid))
  {
    hide FindPid;
  }

  lemma StatsCases(s: Sched, pid: int)
    requires Shape(s)
    ensures var i, none := FindPid(s, pid, 0), [Acct(s.cur, UserToSys), Acct(s.cur, SysToUser)];
      GetStats(s, pid) ==
        if pid < 0 then (s, -EINVAL, none)
        else if i == NR_TASKS || s.tasks[i].state == StInvalid then (s, -ESRCH, none)
        else (s, 0, Refreshing(s, i))
  {
    hide FindPid;
    var i, a, z := FindPid(s, pid, 0), Acct(s.cur, UserToSys), Acct(s.cur, SysToUser);
    assert [a] + [] + [z] == [a, z];
    if i < NR_TASKS {
      var r := Acct(i, Refresh(s.tasks[i].state));
      assert [a] + [r] + [z] == [a, r, z];
    }
  }

  lemma StatsAnswers(s: Sched, pid: int)
    requires Shape(s) && PidsApart(s)
    ensures GetStats(s, pid).0 == s && StatsAnswer(s, pid, GetStats(s, pid).1, GetStats(s, pid).2)
  {
    FoundLive(s, pid);
    StatsCases(s, pid);
    hide PidsApart, FindPid, HasPid, GetStats, Refreshing;
  }

  // ---------------------------------------------------------------- PIDs and quantums over runs

  /** PIDs and quantums never change, except that a fork gives both to the first free PCB. */
  ghost predicate NamesKept(s: Sched, s': Sched, op: Op)
    requires Shape(s) && Shape(s')
  {
    forall u :: 0 <= u < NR_TASKS ==>
      if op == SysSpawn && s.freeq != [] && u == s.freeq[0]
      then s'.tasks[u].pid == s.lastPid && s'.tasks[u].quantum == s.tasks[s.cur].quantum
      else s'.tasks[u].pid == s.tasks[u].pid && s'.tasks[u].quantum == s.tasks[u].quantum
  }

  ghost predicate SamePids(s: Sched, s': Sched) {
    && |s'.tasks| == |s.tasks|
    && forall t :: 0 <= t < |s.tasks| ==> s'.tasks[t].pid == s.tasks[t].pid && s'.tasks[t].quantum == s.tasks[t].quantum
  }

  lemma RescheduleNames(s: Sched)
    requires Shape(s)
    ensures SamePids(s, Reschedule(s).0)
  {
  }

  lemma TickNames(s: Sched)
    requires Shape(s)
    ensures SamePids(s, Tick(s).0)
  {
    hide Reschedule;
    var s1 := RefreshTicks(s.(ticks := s.ticks + 1));
    RescheduleNames(Preempt(s1));
  }

  lemma ExitNames(s: Sched)
    requires SInv(s) && s.cur != s.idle
    ensures SamePids(s, Exit(s).0)
  {
    hide DestroyEach, Reschedule, Good, Dying, Exit;
    ExitGone(s);
    RescheduleNames(DestroyEach(Retire(s), s.tasks[s.cur].sems).0);
  }

  lemma DestroyNames(s: Sched, n: int)
    requires SInv(s)
    ensures SamePids(s, SemDestroy(s, n).0)
  {
    SemDestroyAnswers(s, n);
    hide SInv, SemDestroy;
    if InUse(s, n) {
      assert Woken(s, SemDestroy(s, n).0, n, |s.sems[n].blocked|) || SemDestroy(s, n).0 == s;
    }
  }

  lemma WaitNames(s: Sched, n: int)
    requires Shape(s)
    ensures SamePids(s, SemWait(s, n).0)
  {
    hide Reschedule;
    if !BadSem(n) {
      RescheduleNames(Block(s, n));
    }
  }

  lemma StepNames(s: Sched, op: Op)
    requires SInv(s) && Enabled(s, op)
    ensures NamesKept(s, Step(s, op).0, op)
  {
    hide SInv, Tick, Exit, SemDestroy, SemWait;
    match op
    case ClockTick => TickNames(s);
    case SysExit => ExitNames(s);
    case SysSemWait(n) => WaitNames(s, n);
    case SysSemDestroy(n) => DestroyNames(s, n);
    case _ =>
  }

  lemma StepPidsApart(s: Sched, op: Op)
    requires SInv(s) && Enabled(s, op) && PidsApart(s)
    ensures PidsApart(Step(s, op).0)
  {
    hide SInv, Step, Enabled;
    StepNames(s, op);
    StepPids(s, op);
    StepLink(s, op);
    forall t: nat | t < NR_TASKS
      ensures s.tasks[t].state == StInvalid <==> t in s.freeq
    {
      FreeIffInvalid(s, t);
    }
    SpawnFirst(s);
  }

  /** The free queue has no repetitions. */
  lemma SpawnFirst(s: Sched)
    requires SInv(s)
    ensures s.freeq != [] ==> s.freeq[0] < NR_TASKS && forall u :: u in s.freeq && u != s.freeq[0] ==> u in s.freeq[1..]
  {
    if s.freeq != [] {
      DistinctTail(s.freeq);
    }
  }

  /** What boot starts with and every run keeps: PIDs are apart, and every live task has the default quantum. */
  ghost predicate Named(s: Sched)
    requires Shape(s)
  {
    && PidsApart(s)
    && forall t :: 0 <= t < NR_TASKS && s.tasks[t].state != StInvalid ==> s.tasks[t].quantum == DEFAULT_QUANTUM
  }

  lemma StepNamed(s: Sched, op: Op)
    requires SInv(s) && Enabled(s, op) && Named(s)
    ensures Named(Step(s, op).0)
  {
    hide SInv, Step, Enabled, PidsApart;
    StepPidsApart(s, op);
    StepNames(s, op);
    StepLink(s, op);
    forall t: nat | t < NR_TASKS
      ensures s.tasks[t].state == StInvalid <==> t in s.freeq
    {
      FreeIffInvalid(s, t);
    }
    SpawnFirst(s);
    FreeIffInvalid(s, s.cur);
  }

  lemma {:induction false} RunNamed(s: Sched, ops: seq<Op>)
    requires SInv(s) && AllEnabled(s, ops) && Named(s)
    ensures Named(Run(s, ops).0)
    decreases |ops|
  {
    hide SInv, Step, Enabled, Named;
    if ops != [] {
      StepKeeps(s, ops[0]);
      StepNamed(s, ops[0]);
      RunNamed(Step(s, ops[0]).0, ops[1..]);
    }
  }

  lemma BootedNamed()
    ensures Named(Booted())
  {
  }

  /** In every state the kernel can reach: who may fork and what the fork returns. */
  lemma ReachableSpawn(ops: seq<Op>)
    requires AllEnabled(Booted(), ops)
    ensures var s := Run(Booted(), ops).0; SpawnAnswer(s, Spawn(s).0, Spawn(s).1)
  {
    BootedInv();
    BootedNamed();
    hide SInv, Run, AllEnabled, Booted, Spawn, SpawnAnswer;
    RunKeeps(Booted(), ops);
    RunNamed(Booted(), ops);
    SpawnAnswers(Run(Booted(), ops).0);
  }

  /** In every state the kernel can reach `sys_get_stats` finds exactly the live task with the PID. */
  lemma ReachableStats(ops: seq<Op>, pid: int)
    requires AllEnabled(Booted(), ops)
    ensures var s := Run(Booted(), ops).0;
      GetStats(s, pid).0 == s && StatsAnswer(s, pid, GetStats(s, pid).1, GetStats(s, pid).2)
  {
    BootedInv();
    BootedNamed();
    hide SInv, Run, AllEnabled, Booted, GetStats, StatsAnswer, PidsApart;
    RunKeeps(Booted(), ops);
    RunNamed(Booted(), ops);
    StatsAnswers(Run(Booted(), ops).0, pid);
  }

  // ---------------------------------------------------------------- units, counted from the calls

  /** The calls on a semaphore since it was created, whatever they did. */
  datatype Tally = Tally(init: int, signals: nat, waits: nat)

  function TallyNext(n: nat, k: Tally, s: Sched, op: Op): (r: Tally)
    requires Shape(s)
  {
    match op
    case SysSemInit(m, v) => if m == n && !InUse(s, n) then Tally(v, 0, 0) else k
    case SysSemSignal(m) => if m == n then k.(signals := k.signals + 1) else k
    case SysSemWait(m) => if m == n then k.(waits := k.waits + 1) else k
    case _ => k
  }

  function TallyFold(n: nat, k: Tally, s: Sched, ops: seq<Op>): (r: Tally)
    requires Shape(s) && AllEnabled(s, ops)
    decreases |ops|
  {
    if ops == [] then k else TallyFold(n, TallyNext(n, k, s, ops[0]), Step(s, ops[0]).0, ops[1..])
  }

  /** What was there plus what was signalled, less what was asked for: the count, or how many still wait. */
  ghost predicate Balanced(m: Sem, k: Tally) {
    m.used ==> m.count == Int32(k.init + k.signals - k.waits + |m.blocked|)
  }

  lemma OtherSems(s: Sched, op: Op, n: nat)
    requires SInv(s) && Enabled(s, op) && n < NR_SEMAPHORES
    requires !op.SysSemInit? && !op.SysSemSignal? && !op.SysSemWait?
    ensures Step(s, op).0.sems[n] == s.sems[n] || !Step(s, op).0.sems[n].used
  {
    hide Tick, Exit, SemDestroy, Good;
    match op
    case ClockTick => TickNeutral(s);
    case SysExit =>
      ExitGone(s);
      hide DestroyEach, Reschedule, AllGone, Dying;
      var s1, ns := Retire(s), s.tasks[s.cur].sems;
      GoneSems(s1, ns, DestroyEach(s1, ns).0, DestroyEach(s1, ns).1);
      RescheduleNeutral(DestroyEach(s1, ns).0);
    case SysSemDestroy(m) => SemDestroyAnswers(s, m);
    case _ =>
  }

  lemma SignalBalance(s: Sched, j: int, n: nat, k: Tally)
    requires SInv(s) && n < NR_SEMAPHORES && Balanced(s.sems[n], k)
    ensures Balanced(SemSignal(s, j).0.sems[n], TallyNext(n, k, s, SysSemSignal(j)))
  {
    hide Good, Int32;
    Int32Step(k.init + k.signals - k.waits + |s.sems[n].blocked|, 1);
  }

  lemma WaitBalance(s: Sched, j: int, n: nat, k: Tally)
    requires SInv(s) && n < NR_SEMAPHORES && Balanced(s.sems[n], k)
    ensures Balanced(SemWait(s, j).0.sems[n], TallyNext(n, k, s, SysSemWait(j)))
  {
    hide Good, Reschedule, Int32;
    Int32Step(k.init + k.signals - k.waits + |s.sems[n].blocked|, -1);
    if InUse(s, j) {
      RescheduleNeutral(Block(s, j));
      assert SemOk(s, true, j) by {
        SemsOk(s, j);
      }
    }
  }

  lemma SemsOk(s: Sched, j: nat)
    requires SInv(s) && j < NR_SEMAPHORES
    ensures SemOk(s, true, j)
  {
  }

  lemma StepBalance(s: Sched, op: Op, n: nat, k: Tally)
    requires SInv(s) && Enabled(s, op) && n < NR_SEMAPHORES && Balanced(s.sems[n], k)
    ensures Balanced(Step(s, op).0.sems[n], TallyNext(n, k, s, op))
  {
    hide SInv, Tick, Exit, SemDestroy, SemWait, SemSignal, Int32;
    match op
    case SysSemInit(j, v) =>
    case SysSemSignal(j) => SignalBalance(s, j, n, k);
    case SysSemWait(j) => WaitBalance(s, j, n, k);
    case _ => OtherSems(s, op, n);
  }

  lemma {:induction false} RunBalance(s: Sched, ops: seq<Op>, n: nat, k: Tally)
    requires SInv(s) && AllEnabled(s, ops) && n < NR_SEMAPHORES && Balanced(s.sems[n], k)
    ensures Balanced(Run(s, ops).0.sems[n], TallyFold(n, k, s, ops))
    decreases |ops|
  {
    hide SInv, Step, Enabled, Balanced, TallyNext;
    if ops != [] {
      StepKeeps(s, ops[0]);
      StepBalance(s, ops[0], n, k);
      RunBalance(Step(s, ops[0]).0, ops[1..], n, TallyNext(n, k, s, ops[0]));
    }
  }

  /** The balance, read off: the count while nobody waits, else the number of tasks that do. */
  ghost predicate BalanceShows(m: Sem, t: Tally) {
    m.used ==>
      && (m.blocked == [] ==> m.count == Int32(t.init + t.signals - t.waits))
      && (m.blocked != [] ==> m.count == 0 && (|m.blocked| + t.init + t.signals - t.waits) % TWO32 == 0)
  }

  lemma BalanceMeans(m: Sem, t: Tally)
    requires Balanced(m, t) && (m.blocked != [] ==> m.count == 0)
    ensures BalanceShows(m, t)
  {
  }

  /**
   Over every run from boot, from the calls alone: a semaphore in use holds its initial value plus one for
   each signal less one for each wait, as long as that is positive, and otherwise that many tasks wait.
   */
  lemma ReachableBalance(ops: seq<Op>, n: nat, k: Tally)
    requires AllEnabled(Booted(), ops) && n < NR_SEMAPHORES
    ensures BalanceShows(Run(Booted(), ops).0.sems[n], TallyFold(n, k, Booted(), ops))
  {
    BootedBalanced(n, k);
    BootedInv();
    hide SInv, Run, AllEnabled, Booted, TallyFold, Initial, Balanced, BalanceShows;
    RunKeeps(Booted(), ops);
    RunBalance(Booted(), ops, n, k);
    WaitedMeansZero(Run(Booted(), ops).0, n);
    BalanceMeans(Run(Booted(), ops).0.sems[n], TallyFold(n, k, Booted(), ops));
  }

  lemma BootedBalanced(n: nat, k: Tally)
    requires n < NR_SEMAPHORES
    ensures Balanced(Booted().sems[n], k)
  {
  }
}
