/**
 The scheduler along runs that hand the CPU over with one semaphore: task 1 creates semaphore 0 with
 count 0, whoever waits on it blocks, and the first ready task runs.
 */
module Schedule {
  import opened Basics
  import opened Sched
  import opened SchedInvariant
  import opened SchedSteps
  import opened SchedBoot

  /**
   Task `cur` runs, the next PCBs to be given out are `free`, the ready queue is `ready`, the tasks in
   `waiting` wait on semaphore 0, and only task 1 owns semaphores.
   */
  ghost predicate Where(s: Sched, cur: nat, free: seq<nat>, ready: seq<nat>, waiting: seq<nat>) {
    && SInv(s) && s.idle == 0 && s.cur == cur && free <= s.freeq && s.ready == ready
    && s.sems[0].used && s.sems[0].count == 0 && s.sems[0].blocked == waiting
    && forall t :: 0 <= t < NR_TASKS && t != 1 ==> s.tasks[t].sems == []
  }

  lemma InitWhere()
    ensures SInv(Booted()) && Booted().cur == 1 && Booted().idle == 0
    ensures Where(Step(Booted(), SysSemInit(0, 0)).0, 1, [2, 3, 4], [], [])
  {
    BootedInv();
    StepKeeps(Booted(), SysSemInit(0, 0));
    hide SInv;
    assert [2, 3, 4] <= Booted().freeq;
  }

  lemma SpawnWhere(s: Sched, cur: nat, free: seq<nat>, ready: seq<nat>, waiting: seq<nat>)
    requires Where(s, cur, free, ready, waiting) && cur != 0 && free != []
    ensures Where(Step(s, SysSpawn).0, cur, free[1..], ready + [free[0]], waiting) && s.freeq[0] == free[0]
  {
    StepKeeps(s, SysSpawn);
    hide SInv;
  }

  lemma SignalWhere(s: Sched, cur: nat, free: seq<nat>, ready: seq<nat>, waiting: seq<nat>)
    requires Where(s, cur, free, ready, waiting) && cur != 0 && waiting != []
    ensures Where(Step(s, SysSemSignal(0)).0, cur, free, ready + [waiting[0]], waiting[1..])
  {
    StepKeeps(s, SysSemSignal(0));
    hide SInv;
  }

  lemma WaitWhere(s: Sched, cur: nat, free: seq<nat>, ready: seq<nat>, waiting: seq<nat>)
    requires Where(s, cur, free, ready, waiting) && cur != 0 && ready != []
    ensures Where(Step(s, SysSemWait(0)).0, ready[0], free, ready[1..], waiting + [cur])
  {
    StepKeeps(s, SysSemWait(0));
    hide SInv, Reschedule;
    var m := s.sems[0].(blocked := s.sems[0].blocked + [s.cur]);
    RescheduleShape(SetTask(s.(sems := s.sems[0 := m]), s.cur, s.tasks[s.cur].(state := StBlocked, cont := InWait(0))));
  }

  /** A task without semaphores exits: the first ready task runs. */
  lemma ExitNext(s: Sched)
    requires SInv(s) && s.cur != s.idle && s.tasks[s.cur].sems == [] && s.ready != []
    ensures var s' := Step(s, SysExit).0;
      && s'.cur == s.ready[0] && s'.idle == s.idle && s'.freeq == s.freeq + [s.cur] && s'.ready == s.ready[1..]
      && s'.sems == s.sems && forall t :: 0 <= t < NR_TASKS ==> s'.tasks[t].sems == s.tasks[t].sems
  {
    hide SInv, Reschedule;
    var s1 := SetTask(s.(freeq := s.freeq + [s.cur]), s.cur, s.tasks[s.cur].(state := StInvalid));
    assert SetTask(s1, s1.cur, s1.tasks[s1.cur].(sems := [])) == s1;
    RescheduleShape(s1);
  }

  lemma ExitWhere(s: Sched, cur: nat, free: seq<nat>, ready: seq<nat>, waiting: seq<nat>)
    requires Where(s, cur, free, ready, waiting) && cur != 0 && cur != 1 && ready != []
    ensures Where(Step(s, SysExit).0, ready[0], free, ready[1..], waiting)
  {
    StepKeeps(s, SysExit);
    hide SInv, Step;
    ExitNext(s);
  }
}
