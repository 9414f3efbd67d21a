/**
 The step functions of `Sched` taken apart into the moves and record writes that the source makes,
 in the order in which it makes them.
 */
module KernelParts {
  import opened Basics
  import opened Sched
  import opened SchedInvariant
  import opened SchedSteps
  import opened KList
  import opened Layout

  /** `update_stats` as far as the remaining ticks are concerned. */
  function Accounted(s: Sched, t: nat, e: Event): (r: Sched)
    requires Sized(s) && t < NR_TASKS
    ensures Sized(r)
    ensures e != CurrentTicksUpdated && e != FreeToReady && e != SysToReady ==> r == s
  {
    match e
    case CurrentTicksUpdated => SetTask(s, t, s.tasks[t].(remaining := NonNegative(s.tasks[t].quantum - s.ticks)))
    case FreeToReady => SetTask(s, t, s.tasks[t].(remaining := s.tasks[t].quantum))
    case SysToReady => SetTask(s, t, s.tasks[t].(remaining := s.tasks[t].quantum))
    case _ => s
  }

  lemma ReadyFirst(s: Sched)
    requires Shape(s)
    ensures s.ready != [] ==> At(s, s.ready[0], On(ReadyList)) && Next(s) == s.ready[0]
    ensures s.ready == [] ==> Next(s) == s.idle
    ensures Queue(s, ReadyList) == s.ready
  {
  }

  /** A dispatch of `t`, in the order of the source. */
  function Dispatched(s: Sched, t: nat, from: Spot): (r: Sched)
    requires Sized(s) && t < NR_TASKS && SpotOk(from) && (from.On? ==> Queue(s, from.p) != [])
    ensures Sized(r)
  {
    var s1 := Accounted(Transfer(s, t, from, Off), t, ReadyToSys);
    Accounted(s1.(ticks := 0), t, CurrentTicksUpdated).(cur := t)
  }

  lemma RescheduleParts(s: Sched)
    requires Shape(s)
    ensures var t := Next(s);
      var s1 := Dispatched(s, t, if s.ready == [] then Off else On(ReadyList));
      && Shape(s1) && Reschedule(s).0 == Unwind(s1).0
      && Reschedule(s).1 == [Dispatch(t), Acct(t, ReadyToSys), Acct(t, CurrentTicksUpdated)] + Unwind(s1).1
  {
    var t := Next(s);
    var s1 := s.(ready := if s.ready != [] then s.ready[1..] else [],
                 tasks := s.tasks[t := s.tasks[t].(state := StRun)], cur := t, ticks := 0);
    assert s.ready == [] ==> s1.ready == s.ready;
    hide Unwind;
  }

  lemma SetSame(s: Sched, p: Place)
    requires Sized(s) && PlaceOk(p)
    ensures SetQueue(s, p, Queue(s, p)) == s
  {
  }

  /** Between any two moves the idle task is on no queue and the next task is a live one. */
  lemma GoodNext(s: Sched, on: bool)
    requires Good(s, on)
    ensures At(s, s.idle, Off) && s.tasks[Next(s)].state != StInvalid
  {
    hide Ownership, Pids, Marks;
    forall n | 0 <= n < NR_SEMAPHORES
      ensures s.idle !in s.sems[n].blocked
    {
      assert BlockedOn(s, n);
    }
  }

  /** A running task is on no queue. */
  lemma RunningOff(s: Sched, on: bool)
    requires Good(s, on) && s.tasks[s.cur].state == StRun
    ensures At(s, s.cur, Off)
  {
    hide Ownership, Pids, Marks;
    forall n | 0 <= n < NR_SEMAPHORES
      ensures s.cur !in s.sems[n].blocked
    {
      assert BlockedOn(s, n);
    }
  }

  lemma CurrentRuns(s: Sched)
    requires SInv(s)
    ensures s.tasks[s.cur].state == StRun && At(s, s.cur, Off)
  {
    RunningOff(s, true);
  }

  // ---------------------------------------------------------------- clock

  function Aged(s: Sched): (r: Sched)
    requires Sized(s) && s.cur < NR_TASKS
    ensures Sized(r) && r.cur == s.cur
  {
    Accounted(s.(ticks := s.ticks + 1), s.cur, CurrentTicksUpdated)
  }

  function Preempting(s: Sched): (r: Sched)
    requires Sized(s) && s.cur < NR_TASKS
    ensures Sized(r) && r.cur == s.cur
  {
    var s1 := if s.cur != s.idle then Transfer(s, s.cur, Off, On(ReadyList)) else s;
    var s2 := Accounted(s1, s.cur, SysToReady);
    SetTask(s2, s.cur, s2.tasks[s.cur].(cont := Preempted))
  }

  lemma AgedIs(s: Sched)
    requires SInv(s)
    ensures SInv(Aged(s)) && Aged(s) == RefreshTicks(s.(ticks := s.ticks + 1))
  {
    AgedKeeps(s);
    hide Good;
  }

  lemma PreemptingKeeps(s: Sched)
    requires SInv(s)
    ensures Preempting(s) == Preempt(s) && Good(Preempting(s), false)
  {
    PreemptKeeps(s);
    hide Good;
  }

  lemma TickParts(s: Sched)
    requires SInv(s)
    ensures SInv(Aged(s))
    ensures !NeedsSched(Aged(s)) ==>
      Tick(s) == (Aged(s), [Acct(s.cur, UserToSys), Acct(s.cur, CurrentTicksUpdated)] + [Acct(s.cur, SysToUser)])
    ensures NeedsSched(Aged(s)) ==>
      && Good(Preempting(Aged(s)), false)
      && Tick(s).0 == Reschedule(Preempting(Aged(s))).0
      && Tick(s).1 == [Acct(s.cur, UserToSys), Acct(s.cur, CurrentTicksUpdated)] + [Acct(s.cur, SysToReady)] +
        Reschedule(Preempting(Aged(s))).1
  {
    AgedIs(s);
    TickUnfold(s);
    hide Tick, Reschedule, Good, Shape, Aged, Preempting, RefreshTicks, NeedsSched, Preempt;
    PreemptingKeeps(Aged(s));
  }

  /** `execute_scheduling`: whether it switches, the new state and the events. */
  ghost function Executed(s: Sched): (r: (bool, Sched, seq<Ev>))
    requires SInv(s)
  {
    TickParts(s);
    var evs := [Acct(s.cur, CurrentTicksUpdated)];
    if !NeedsSched(Aged(s)) then (false, Aged(s), evs)
    else
      var (s1, evs') := Reschedule(Preempting(Aged(s)));
      (true, s1, evs + [Acct(s.cur, SysToReady)] + evs')
  }

  lemma ExecutedTick(s: Sched)
    requires SInv(s)
    ensures var (switched, s1, evs) := Executed(s);
      && (!switched ==> s1.cur == s.cur)
      && Tick(s).0 == s1
      && Tick(s).1 == [Acct(s.cur, UserToSys)] + evs + if switched then [] else [Acct(s.cur, SysToUser)]
  {
    TickParts(s);
    hide Aged, Preempting, Good, NeedsSched, Reschedule, Tick, Shape;
    var u, c := Acct(s.cur, UserToSys), Acct(s.cur, CurrentTicksUpdated);
    if NeedsSched(Aged(s)) {
      Regroup(u, c, [Acct(s.cur, SysToReady)], Reschedule(Preempting(Aged(s))).1);
    } else {
      Regroup(u, c, [], [Acct(s.cur, SysToUser)]);
    }
  }

  lemma Regroup(a: Ev, b: Ev, p: seq<Ev>, q: seq<Ev>)
    ensures [a, b] + p + q == [a] + ([b] + p + q) && [a, b] + q == [a] + [b] + q
    ensures [a] + ([b] + p + q) + [] == [a] + ([b] + p + q)
  {
  }

  // ---------------------------------------------------------------- fork and clone

  /** `allocate_process`: the first free task gets a PID and fresh fields. */
  function Allocated(s: Sched, cont: Cont): (r: Sched)
    requires Shape(s) && s.freeq != []
    ensures Sized(r)
  {
    var t := s.freeq[0];
    SetTask(SetQueue(s, FreeList, s.freeq[1..]).(lastPid := s.lastPid + 1), t,
            Task(s.lastPid, s.tasks[t].state, DEFAULT_QUANTUM, 0, false, s.tasks[t].sems, cont))
  }

  /** What `sys_fork` and `sys_clone` add: the inherited quantum and the ready queue. */
  function Admitted(s: Sched, t: nat): (r: Sched)
    requires Sized(s) && t < NR_TASKS && s.cur < NR_TASKS
    ensures Sized(r)
  {
    var s1 := SetTask(s, t, s.tasks[t].(quantum := s.tasks[s.cur].quantum));
    Accounted(Transfer(s1, t, Off, On(ReadyList)), t, FreeToReady)
  }

  lemma SetFree(s: Sched)
    requires Shape(s) && s.freeq != []
    ensures SetQueue(s, FreeList, s.freeq[1..]) == s.(freeq := s.freeq[1..])
  {
  }

  lemma FreeOff(s: Sched)
    requires SInv(s) && s.freeq != []
    ensures s.freeq[0] != s.cur && s.tasks[s.freeq[0]].sems == []
    ensures At(Allocated(s, Fresh), s.freeq[0], Off)
  {
    var t := s.freeq[0];
    assert t in s.freeq;
    DistinctTail(s.freeq);
    FreeOwnsNothing(s, t);
    forall n | 0 <= n < NR_SEMAPHORES
      ensures t !in s.sems[n].blocked
    {
      assert BlockedOn(s, n);
    }
  }

  lemma SpawnParts(s: Sched)
    requires SInv(s)
    ensures s.freeq == [] ==> Spawn(s) == (s, -EAGAIN, [Acct(s.cur, UserToSys), Acct(s.cur, SysToUser)])
    ensures s.freeq != [] ==> var t := s.freeq[0];
      Spawn(s) == (Admitted(Allocated(s, Fresh), t), s.lastPid,
        [Acct(s.cur, UserToSys), Acct(t, FreeToReady), Acct(s.cur, SysToUser)])
  {
    hide Good;
    if s.freeq == [] {
      return;
    }
    FreeOff(s);
    hide At;
    assert Spawn(s).0.tasks == Admitted(Allocated(s, Fresh), s.freeq[0]).tasks;
  }

  // ---------------------------------------------------------------- semaphores

  lemma UnusedUnowned(s: Sched, n: nat)
    requires SInv(s) && n < NR_SEMAPHORES && !s.sems[n].used
    ensures s.sems[n].blocked == [] && forall t :: 0 <= t < NR_TASKS ==> n !in s.tasks[t].sems
  {
    assert SemOk(s, true, n);
    forall t | 0 <= t < NR_TASKS
      ensures n !in s.tasks[t].sems
    {
      assert OwnOk(s, t);
    }
  }

  lemma BlockParts(s: Sched, n: nat)
    requires SInv(s) && s.cur != s.idle && n < NR_SEMAPHORES && s.sems[n].used && s.sems[n].count == 0
    ensures var s1 := Transfer(s, s.cur, Off, On(BlockedList(n)));
      var s2 := SetTask(s1, s.cur, s1.tasks[s.cur].(cont := InWait(n)));
      s2 == Block(s, n) && Good(s2, false)
  {
    BlockQueues(s, n);
    BlockSems(s, n);
    hide FreeQueue, ReadyQueue, BlockedQueues, OnCpu, Ownership, Pids, Marks;
    GoodFrom(Block(s, n), false);
  }

  lemma WakeParts(s: Sched, n: nat)
    requires Shape(s) && n < NR_SEMAPHORES && s.sems[n].blocked != []
    ensures var t := s.sems[n].blocked[0];
      var s1 := Transfer(s, t, On(BlockedList(n)), On(ReadyList));
      && s1 == MakeReady(s.(sems := s.sems[n := s.sems[n].(blocked := s.sems[n].blocked[1..])]), t)
      && WakeFirst(s, n).0 == SetTask(s1, t, s1.tasks[t].(semDeleted := true))
      && At(s, t, On(BlockedList(n)))
  {
  }

  lemma WaiterLive(s: Sched, n: nat)
    requires SInv(s) && n < NR_SEMAPHORES && s.sems[n].blocked != []
    ensures s.tasks[s.sems[n].blocked[0]].state != StInvalid
  {
    assert BlockedOn(s, n);
    assert s.sems[n].blocked[0] in s.sems[n].blocked;
  }

  lemma WaitCases(s: Sched, n: int)
    requires Shape(s)
    ensures BadSem(n) || !s.sems[n].used ==>
      SemWait(s, n) == (s, Some(-EINVAL), [Acct(s.cur, UserToSys)] + [Acct(s.cur, SysToUser)])
    ensures !BadSem(n) && s.sems[n].used && s.sems[n].count != 0 ==>
      SemWait(s, n) == (s.(sems := s.sems[n := s.sems[n].(count := Int32(s.sems[n].count - 1))]), Some(0),
                        [Acct(s.cur, UserToSys)] + [Grant(s.cur, n)] + [Acct(s.cur, SysToUser)])
    ensures !BadSem(n) && s.sems[n].used && s.sems[n].count == 0 ==>
      var (s1, evs) := Reschedule(Block(s, n));
      SemWait(s, n) == (s1, None, [Acct(s.cur, UserToSys)] + [Park(s.cur, n), Acct(s.cur, SysToBlocked)] + evs)
  {
    hide Reschedule;
    assert [Acct(s.cur, UserToSys)] + [] == [Acct(s.cur, UserToSys)];
    if !BadSem(n) {
      assert [Acct(s.cur, UserToSys)] + [Park(s.cur, n), Acct(s.cur, SysToBlocked)]
          == [Acct(s.cur, UserToSys), Park(s.cur, n), Acct(s.cur, SysToBlocked)];
    }
  }

  lemma InitCases(s: Sched, n: int, v: int)
    requires Shape(s) && 0 <= v < 0x1_0000_0000
    ensures BadSem(n) ==> SemInit(s, n, v) == Quiet(s, -EINVAL, [])
    ensures !BadSem(n) && s.sems[n].used ==> SemInit(s, n, v) == Quiet(s, -EBUSY, [])
    ensures !BadSem(n) && !s.sems[n].used && s.sems[n].blocked == [] ==>
      var s1 := s.(sems := s.sems[n := AsSem(SemRec(true, Int32(v), s.cur), s.sems[n].blocked)]);
      SemInit(s, n, v) == Quiet(SetQueue(s1, OwnList(s.cur), [n as nat] + Queue(s, OwnList(s.cur))), 0,
        [Create(n, Int32(v))])
  {
  }

  lemma SignalCases(s: Sched, n: int)
    requires Shape(s)
    ensures BadSem(n) || !s.sems[n].used ==> SemSignal(s, n) == Quiet(s, -EINVAL, [])
    ensures !BadSem(n) && s.sems[n].used && s.sems[n].blocked == [] ==>
      SemSignal(s, n) == Quiet(s.(sems := s.sems[n := s.sems[n].(count := Int32(s.sems[n].count + 1))]), 0, [Post(n)])
    ensures !BadSem(n) && s.sems[n].used && s.sems[n].blocked != [] ==>
      var t := s.sems[n].blocked[0];
      && At(s, t, On(BlockedList(n)))
      && SemSignal(s, n) == Quiet(Transfer(s, t, On(BlockedList(n)), On(ReadyList)), 0,
        [Handoff(t, n)] + [Acct(t, BlockedToReady)])
  {
    if !BadSem(n) && s.sems[n].used && s.sems[n].blocked != [] {
      WakeParts(s, n);
      var t := s.sems[n].blocked[0];
      assert [Handoff(t, n)] + [Acct(t, BlockedToReady)] == [Handoff(t, n), Acct(t, BlockedToReady)];
    }
  }

  lemma WakeMoves(s: Sched, n: nat)
    requires Shape(s) && n < NR_SEMAPHORES && s.sems[n].blocked != []
    ensures var t := s.sems[n].blocked[0];
      var s1 := Transfer(s, t, On(BlockedList(n)), On(ReadyList));
      && WakeFirst(s, n).0 == SetTask(s1, t, s1.tasks[t].(semDeleted := true))
      && WakeFirst(s, n).1 == [Acct(t, BlockedToReady)] + [Abort(t, n)]
      && At(s, t, On(BlockedList(n)))
  {
    WakeParts(s, n);
  }

  /** `s` is on the way from `s0` to the end of the loop, with the events `done` behind it. */
  ghost predicate WakeProgress(s0: Sched, s: Sched, n: nat, done: seq<Ev>)
    requires Shape(s0) && Shape(s) && n < NR_SEMAPHORES
  {
    WakeAll(s, n).0 == WakeAll(s0, n).0 && done + WakeAll(s, n).1 == WakeAll(s0, n).1
  }

  lemma WakeTail(s: Sched, n: nat)
    requires Shape(s) && n < NR_SEMAPHORES && s.sems[n].blocked != []
    ensures WakeFirst(s, n).0.sems[n].blocked == s.sems[n].blocked[1..]
  {
  }

  lemma WakeStart(s0: Sched, n: nat)
    requires Shape(s0) && n < NR_SEMAPHORES
    ensures WakeProgress(s0, s0, n, [])
  {
    hide WakeAll;
    assert [] + WakeAll(s0, n).1 == WakeAll(s0, n).1;
  }

  lemma WakeRound(s0: Sched, s: Sched, n: nat, done: seq<Ev>)
    requires Shape(s0) && Shape(s) && n < NR_SEMAPHORES && WakeProgress(s0, s, n, done) && s.sems[n].blocked != []
    ensures var (s1, evs) := WakeFirst(s, n);
      && WakeProgress(s0, s1, n, done + evs)
      && s1.sems[n].blocked == s.sems[n].blocked[1..]
  {
    WakeTail(s, n);
    var (s1, evs) := WakeFirst(s, n);
    hide Shape, WakeFirst;
    assert done + (evs + WakeAll(s1, n).1) == done + evs + WakeAll(s1, n).1;
  }

  lemma WakeEnd(s0: Sched, s: Sched, n: nat, done: seq<Ev>)
    requires Shape(s0) && Shape(s) && n < NR_SEMAPHORES && WakeProgress(s0, s, n, done) && s.sems[n].blocked == []
    ensures s == WakeAll(s0, n).0 && done == WakeAll(s0, n).1
  {
  }

  /** What `sys_sem_destroy` relies on. */
  ghost predicate DestroyReady(s: Sched, n: nat)
    requires Shape(s) && n < NR_SEMAPHORES
  {
    s.sems[n].used ==>
      && s.sems[n].owner < NR_TASKS
      && (MayDestroy(s, n) ==> s.sems[n].owner == s.cur && n in s.tasks[s.cur].sems && Distinct(s.tasks[s.cur].sems))
      && (forall i :: 0 <= i < |s.sems[n].blocked| ==> s.tasks[s.sems[n].blocked[i]].state != StInvalid)
  }

  lemma GoodDestroyReady(s: Sched, n: nat, on: bool)
    requires Good(s, on) && Alive(s, on, s.cur) && n < NR_SEMAPHORES
    ensures DestroyReady(s, n)
  {
    if s.sems[n].used {
      assert SemOk(s, on, n) && BlockedOn(s, n) && OwnOk(s, s.cur);
      MayDestroyIffOwner(s, n, on);
    }
  }

  lemma InvDestroyReady(s: Sched, n: int)
    requires SInv(s)
    ensures !BadSem(n) ==> DestroyReady(s, n)
  {
    if !BadSem(n) {
      GoodDestroyReady(s, n, true);
    }
  }

  lemma {:induction false} WithoutAt(q: seq<nat>, x: nat) returns (k: nat)
    requires x in q
    ensures k < |q| && q[k] == x && Without(q, x) == q[..k] + q[k + 1..]
  {
    if q[0] == x {
      k := 0;
    } else {
      var j := WithoutAt(q[1..], x);
      k := j + 1;
      assert [q[0]] + q[1..][..j] == q[..k];
      assert q[1..][j + 1..] == q[k + 1..];
    }
  }

  function Closed(s: Sched, n: nat): (r: Sched)
    requires Shape(s) && n < NR_SEMAPHORES
    ensures Sized(r) && r.sems[n].blocked == s.sems[n].blocked && r.cur == s.cur
  {
    var s1 := s.(sems := s.sems[n := s.sems[n].(used := false)]);
    SetQueue(s1, OwnList(s.cur), Without(s.tasks[s.cur].sems, n))
  }

  lemma DestroyParts(s: Sched, n: nat)
    requires Shape(s) && n < NR_SEMAPHORES
    ensures Shape(Closed(s, n)) && Destroy(s, n) == WakeAll(Closed(s, n), n)
  {
    hide WakeAll, Without;
    var k := s.tasks[s.cur].sems;
    assert forall i :: 0 <= i < |Without(k, n)| ==> Without(k, n)[i] in k;
  }

  // ---------------------------------------------------------------- exit

  lemma RetireParts(s: Sched)
    requires SInv(s) && s.cur != s.idle
    ensures Transfer(s, s.cur, Off, On(FreeList)) == Retire(s) && Dying(Retire(s), s.tasks[s.cur].sems)
  {
    RetireQueues(s);
    RetireSems(s);
    hide FreeQueue, ReadyQueue, BlockedQueues, OnCpu, Ownership, Pids, Marks;
    GoodFrom(Retire(s), false);
  }

  lemma ExitParts(s: Sched)
    requires SInv(s) && s.cur != s.idle
    ensures var (s2, evs) := DestroyEach(Retire(s), s.tasks[s.cur].sems);
      && Dying(s2, [])
      && Exit(s).0 == Reschedule(s2).0
      && Exit(s).1 == [Acct(s.cur, UserToSys)] + evs + Reschedule(s2).1
  {
    RetireParts(s);
    hide Good, DestroyEach, Reschedule, Shape;
    DestroyEachExact(Retire(s), s.tasks[s.cur].sems);
    var s2 := DestroyEach(Retire(s), s.tasks[s.cur].sems).0;
    assert SetTask(s2, s2.cur, s2.tasks[s2.cur].(sems := [])) == s2;
  }

  lemma DyingReady(s: Sched, n: nat)
    requires Shape(s) && Dying(s, s.tasks[s.cur].sems) && n < NR_SEMAPHORES
    ensures DestroyReady(s, n)
  {
    hide Good;
    GoodDestroyReady(s, n, false);
  }

  ghost predicate EachProgress(s0: Sched, ns: seq<nat>, s: Sched, rest: seq<nat>, done: seq<Ev>)
    requires Shape(s0) && Shape(s)
  {
    DestroyEach(s, rest).0 == DestroyEach(s0, ns).0 && done + DestroyEach(s, rest).1 == DestroyEach(s0, ns).1
  }

  lemma EachStart(s0: Sched, ns: seq<nat>)
    requires Shape(s0)
    ensures EachProgress(s0, ns, s0, ns, [])
  {
    hide DestroyEach;
    assert [] + DestroyEach(s0, ns).1 == DestroyEach(s0, ns).1;
  }

  lemma EachRound(s0: Sched, ns: seq<nat>, s: Sched, rest: seq<nat>, done: seq<Ev>)
    requires Shape(s0) && Shape(s) && Dying(s, rest) && EachProgress(s0, ns, s, rest, done)
    ensures rest != [] ==>
      && rest[0] < NR_SEMAPHORES
      && EachProgress(s0, ns, Destroy(s, rest[0]).0, rest[1..], done + Destroy(s, rest[0]).1)
  {
    if rest != [] {
      DyingRound(s, rest);
      hide Destroy, Good, Shape, MayDestroy;
      var (s1, evs) := Destroy(s, rest[0]);
      assert DestroyEach(s, rest) == (DestroyEach(s1, rest[1..]).0, evs + DestroyEach(s1, rest[1..]).1);
      assert done + (evs + DestroyEach(s1, rest[1..]).1) == done + evs + DestroyEach(s1, rest[1..]).1;
    }
  }

  lemma EachEnd(s0: Sched, ns: seq<nat>, s: Sched, done: seq<Ev>)
    requires Shape(s0) && Shape(s) && EachProgress(s0, ns, s, [], done)
    ensures s == DestroyEach(s0, ns).0 && done == DestroyEach(s0, ns).1
  {
  }
}
