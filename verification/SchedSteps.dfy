/**
 Every kernel entry keeps the invariant of module `SchedInvariant`.
 */
module SchedSteps {
  import opened Basics
  import opened Sched
  import opened SchedInvariant

  /** One task changes, none starts or stops waiting, and the semaphores stay as they are. */
  lemma OneTaskChanges(s: Sched, s': Sched, x: nat, on: bool)
    requires Shape(s) && Shape(s') && BlockedQueues(s) && Ownership(s, true) && x < NR_TASKS
    requires s'.sems == s.sems && s'.idle == s.idle && s'.tasks == s.tasks[x := s'.tasks[x]]
    requires s.tasks[x].state != StBlocked && s'.tasks[x].state != StBlocked && s'.tasks[x].state != StInvalid
    requires s'.tasks[x].sems == s.tasks[x].sems
    ensures BlockedQueues(s') && Ownership(s', on)
  {
    forall i | 0 <= i < NR_SEMAPHORES
      ensures BlockedOn(s', i) && SemOk(s', on, i)
    {
      assert BlockedOn(s, i) && SemOk(s, true, i);
    }
    forall t | 0 <= t < NR_TASKS
      ensures OwnOk(s', t) && (s'.tasks[t].state == StBlocked ==> WaitsSomewhere(s', t))
    {
      assert OwnOk(s, t);
      if s'.tasks[t].state == StBlocked {
        assert WaitsSomewhere(s, t);
      }
    }
  }

  lemma OwnerAlive(s: Sched, t: nat, n: nat)
    requires Shape(s) && Ownership(s, true) && t < NR_TASKS && n in s.tasks[t].sems
    ensures s.tasks[t].state != StInvalid
  {
    assert OwnOk(s, t);
    assert SemOk(s, true, n);
  }

  lemma FreeOwnsNothing(s: Sched, t: nat)
    requires Shape(s) && Ownership(s, true) && t < NR_TASKS && s.tasks[t].state == StInvalid
    ensures s.tasks[t].sems == []
  {
    hide Ownership;
    if s.tasks[t].sems != [] {
      OwnerAlive(s, t, s.tasks[t].sems[0]);
    }
  }

  // ---------------------------------------------------------------- clock

  /** The current task, interrupted by the clock, goes to the back of the ready queue. */
  function Preempt(s: Sched): (r: Sched)
    requires Shape(s)
    ensures Shape(r)
  {
    var k := s.tasks[s.cur].(cont := Preempted, remaining := s.tasks[s.cur].quantum);
    var s1 := SetTask(s, s.cur, k);
    if s.cur != s.idle then MakeReady(s1, s.cur) else s1
  }

  lemma PreemptQueues(s: Sched)
    requires SInv(s)
    ensures var s' := Preempt(s); FreeQueue(s') && ReadyQueue(s') && OnCpu(s', false) && Marks(s')
  {
    hide Ownership, Pids, BlockedQueues;
    if s.cur != s.idle {
      assert s.cur !in s.ready;
      DistinctSnoc(s.ready, s.cur);
    }
  }

  lemma PreemptSems(s: Sched)
    requires SInv(s)
    ensures var s' := Preempt(s); BlockedQueues(s') && Ownership(s', false) && Pids(s', false) && Retired(s')
  {
    hide ReadyQueue, FreeQueue, Marks, BlockedQueues, Ownership;
    var s' := Preempt(s);
    OneTaskChanges(s, s', s.cur, false);
    assert forall t: nat :: Alive(s', false, t) ==> Alive(s, true, t);
  }

  /** One more tick on the clock, before the scheduler looks. */
  lemma AgedCosmetic(s: Sched)
    requires SInv(s)
    ensures var s1 := RefreshTicks(s.(ticks := s.ticks + 1)); Cosmetic(s, s1) && Marks(s1)
  {
    hide FreeQueue, ReadyQueue, BlockedQueues, OnCpu, Ownership, Pids;
  }

  lemma AgedKeeps(s: Sched)
    requires SInv(s)
    ensures SInv(RefreshTicks(s.(ticks := s.ticks + 1)))
  {
    AgedCosmetic(s);
    var s1 := RefreshTicks(s.(ticks := s.ticks + 1));
    hide Cosmetic, RefreshTicks;
    CosmeticKeeps(s, s1, true);
    CosmeticSems(s, s1, true);
    hide FreeQueue, ReadyQueue, BlockedQueues, OnCpu, Ownership, Pids, Marks, Shape;
    assert SInv(s1);
  }

  lemma PreemptKeeps(s: Sched)
    requires SInv(s)
    ensures Good(Preempt(s), false) && Retired(Preempt(s))
  {
    PreemptQueues(s);
    PreemptSems(s);
    hide FreeQueue, ReadyQueue, BlockedQueues, OnCpu, Ownership, Pids, Marks, Preempt, Retired;
    GoodFrom(Preempt(s), false);
  }

  lemma TickUnfold(s: Sched)
    requires Shape(s)
    ensures var s1 := RefreshTicks(s.(ticks := s.ticks + 1));
      var a := [Acct(s.cur, UserToSys), Acct(s.cur, CurrentTicksUpdated)];
      if NeedsSched(s1) then
        var (r, evs) := Reschedule(Preempt(s1));
        Tick(s) == (r, a + [Acct(s.cur, SysToReady)] + evs)
      else Tick(s) == (s1, a + [Acct(s.cur, SysToUser)])
  {
  }

  lemma TickKeeps(s: Sched)
    requires SInv(s)
    ensures SInv(Tick(s).0)
  {
    hide Good, Reschedule, RefreshTicks, Preempt, Tick, Retired, NeedsSched;
    TickUnfold(s);
    AgedKeeps(s);
    var s1 := RefreshTicks(s.(ticks := s.ticks + 1));
    if NeedsSched(s1) {
      PreemptKeeps(s1);
      RescheduleKeeps(Preempt(s1));
    }
  }

  // ---------------------------------------------------------------- fork and clone

  lemma SpawnQueues(s: Sched)
    requires SInv(s) && s.freeq != []
    ensures var s' := Spawn(s).0; FreeQueue(s') && ReadyQueue(s') && OnCpu(s', true) && Marks(s')
  {
    hide Ownership, Pids, BlockedQueues;
    DistinctTail(s.freeq);
    assert s.freeq[0] !in s.ready;
    DistinctSnoc(s.ready, s.freeq[0]);
  }

  lemma SpawnSems(s: Sched)
    requires SInv(s) && s.freeq != []
    ensures var s' := Spawn(s).0; BlockedQueues(s') && Ownership(s', true) && Pids(s', true)
  {
    hide ReadyQueue, Marks, BlockedQueues, Ownership;
    var s', t := Spawn(s).0, s.freeq[0];
    assert t in s.freeq;
    FreeOwnsNothing(s, t);
    OneTaskChanges(s, s', t, true);
    assert forall u: nat :: Alive(s', true, u) ==> u == t || Alive(s, true, u);
  }

  lemma SpawnKeeps(s: Sched)
    requires SInv(s)
    ensures SInv(Spawn(s).0)
  {
    hide Good;
    if s.freeq != [] {
      SpawnQueues(s);
      SpawnSems(s);
      hide FreeQueue, ReadyQueue, BlockedQueues, OnCpu, Ownership, Pids, Marks;
      GoodFrom(Spawn(s).0, true);
    }
  }

  // ---------------------------------------------------------------- sem_init

  lemma SemInitKeeps(s: Sched, n: int, v: int)
    requires SInv(s) && 0 <= v < 0x1_0000_0000 && s.cur != s.idle
    ensures SInv(SemInit(s, n, v).0)
  {
    if !BadSem(n) && !s.sems[n].used {
      var s' := SemInit(s, n, v).0;
      SemInitQueues(s, n, v);
      SemInitSems(s, n, v);
      hide FreeQueue, ReadyQueue, BlockedQueues, OnCpu, Ownership, Pids, Marks, SemInit;
    }
  }

  lemma SemInitQueues(s: Sched, n: int, v: int)
    requires SInv(s) && 0 <= v < 0x1_0000_0000 && !BadSem(n) && !s.sems[n].used
    ensures var s' := SemInit(s, n, v).0;
      FreeQueue(s') && ReadyQueue(s') && OnCpu(s', true) && Marks(s') && Pids(s', true)
  {
    hide Ownership, BlockedQueues;
    var s' := SemInit(s, n, v).0;
    assert forall t: nat :: Alive(s', true, t) <==> Alive(s, true, t);
  }

  lemma SemInitSems(s: Sched, n: int, v: int)
    requires SInv(s) && 0 <= v < 0x1_0000_0000 && !BadSem(n) && !s.sems[n].used && s.cur != s.idle
    ensures var s' := SemInit(s, n, v).0; BlockedQueues(s') && Ownership(s', true)
  {
    hide FreeQueue, ReadyQueue, Marks, Pids;
    var s' := SemInit(s, n, v).0;
    assert SemOk(s, true, n);
    forall i | 0 <= i < NR_SEMAPHORES
      ensures BlockedOn(s', i) && SemOk(s', true, i)
    {
      assert BlockedOn(s, i) && SemOk(s, true, i);
    }
    forall t | 0 <= t < NR_TASKS
      ensures OwnOk(s', t) && (s'.tasks[t].state == StBlocked ==> WaitsSomewhere(s', t))
    {
      assert OwnOk(s, t);
      if s.tasks[t].state == StBlocked {
        assert WaitsSomewhere(s, t);
      }
    }
  }

  // ---------------------------------------------------------------- sem_wait

  function Block(s: Sched, n: nat): (r: Sched)
    requires Shape(s) && n < NR_SEMAPHORES
    ensures Shape(r)
  {
    var m := s.sems[n].(blocked := s.sems[n].blocked + [s.cur]);
    SetTask(s.(sems := s.sems[n := m]), s.cur, s.tasks[s.cur].(state := StBlocked, cont := InWait(n)))
  }

  lemma BlockQueues(s: Sched, n: nat)
    requires SInv(s) && s.cur != s.idle && n < NR_SEMAPHORES
    ensures var s' := Block(s, n); FreeQueue(s') && ReadyQueue(s') && OnCpu(s', false) && Marks(s') && Pids(s', false)
  {
    hide Ownership, BlockedQueues;
    var s' := Block(s, n);
    assert forall t: nat :: Alive(s', false, t) <==> Alive(s, true, t);
  }

  lemma BlockSems(s: Sched, n: nat)
    requires SInv(s) && s.cur != s.idle && n < NR_SEMAPHORES && s.sems[n].used && s.sems[n].count == 0
    ensures var s' := Block(s, n); BlockedQueues(s') && Ownership(s', false)
  {
    hide FreeQueue, ReadyQueue, Marks, Pids;
    var s' := Block(s, n);
    assert BlockedOn(s, n);
    DistinctSnoc(s.sems[n].blocked, s.cur);
    forall i | 0 <= i < NR_SEMAPHORES
      ensures BlockedOn(s', i) && SemOk(s', false, i)
    {
      assert BlockedOn(s, i) && SemOk(s, true, i);
    }
    forall t | 0 <= t < NR_TASKS
      ensures OwnOk(s', t) && (s'.tasks[t].state == StBlocked ==> WaitsSomewhere(s', t))
    {
      assert OwnOk(s, t);
      if s.tasks[t].state == StBlocked {
        assert WaitsSomewhere(s, t);
      }
    }
  }

  lemma CountKeeps(s: Sched, n: nat, c: I32)
    requires SInv(s) && n < NR_SEMAPHORES && s.sems[n].blocked == []
    ensures SInv(s.(sems := s.sems[n := s.sems[n].(count := c)]))
  {
    var s' := s.(sems := s.sems[n := s.sems[n].(count := c)]);
    CountSems(s, s', n, c);
    assert forall t: nat :: Alive(s', true, t) <==> Alive(s, true, t);
    hide BlockedQueues, Ownership;
  }

  lemma CountSems(s: Sched, s': Sched, n: nat, c: I32)
    requires Shape(s) && Shape(s') && BlockedQueues(s) && Ownership(s, true) && n < NR_SEMAPHORES
    requires s.sems[n].blocked == []
    requires s' == s.(sems := s.sems[n := s.sems[n].(count := c)])
    ensures BlockedQueues(s') && Ownership(s', true)
  {
    forall i | 0 <= i < NR_SEMAPHORES
      ensures BlockedOn(s', i) && SemOk(s', true, i)
    {
      assert BlockedOn(s, i) && SemOk(s, true, i);
    }
    forall t | 0 <= t < NR_TASKS
      ensures OwnOk(s', t) && (s'.tasks[t].state == StBlocked ==> WaitsSomewhere(s', t))
    {
      assert OwnOk(s, t);
      if s'.tasks[t].state == StBlocked {
        assert WaitsSomewhere(s, t);
      }
    }
  }

  lemma SemWaitKeeps(s: Sched, n: int)
    requires SInv(s) && s.cur != s.idle
    ensures SInv(SemWait(s, n).0)
  {
    if !BadSem(n) && s.sems[n].used {
      assert SemOk(s, true, n);
      hide Good, Reschedule;
      if s.sems[n].count == 0 {
        BlockQueues(s, n);
        BlockSems(s, n);
        GoodFrom(Block(s, n), false);
        RescheduleKeeps(Block(s, n));
      } else {
        CountKeeps(s, n, Int32(s.sems[n].count - 1));
      }
    }
  }

  // ---------------------------------------------------------------- sem_signal

  /** The waiters `ws` at the head of semaphore `n` become ready, in order. */
  ghost predicate Woken(s: Sched, s': Sched, n: nat, k: nat)
    requires Shape(s) && n < NR_SEMAPHORES
  {
    k <= |s.sems[n].blocked| &&
    var ws := s.sems[n].blocked[..k];
    && |s'.tasks| == NR_TASKS
    && s' == s.(ready := s.ready + ws, sems := s'.sems, tasks := s'.tasks)
    && |s'.sems| == NR_SEMAPHORES
    && (forall i :: 0 <= i < NR_SEMAPHORES && i != n ==> s'.sems[i] == s.sems[i])
    && s'.sems[n] == s.sems[n].(used := s'.sems[n].used, blocked := s.sems[n].blocked[k..])
    && (forall t :: 0 <= t < NR_TASKS && t !in ws ==> s'.tasks[t] == s.tasks[t].(sems := s'.tasks[t].sems))
    && (forall t :: t in ws ==>
      s'.tasks[t] == s.tasks[t].(state := StReady, semDeleted := s'.tasks[t].semDeleted, sems := s'.tasks[t].sems))
  }

  lemma WokenQueues(s: Sched, s': Sched, n: nat, k: nat, on: bool)
    requires Good(s, on) && n < NR_SEMAPHORES && Woken(s, s', n, k) && Shape(s')
    ensures FreeQueue(s') && ReadyQueue(s') && OnCpu(s', on) && Marks(s')
  {
    var ws := s.sems[n].blocked[..k];
    assert BlockedOn(s, n);
    assert forall t :: t in ws ==> t in s.sems[n].blocked;
    hide Ownership, Pids, BlockedQueues;
    DistinctConcat(s.ready, ws);
  }

  lemma WokenOn(s: Sched, s': Sched, n: nat, k: nat, i: nat)
    requires Shape(s) && BlockedQueues(s) && n < NR_SEMAPHORES && Woken(s, s', n, k) && Shape(s') && i < NR_SEMAPHORES
    ensures BlockedOn(s', i)
  {
    var b := s.sems[n].blocked;
    assert BlockedOn(s, n) && BlockedOn(s, i);
    WsDisjoint(b, k);
  }

  lemma WokenBlocked(s: Sched, s': Sched, n: nat, k: nat, on: bool)
    requires Good(s, on) && n < NR_SEMAPHORES && Woken(s, s', n, k) && Shape(s')
    ensures BlockedQueues(s')
  {
    var b := s.sems[n].blocked;
    hide Ownership, Pids, FreeQueue, ReadyQueue, Marks, BlockedOn;
    assert BlockedOn(s, n);
    assert Distinct(b) by {
      BlockedNoDup(s, n);
    }
    WsDisjoint(b, k);
    forall i | 0 <= i < NR_SEMAPHORES
      ensures BlockedOn(s', i)
    {
      WokenOn(s, s', n, k, i);
    }
    forall t | 0 <= t < NR_TASKS && s'.tasks[t].state == StBlocked
      ensures WaitsSomewhere(s', t)
    {
      assert WaitsSomewhere(s, t);
    }
  }

  lemma BlockedNoDup(s: Sched, n: nat)
    requires Shape(s) && n < NR_SEMAPHORES && BlockedOn(s, n)
    ensures Distinct(s.sems[n].blocked)
  {
  }

  lemma WsDisjoint(b: seq<nat>, k: nat)
    requires Distinct(b) && k <= |b|
    ensures Distinct(b[..k]) && Distinct(b[k..])
    ensures forall t :: t in b[..k] ==> t !in b[k..]
    ensures forall t :: t in b <==> t in b[..k] || t in b[k..]
  {
    assert b == b[..k] + b[k..];
  }

  lemma WokenPids(s: Sched, s': Sched, n: nat, k: nat, on: bool)
    requires Good(s, on) && n < NR_SEMAPHORES && Woken(s, s', n, k) && Shape(s')
    ensures Pids(s', on)
  {
    var ws := s.sems[n].blocked[..k];
    assert BlockedOn(s, n);
    assert forall t :: t in ws ==> t in s.sems[n].blocked;
    hide Ownership, FreeQueue, ReadyQueue, Marks, BlockedQueues;
    assert forall t: nat :: Alive(s', on, t) ==> Alive(s, on, t);
  }

  lemma SignalSems(s: Sched, s': Sched, n: nat)
    requires SInv(s) && n < NR_SEMAPHORES && Woken(s, s', n, 1) && Shape(s')
    requires s'.sems[n].used == s.sems[n].used && forall t :: 0 <= t < NR_TASKS ==> s'.tasks[t].sems == s.tasks[t].sems
    ensures Ownership(s', true)
  {
    var ws := s.sems[n].blocked[..1];
    hide FreeQueue, ReadyQueue, Marks, BlockedQueues, Pids;
    forall i | 0 <= i < NR_SEMAPHORES
      ensures SemOk(s', true, i)
    {
      assert SemOk(s, true, i);
    }
    forall t | 0 <= t < NR_TASKS
      ensures OwnOk(s', t)
    {
      assert OwnOk(s, t);
    }
  }

  lemma SemSignalKeeps(s: Sched, n: int)
    requires SInv(s)
    ensures SInv(SemSignal(s, n).0)
  {
    if !BadSem(n) && s.sems[n].used {
      if s.sems[n].blocked == [] {
        CountKeeps(s, n, Int32(s.sems[n].count + 1));
      } else {
        var s' := SemSignal(s, n).0;
        assert s.sems[n].blocked[..1] == [s.sems[n].blocked[0]];
        assert Woken(s, s', n, 1);
        hide Good, Woken;
        SignalSems(s, s', n);
        WokenQueues(s, s', n, 1, true);
        WokenBlocked(s, s', n, 1, true);
        WokenPids(s, s', n, 1, true);
        hide FreeQueue, ReadyQueue, BlockedQueues, OnCpu, Ownership, Pids, Marks;
        GoodFrom(s', true);
      }
    }
  }

  // ---------------------------------------------------------------- sem_destroy

  function WakeEvs(ws: seq<nat>, n: nat): (r: seq<Ev>) {
    if ws == [] then [] else [Acct(ws[0], BlockedToReady), Abort(ws[0], n)] + WakeEvs(ws[1..], n)
  }

  lemma WokenCompose(s: Sched, s1: Sched, s2: Sched, n: nat, k: nat)
    requires Shape(s) && Shape(s1) && n < NR_SEMAPHORES && s.sems[n].blocked != []
    requires Woken(s, s1, n, 1) && Woken(s1, s2, n, k)
    ensures Woken(s, s2, n, k + 1)
  {
    var b := s.sems[n].blocked;
    var ws1, ws2 := b[..1], s1.sems[n].blocked[..k];
    assert s1.sems[n].blocked == b[1..];
    assert b[..k + 1] == ws1 + ws2;
    assert b[1..][k..] == b[k + 1..];
    assert s.ready + ws1 + ws2 == s.ready + (ws1 + ws2);
  }

  lemma WokenNone(s: Sched, n: nat)
    requires Shape(s) && n < NR_SEMAPHORES && s.sems[n].blocked == []
    ensures Woken(s, s, n, 0)
  {
    assert s.ready + [] == s.ready;
  }

  /** `Woken` does not look at the flag of `n` nor at the lists of owned semaphores. */
  lemma WokenFrom(s: Sched, s0: Sched, s': Sched, n: nat, k: nat)
    requires Shape(s) && Shape(s0) && n < NR_SEMAPHORES
    requires s0 == s.(sems := s.sems[n := s.sems[n].(used := false)], tasks := s0.tasks)
    requires s0.tasks == s.tasks[s.cur := s.tasks[s.cur].(sems := s0.tasks[s.cur].sems)]
    requires Woken(s0, s', n, k)
    ensures Woken(s, s', n, k)
  {
  }

  lemma WakeFirstWoken(s: Sched, n: nat)
    requires Shape(s) && n < NR_SEMAPHORES && s.sems[n].blocked != []
    ensures var s1 := WakeFirst(s, n).0;
      && Woken(s, s1, n, 1)
      && s1.tasks[s.sems[n].blocked[0]].semDeleted
      && s1.sems[n].used == s.sems[n].used && s1.sems[n].blocked == s.sems[n].blocked[1..]
      && (forall t :: 0 <= t < NR_TASKS ==> s1.tasks[t].sems == s.tasks[t].sems)
      && (forall t :: 0 <= t < NR_TASKS && s.tasks[t].semDeleted ==> s1.tasks[t].semDeleted)
      && WakeFirst(s, n).1 == [Acct(s.sems[n].blocked[0], BlockedToReady), Abort(s.sems[n].blocked[0], n)]
  {
    assert s.sems[n].blocked[..1] == [s.sems[n].blocked[0]];
  }

  /** The loop wakes every waiter, first come first, and marks each of them. */
  lemma {:induction false} WakeAllWoken(s: Sched, n: nat)
    requires Shape(s) && n < NR_SEMAPHORES
    ensures var (s', evs) := WakeAll(s, n);
      && Woken(s, s', n, |s.sems[n].blocked|)
      && (forall t :: t in s.sems[n].blocked ==> t < NR_TASKS && s'.tasks[t].semDeleted)
      && (forall t :: 0 <= t < NR_TASKS && s.tasks[t].semDeleted ==> s'.tasks[t].semDeleted)
      && s'.sems[n].used == s.sems[n].used
      && (forall t :: 0 <= t < NR_TASKS ==> s'.tasks[t].sems == s.tasks[t].sems)
      && evs == WakeEvs(s.sems[n].blocked, n)
    decreases |s.sems[n].blocked|
  {
    hide Woken, WakeFirst;
    var b := s.sems[n].blocked;
    if b == [] {
      WokenNone(s, n);
    } else {
      var s1 := WakeFirst(s, n).0;
      WakeFirstWoken(s, n);
      WakeAllWoken(s1, n);
      WokenCompose(s, s1, WakeAll(s1, n).0, n, |b| - 1);
      assert b == [b[0]] + b[1..];
    }
  }

  /** A destroyed semaphore: no longer used, off its owner's list, all its waiters ready and marked. */
  ghost predicate Destroyed(s: Sched, s': Sched, n: nat)
    requires Shape(s) && n < NR_SEMAPHORES
  {
    && Woken(s, s', n, |s.sems[n].blocked|)
    && !s'.sems[n].used
    && (forall t :: t in s.sems[n].blocked ==> 0 <= t < NR_TASKS && s'.tasks[t].semDeleted)
    && (forall t :: 0 <= t < NR_TASKS ==>
          s'.tasks[t].sems == if t == s.cur then Without(s.tasks[t].sems, n) else s.tasks[t].sems)
  }

  lemma DestroyExact(s: Sched, n: nat)
    requires Shape(s) && n < NR_SEMAPHORES
    ensures Destroyed(s, Destroy(s, n).0, n) && Destroy(s, n).1 == WakeEvs(s.sems[n].blocked, n)
  {
    var k := s.tasks[s.cur].(sems := Without(s.tasks[s.cur].sems, n));
    var s0 := SetTask(s.(sems := s.sems[n := s.sems[n].(used := false)]), s.cur, k);
    assert Shape(s0);
    hide WakeAll, Woken;
    WakeAllWoken(s0, n);
    WokenFrom(s, s0, WakeAll(s0, n).0, n, |s.sems[n].blocked|);
  }

  lemma DestroyOwners(s: Sched, s': Sched, n: nat, on: bool)
    requires Good(s, on) && n < NR_SEMAPHORES && s.sems[n].used && s.sems[n].owner == s.cur
    requires Destroyed(s, s', n) && Shape(s')
    ensures Ownership(s', on)
  {
    assert OwnOk(s, s.cur) && OwnOk(s, s.idle);
    assert s.tasks[s.idle].sems == [] && s'.tasks[s.idle].sems == [];
    WithoutExact(s.tasks[s.cur].sems, n);
    DestroySems(s, s', n, on);
    DestroyOwn(s, s', n, on);
    hide FreeQueue, ReadyQueue, Marks, BlockedQueues, Pids, SemOk, OwnOk, Destroyed;
  }

  lemma DestroyOwn(s: Sched, s': Sched, n: nat, on: bool)
    requires Good(s, on) && n < NR_SEMAPHORES && s.sems[n].used && s.sems[n].owner == s.cur
    requires Destroyed(s, s', n) && Shape(s')
    requires Distinct(Without(s.tasks[s.cur].sems, n))
    requires forall i :: i in Without(s.tasks[s.cur].sems, n) <==> i in s.tasks[s.cur].sems && i != n
    ensures forall t :: 0 <= t < NR_TASKS ==> OwnOk(s', t)
  {
    hide FreeQueue, ReadyQueue, Marks, BlockedQueues, Pids, SemOk, Without;
    forall t | 0 <= t < NR_TASKS
      ensures OwnOk(s', t)
    {
      assert OwnOk(s, t);
    }
  }

  lemma DestroySems(s: Sched, s': Sched, n: nat, on: bool)
    requires Good(s, on) && n < NR_SEMAPHORES && s.sems[n].used && s.sems[n].owner == s.cur
    requires Destroyed(s, s', n) && Shape(s')
    requires forall i :: i in Without(s.tasks[s.cur].sems, n) <==> i in s.tasks[s.cur].sems && i != n
    ensures forall i :: 0 <= i < NR_SEMAPHORES ==> SemOk(s', on, i)
  {
    hide FreeQueue, ReadyQueue, Marks, Pids;
    var b := s.sems[n].blocked;
    assert b[..|b|] == b && b[|b|..] == [];
    assert BlockedOn(s, n);
    forall i | 0 <= i < NR_SEMAPHORES
      ensures SemOk(s', on, i)
    {
      assert SemOk(s, on, i);
    }
  }

  lemma DestroyKeeps(s: Sched, n: nat, on: bool)
    requires Good(s, on) && n < NR_SEMAPHORES && s.sems[n].used && s.sems[n].owner == s.cur
    ensures Good(Destroy(s, n).0, on)
  {
    DestroyExact(s, n);
    var s' := Destroy(s, n).0;
    hide Good, Destroy;
    assert Woken(s, s', n, |s.sems[n].blocked|);
    DestroyOwners(s, s', n, on);
    hide Woken, Destroyed, Shape;
    WokenQueues(s, s', n, |s.sems[n].blocked|, on);
    WokenBlocked(s, s', n, |s.sems[n].blocked|, on);
    WokenPids(s, s', n, |s.sems[n].blocked|, on);
    hide FreeQueue, ReadyQueue, BlockedQueues, OnCpu, Ownership, Pids, Marks;
    GoodFrom(s', on);
  }

  /** The PID comparison of `sys_sem_destroy` decides ownership. */
  lemma MayDestroyIffOwner(s: Sched, n: nat, on: bool)
    requires Good(s, on) && n < NR_SEMAPHORES && s.sems[n].used
    requires Alive(s, on, s.cur)
    ensures MayDestroy(s, n) <==> s.sems[n].owner == s.cur
  {
    hide FreeQueue, ReadyQueue, Marks, BlockedQueues, OnCpu;
    assert SemOk(s, on, n);
    assert Alive(s, on, s.sems[n].owner);
  }

  lemma SemDestroyKeeps(s: Sched, n: int)
    requires SInv(s)
    ensures SInv(SemDestroy(s, n).0)
  {
    hide Destroy;
    if !BadSem(n) && s.sems[n].used && MayDestroy(s, n) {
      MayDestroyIffOwner(s, n, true);
      DestroyKeeps(s, n, true);
    }
  }

  // ---------------------------------------------------------------- exit

  function Retire(s: Sched): (r: Sched)
    requires Shape(s)
    ensures Shape(r)
  {
    SetTask(s.(freeq := s.freeq + [s.cur]), s.cur, s.tasks[s.cur].(state := StInvalid))
  }

  lemma RetireQueues(s: Sched)
    requires SInv(s) && s.cur != s.idle
    ensures var s' := Retire(s); FreeQueue(s') && ReadyQueue(s') && OnCpu(s', false) && Marks(s') && Pids(s', false)
  {
    hide Ownership, BlockedQueues;
    var s' := Retire(s);
    assert s.cur !in s.freeq;
    DistinctSnoc(s.freeq, s.cur);
    assert forall t: nat :: Alive(s', false, t) <==> Alive(s, true, t);
  }

  lemma RetireSems(s: Sched)
    requires SInv(s) && s.cur != s.idle
    ensures var s' := Retire(s); BlockedQueues(s') && Ownership(s', false)
  {
    hide FreeQueue, ReadyQueue, Marks, Pids;
    var s' := Retire(s);
    forall i | 0 <= i < NR_SEMAPHORES
      ensures BlockedOn(s', i) && SemOk(s', false, i)
    {
      assert BlockedOn(s, i) && SemOk(s, true, i);
    }
    forall t | 0 <= t < NR_TASKS
      ensures OwnOk(s', t) && (s'.tasks[t].state == StBlocked ==> WaitsSomewhere(s', t))
    {
      assert OwnOk(s, t);
      if s'.tasks[t].state == StBlocked {
        assert WaitsSomewhere(s, t);
      }
    }
  }

  /** The waiters on the semaphores `ns`, semaphore by semaphore. */
  function Waiters(s: Sched, ns: seq<nat>): (r: seq<nat>)
    requires Shape(s) && forall i :: 0 <= i < |ns| ==> ns[i] < NR_SEMAPHORES
  {
    if ns == [] then [] else s.sems[ns[0]].blocked + Waiters(s, ns[1..])
  }

  function DestroyEvs(s: Sched, ns: seq<nat>): (r: seq<Ev>)
    requires Shape(s) && forall i :: 0 <= i < |ns| ==> ns[i] < NR_SEMAPHORES
  {
    if ns == [] then [] else WakeEvs(s.sems[ns[0]].blocked, ns[0]) + DestroyEvs(s, ns[1..])
  }

  lemma {:induction false} OtherSemsSame(s: Sched, s1: Sched, ns: seq<nat>)
    requires Shape(s) && Shape(s1) && forall i :: 0 <= i < |ns| ==> ns[i] < NR_SEMAPHORES
    requires forall n :: n in ns ==> n < NR_SEMAPHORES && s1.sems[n].blocked == s.sems[n].blocked
    ensures Waiters(s1, ns) == Waiters(s, ns) && DestroyEvs(s1, ns) == DestroyEvs(s, ns)
  {
    if ns != [] {
      assert ns[0] in ns;
      OtherSemsSame(s, s1, ns[1..]);
    }
  }

  /** What holds between two rounds of `free_semaphores`. */
  ghost predicate Dying(s: Sched, ns: seq<nat>) {
    && Good(s, false) && s.cur != s.idle
    && s.tasks[s.cur].state == StInvalid && s.tasks[s.cur].sems == ns
  }

  /** Nobody's PID, quantum or remaining ticks change. */
  ghost predicate SameNames(s: Sched, s': Sched) {
    && |s'.tasks| == |s.tasks|
    && forall t :: 0 <= t < |s.tasks| ==>
         && s'.tasks[t].pid == s.tasks[t].pid
         && s'.tasks[t].quantum == s.tasks[t].quantum
         && s'.tasks[t].remaining == s.tasks[t].remaining
  }

  /** What one round changes. */
  ghost predicate OneGone(s: Sched, s1: Sched, n: nat)
    requires Shape(s) && n < NR_SEMAPHORES
  {
    && s1.freeq == s.freeq && s1.lastPid == s.lastPid && s1.ticks == s.ticks && s1.cur == s.cur && s1.idle == s.idle
    && s1.ready == s.ready + s.sems[n].blocked
    && |s1.sems| == NR_SEMAPHORES && |s1.tasks| == NR_TASKS && !s1.sems[n].used
    && (forall i :: 0 <= i < NR_SEMAPHORES && i != n ==> s1.sems[i] == s.sems[i])
    && s1.tasks[s.cur] == s.tasks[s.cur].(sems := s1.tasks[s.cur].sems)
    && SameNames(s, s1)
  }

  lemma DestroyedOneGone(s: Sched, s1: Sched, n: nat)
    requires Shape(s) && n < NR_SEMAPHORES && Destroyed(s, s1, n) && s.tasks[s.cur].state == StInvalid
    requires BlockedOn(s, n)
    ensures OneGone(s, s1, n)
  {
    var b := s.sems[n].blocked;
    assert b[..|b|] == b;
  }

  lemma DyingRound(s: Sched, ns: seq<nat>)
    requires Dying(s, ns) && ns != []
    ensures ns[0] < NR_SEMAPHORES && MayDestroy(s, ns[0])
    ensures Dying(Destroy(s, ns[0]).0, ns[1..])
    ensures OneGone(s, Destroy(s, ns[0]).0, ns[0])
    ensures Destroy(s, ns[0]).1 == WakeEvs(s.sems[ns[0]].blocked, ns[0])
    ensures ns[0] !in ns[1..]
  {
    var n := ns[0];
    assert OwnOk(s, s.cur);
    assert n in ns;
    DistinctTail(ns);
    MayDestroyIffOwner(s, n, false);
    DestroyKeeps(s, n, false);
    DestroyExact(s, n);
    assert BlockedOn(s, n);
    DestroyedOneGone(s, Destroy(s, n).0, n);
    hide Good, Destroy;
  }

  /** The state after destroying the semaphores `ns` in turn. */
  ghost predicate AllGone(s: Sched, ns: seq<nat>, s': Sched, evs: seq<Ev>)
    requires Shape(s)
  {
    && (forall i :: 0 <= i < |ns| ==> ns[i] < NR_SEMAPHORES)
    && s'.cur == s.cur && s'.idle == s.idle && s'.freeq == s.freeq && s'.lastPid == s.lastPid && s'.ticks == s.ticks
    && s'.ready == s.ready + Waiters(s, ns)
    && evs == DestroyEvs(s, ns)
    && |s'.sems| == NR_SEMAPHORES && |s'.tasks| == NR_TASKS
    && (forall i :: 0 <= i < NR_SEMAPHORES && i !in ns ==> s'.sems[i] == s.sems[i])
    && (forall i :: i in ns ==> 0 <= i < NR_SEMAPHORES && !s'.sems[i].used)
    && s'.tasks[s.cur] == s.tasks[s.cur].(sems := s'.tasks[s.cur].sems)
    && SameNames(s, s')
  }

  lemma AllGoneCons(s: Sched, s1: Sched, ns: seq<nat>, s': Sched, evs: seq<Ev>)
    requires Shape(s) && Shape(s1) && ns != [] && ns[0] < NR_SEMAPHORES && ns[0] !in ns[1..]
    requires OneGone(s, s1, ns[0]) && AllGone(s1, ns[1..], s', evs)
    ensures AllGone(s, ns, s', WakeEvs(s.sems[ns[0]].blocked, ns[0]) + evs)
  {
    var n := ns[0];
    assert ns == [n] + ns[1..];
    assert forall i :: i in ns[1..] ==> exists j :: 0 <= j < |ns[1..]| && ns[1..][j] == i;
    OtherSemsSame(s, s1, ns[1..]);
    assert s.ready + s.sems[n].blocked + Waiters(s, ns[1..]) == s.ready + (s.sems[n].blocked + Waiters(s, ns[1..]));
  }

  /** `free_semaphores` destroys exactly the semaphores on the list and ends with an empty list. */
  lemma {:induction false} DestroyEachExact(s: Sched, ns: seq<nat>)
    requires Dying(s, ns)
    ensures Dying(DestroyEach(s, ns).0, [])
    ensures AllGone(s, ns, DestroyEach(s, ns).0, DestroyEach(s, ns).1)
    decreases |ns|
  {
    hide Destroy, OneGone, AllGone, MayDestroy;
    if ns == [] {
      AllGoneNone(s);
    } else {
      DyingRound(s, ns);
      var s1 := Destroy(s, ns[0]).0;
      DestroyEachExact(s1, ns[1..]);
      hide Dying;
      AllGoneCons(s, s1, ns, DestroyEach(s1, ns[1..]).0, DestroyEach(s1, ns[1..]).1);
    }
  }

  lemma AllGoneNone(s: Sched)
    requires Shape(s)
    ensures AllGone(s, [], s, [])
  {
    assert s.ready + [] == s.ready;
  }

  lemma ExitKeeps(s: Sched)
    requires SInv(s) && s.cur != s.idle
    ensures SInv(Exit(s).0)
  {
    var s1 := Retire(s);
    RetireQueues(s);
    RetireSems(s);
    hide FreeQueue, ReadyQueue, BlockedQueues, OnCpu, Ownership, Pids, Marks, Shape, DestroyEach, Reschedule;
    GoodFrom(s1, false);
    DestroyEachExact(s1, s.tasks[s.cur].sems);
    var s2 := DestroyEach(s1, s.tasks[s.cur].sems).0;
    assert SetTask(s2, s2.cur, s2.tasks[s2.cur].(sems := [])) == s2;
    RescheduleKeeps(s2);
  }

  // ---------------------------------------------------------------- all steps

  /** Queue partition, state agreement, ownership and marks survive every kernel entry. */
  lemma StepKeeps(s: Sched, op: Op)
    requires SInv(s) && Enabled(s, op)
    ensures SInv(Step(s, op).0)
  {
    hide SInv, Tick, Spawn, Exit, SemInit, SemWait, SemSignal, SemDestroy, GetStats;
    match op
    case ClockTick => TickKeeps(s);
    case SysSpawn => SpawnKeeps(s);
    case SysExit => ExitKeeps(s);
    case SysSemInit(n, v) => SemInitKeeps(s, n, v);
    case SysSemWait(n) => SemWaitKeeps(s, n);
    case SysSemSignal(n) => SemSignalKeeps(s, n);
    case SysSemDestroy(n) => SemDestroyKeeps(s, n);
    case SysGetStats(pid) => GetStatsKeeps(s, pid);
    case SysOther =>
  }

  lemma GetStatsKeeps(s: Sched, pid: int)
    requires Shape(s)
    ensures GetStats(s, pid).0 == s
  {
  }
}
