/**
 What every kernel entry keeps: the queues partition the tasks, states agree with queues,
 semaphores belong to live tasks, and only aborted waiters carry the deletion mark.

 `on` says whether the current task is on the CPU. It is false only inside a kernel entry, between
 moving the current task to a queue and dispatching the next one.
 */
module SchedInvariant {
  import opened Basics
  import opened Sched

  ghost predicate FreeQueue(s: Sched)
    requires Shape(s)
  {
    && Distinct(s.freeq)
    && (forall t :: t in s.freeq ==> t != s.idle && s.tasks[t].state == StInvalid)
    && (forall t :: 0 <= t < NR_TASKS && s.tasks[t].state == StInvalid ==> t in s.freeq)
  }

  ghost predicate ReadyQueue(s: Sched)
    requires Shape(s)
  {
    && Distinct(s.ready)
    && (forall t :: t in s.ready ==> t != s.idle && s.tasks[t].state == StReady)
    && (forall t :: 0 <= t < NR_TASKS && t != s.idle && s.tasks[t].state == StReady ==> t in s.ready)
  }

  ghost predicate BlockedOn(s: Sched, n: nat)
    requires Shape(s) && n < NR_SEMAPHORES
  {
    && Distinct(s.sems[n].blocked)
    && (forall t :: t in s.sems[n].blocked ==>
      t != s.idle && s.tasks[t].state == StBlocked && s.tasks[t].cont == InWait(n))
  }

  ghost predicate WaitsSomewhere(s: Sched, t: nat)
    requires Shape(s) && t < NR_TASKS
  {
    && s.tasks[t].cont.InWait? && s.tasks[t].cont.n < NR_SEMAPHORES
    && t in s.sems[s.tasks[t].cont.n].blocked
  }

  ghost predicate BlockedQueues(s: Sched)
    requires Shape(s)
  {
    && (forall n :: 0 <= n < NR_SEMAPHORES ==> BlockedOn(s, n))
    && (forall t :: 0 <= t < NR_TASKS && s.tasks[t].state == StBlocked ==> WaitsSomewhere(s, t))
  }

  ghost predicate OnCpu(s: Sched, on: bool)
    requires Shape(s)
  {
    && (on ==> s.tasks[s.cur].state == StRun)
    && (forall t :: 0 <= t < NR_TASKS && t != s.idle && s.tasks[t].state == StRun ==> on && t == s.cur)
    && (s.tasks[s.idle].state == StRun || s.tasks[s.idle].state == StReady)
    && !s.tasks[s.idle].cont.InWait?
  }

  ghost predicate SemOk(s: Sched, on: bool, n: nat)
    requires Shape(s) && n < NR_SEMAPHORES
  {
    var m := s.sems[n];
    && (m.blocked != [] ==> m.used && m.count == 0)
    && (m.used ==>
          && m.owner < NR_TASKS && n in s.tasks[m.owner].sems
          && (s.tasks[m.owner].state == StInvalid ==> !on && m.owner == s.cur))
  }

  ghost predicate OwnOk(s: Sched, t: nat)
    requires Shape(s) && t < NR_TASKS
  {
    && Distinct(s.tasks[t].sems)
    && (forall n :: n in s.tasks[t].sems ==> n < NR_SEMAPHORES && s.sems[n].used && s.sems[n].owner == t)
  }

  ghost predicate Ownership(s: Sched, on: bool)
    requires Shape(s)
  {
    && (forall n :: 0 <= n < NR_SEMAPHORES ==> SemOk(s, on, n))
    && (forall t :: 0 <= t < NR_TASKS ==> OwnOk(s, t))
    && s.tasks[s.idle].sems == []
  }

  ghost predicate Alive(s: Sched, on: bool, t: nat)
    requires Shape(s)
  {
    t < NR_TASKS && (s.tasks[t].state != StInvalid || (!on && t == s.cur))
  }

  /** Live tasks are told apart by their PIDs. */
  ghost predicate Pids(s: Sched, on: bool)
    requires Shape(s)
  {
    && (forall t: nat :: Alive(s, on, t) ==> s.tasks[t].pid < s.lastPid)
    && (forall t: nat, u: nat :: Alive(s, on, t) && Alive(s, on, u) && t != u ==> s.tasks[t].pid != s.tasks[u].pid)
  }

  /** The deletion mark is only on waiters that were thrown out and have not run since. */
  ghost predicate Marks(s: Sched)
    requires Shape(s)
  {
    forall t :: 0 <= t < NR_TASKS && s.tasks[t].semDeleted ==>
      t != s.idle && s.tasks[t].state == StReady && s.tasks[t].cont.InWait?
  }

  ghost predicate Good(s: Sched, on: bool)
    ensures Good(s, on) ==> Shape(s)
  {
    && Shape(s)
    && FreeQueue(s) && ReadyQueue(s) && BlockedQueues(s)
    && OnCpu(s, on) && Ownership(s, on) && Pids(s, on) && Marks(s)
  }

  /** The invariant between kernel entries. */
  ghost predicate SInv(s: Sched)
    ensures SInv(s) ==> Shape(s)
  {
    Good(s, true)
  }

  // ---------------------------------------------------------------- sequences

  lemma DistinctTail(q: seq<nat>)
    requires q != [] && Distinct(q)
    ensures Distinct(q[1..]) && q[0] !in q[1..]
    ensures forall x :: x in q <==> x == q[0] || x in q[1..]
  {
    assert q == [q[0]] + q[1..];
  }

  lemma DistinctSnoc(q: seq<nat>, x: nat)
    requires Distinct(q) && x !in q
    ensures Distinct(q + [x])
    ensures forall y :: y in q + [x] <==> y in q || y == x
  {
  }

  lemma DistinctConcat(q: seq<nat>, r: seq<nat>)
    requires Distinct(q) && Distinct(r) && (forall x :: x in q ==> x !in r)
    ensures Distinct(q + r)
    ensures forall y :: y in q + r <==> y in q || y in r
  {
    forall i, j | 0 <= i < j < |q + r|
      ensures (q + r)[i] != (q + r)[j]
    {
      if i < |q| <= j {
        assert q[i] in q && r[j - |q|] in r;
      }
    }
  }

  lemma {:induction false} WithoutExact(q: seq<nat>, x: nat)
    requires Distinct(q)
    ensures Distinct(Without(q, x)) && x !in Without(q, x)
    ensures forall y :: y in Without(q, x) <==> y in q && y != x
  {
    if q != [] {
      DistinctTail(q);
      if q[0] != x {
        WithoutExact(q[1..], x);
        var r := Without(q[1..], x);
        assert Without(q, x) == [q[0]] + r;
      }
    }
  }

  // ---------------------------------------------------------------- dispatching

  /** The queue side of a dispatch, without the ticks and the deletion mark. */
  function TakeNext(s: Sched): (r: Sched)
    requires Shape(s)
    ensures Shape(r)
  {
    var t := Next(s);
    s.(ready := if s.ready != [] then s.ready[1..] else [],
       tasks := s.tasks[t := s.tasks[t].(state := StRun)], cur := t, ticks := 0)
  }

  ghost predicate Retired(s: Sched)
    requires Shape(s)
  {
    s.tasks[s.cur].state == StInvalid ==> s.tasks[s.cur].sems == []
  }

  lemma TakeNextQueues(s: Sched)
    requires Good(s, false)
    ensures FreeQueue(TakeNext(s)) && ReadyQueue(TakeNext(s)) && OnCpu(TakeNext(s), true)
  {
    hide Ownership, Pids, Marks, BlockedQueues;
    if s.ready != [] {
      DistinctTail(s.ready);
    }
  }

  lemma TakeNextBlocked(s: Sched)
    requires Good(s, false)
    ensures BlockedQueues(TakeNext(s))
  {
    var s' := TakeNext(s);
    hide Ownership, Pids, Marks, FreeQueue;
    forall n | 0 <= n < NR_SEMAPHORES
      ensures BlockedOn(s', n)
    {
      assert BlockedOn(s, n);
    }
    forall t | 0 <= t < NR_TASKS && s'.tasks[t].state == StBlocked
      ensures WaitsSomewhere(s', t)
    {
      assert WaitsSomewhere(s, t);
    }
  }

  lemma TakeNextOwners(s: Sched)
    requires Good(s, false) && Retired(s)
    ensures Ownership(TakeNext(s), true) && Pids(TakeNext(s), true)
  {
    var s' := TakeNext(s);
    hide ReadyQueue, BlockedQueues, Marks, FreeQueue;
    forall n | 0 <= n < NR_SEMAPHORES
      ensures SemOk(s', true, n)
    {
      assert SemOk(s, false, n);
    }
    forall t | 0 <= t < NR_TASKS
      ensures OwnOk(s', t)
    {
      assert OwnOk(s, t);
    }
    forall t: nat | Alive(s', true, t)
      ensures Alive(s, false, t)
    {
      assert t != Next(s) ==> s'.tasks[t] == s.tasks[t];
    }
  }

  lemma TakeNextMarks(s: Sched)
    requires Good(s, false)
    ensures var s' := TakeNext(s);
      forall t :: 0 <= t < NR_TASKS && s'.tasks[t].semDeleted ==>
        t != s.idle && s'.tasks[t].cont.InWait? && (s'.tasks[t].state == StReady || t == s'.cur)
  {
    hide Ownership, Pids, FreeQueue, BlockedQueues;
  }

  /** Ticks and cleared marks do not matter to anything else. */
  ghost predicate Cosmetic(s: Sched, s': Sched) {
    && s' == s.(tasks := s'.tasks, ticks := s'.ticks) && |s'.tasks| == |s.tasks|
    && forall t :: 0 <= t < |s.tasks| ==>
         s'.tasks[t] == s.tasks[t].(remaining := s'.tasks[t].remaining, semDeleted := s'.tasks[t].semDeleted)
  }

  lemma CosmeticKeeps(s: Sched, s': Sched, on: bool)
    requires Shape(s) && Cosmetic(s, s')
    ensures Shape(s')
    ensures FreeQueue(s) ==> FreeQueue(s')
    ensures ReadyQueue(s) ==> ReadyQueue(s')
    ensures OnCpu(s, on) ==> OnCpu(s', on)
  {
  }

  lemma CosmeticSems(s: Sched, s': Sched, on: bool)
    requires Shape(s) && Shape(s') && Cosmetic(s, s')
    ensures BlockedQueues(s) ==> BlockedQueues(s')
    ensures Ownership(s, on) ==> Ownership(s', on)
    ensures Pids(s, on) ==> Pids(s', on)
  {
    assert forall n :: 0 <= n < NR_SEMAPHORES ==> (BlockedOn(s, n) ==> BlockedOn(s', n));
    assert forall t :: 0 <= t < NR_TASKS ==> (WaitsSomewhere(s, t) ==> WaitsSomewhere(s', t));
    assert forall n :: 0 <= n < NR_SEMAPHORES ==> (SemOk(s, on, n) ==> SemOk(s', on, n));
    assert forall t :: 0 <= t < NR_TASKS ==> (OwnOk(s, t) ==> OwnOk(s', t));
    assert forall t: nat :: Alive(s, on, t) <==> Alive(s', on, t);
  }

  lemma RescheduleShape(s: Sched)
    requires Shape(s)
    ensures Cosmetic(TakeNext(s), Reschedule(s).0)
    ensures forall t :: 0 <= t < NR_TASKS && Reschedule(s).0.tasks[t].semDeleted ==>
      TakeNext(s).tasks[t].semDeleted && !(t == Next(s) && TakeNext(s).tasks[t].cont.InWait?)
  {
  }

  /** A dispatch ends with the chosen task on the CPU. */
  lemma RescheduleKeeps(s: Sched)
    requires Good(s, false) && Retired(s)
    ensures SInv(Reschedule(s).0) && Reschedule(s).0.cur == Next(s)
  {
    TakeNextQueues(s);
    TakeNextBlocked(s);
    TakeNextOwners(s);
    TakeNextMarks(s);
    RescheduleShape(s);
    var s1, s' := TakeNext(s), Reschedule(s).0;
    hide Good, TakeNext, Reschedule, FreeQueue, ReadyQueue, BlockedQueues, OnCpu, Ownership, Pids;
    CosmeticKeeps(s1, s', true);
    CosmeticSems(s1, s', true);
    assert SInv(s') by {
      GoodFrom(s', true);
    }
  }

  lemma GoodFrom(s: Sched, on: bool)
    requires Shape(s) && FreeQueue(s) && ReadyQueue(s) && BlockedQueues(s)
    requires OnCpu(s, on) && Ownership(s, on) && Pids(s, on) && Marks(s)
    ensures Good(s, on)
  {
  }
}
