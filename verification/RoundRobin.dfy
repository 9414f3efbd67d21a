/**
 Fairness of `sched_next_rr`: tasks are dispatched in queue order, and a ready task waits no longer
 than what is left to the running task plus one quantum for each task ahead.
 */
module RoundRobin {
  import opened Basics
  import opened Sched
  import opened SchedInvariant
  import opened SchedSteps
  import opened SemHistory
  import opened TaskHistory

  function Dispatches(evs: seq<Ev>): (r: seq<nat>)
    decreases |evs|
  {
    if evs == [] then [] else (if evs[0].Dispatch? then [evs[0].t] else []) + Dispatches(evs[1..])
  }

  lemma {:induction false} DispatchesAppend(a: seq<Ev>, b: seq<Ev>)
    ensures Dispatches(a + b) == Dispatches(a) + Dispatches(b)
    decreases |a|
  {
    if a == [] {
      assert a + b == b;
    } else {
      assert (a + b)[0] == a[0] && (a + b)[1..] == a[1..] + b;
      DispatchesAppend(a[1..], b);
    }
  }

  predicate NoDispatch(evs: seq<Ev>) {
    forall i :: 0 <= i < |evs| ==> !evs[i].Dispatch?
  }

  lemma {:induction false} NoDispatches(evs: seq<Ev>)
    requires NoDispatch(evs)
    ensures Dispatches(evs) == []
    decreases |evs|
  {
    if evs != [] {
      NoDispatches(evs[1..]);
    }
  }

  lemma RescheduleDispatches(s: Sched)
    requires Shape(s)
    ensures Dispatches(Reschedule(s).1) == [Next(s)]
  {
    var evs := Reschedule(s).1;
    assert evs == [Dispatch(Next(s))] + evs[1..];
    NoDispatches(evs[1..]);
  }

  lemma {:induction false} WakeNoDispatch(ws: seq<nat>, n: nat)
    ensures NoDispatch(WakeEvs(ws, n))
  {
    if ws != [] {
      WakeNoDispatch(ws[1..], n);
    }
  }

  lemma {:induction false} DestroyNoDispatch(s: Sched, ns: seq<nat>)
    requires Shape(s) && forall i :: 0 <= i < |ns| ==> ns[i] < NR_SEMAPHORES
    ensures NoDispatch(DestroyEvs(s, ns))
  {
    if ns != [] {
      WakeNoDispatch(s.sems[ns[0]].blocked, ns[0]);
      DestroyNoDispatch(s, ns[1..]);
    }
  }

  // ---------------------------------------------------------------- time

  function AtLeastOne(x: int): (r: nat) {
    if x >= 1 then x else 1
  }

  /** Ticks the running task may still keep the CPU once somebody is ready. */
  function Left(s: Sched): (r: nat)
    requires Shape(s)
  {
    if s.cur == s.idle then 1 else AtLeastOne(s.tasks[s.cur].quantum - s.ticks)
  }

  function Ahead(s: Sched, q: seq<nat>): (r: nat)
    requires Shape(s) && forall i :: 0 <= i < |q| ==> q[i] < NR_TASKS
  {
    if q == [] then 0 else AtLeastOne(s.tasks[q[0]].quantum) + Ahead(s, q[1..])
  }

  /** The waiting bound of the task at position `i` of the ready queue. */
  function Bound(s: Sched, i: nat): (r: nat)
    requires Shape(s) && i < |s.ready|
  {
    Left(s) + Ahead(s, s.ready[..i])
  }

  ghost predicate QuantumsKept(s: Sched, s': Sched)
    requires Shape(s) && Shape(s')
  {
    forall t :: 0 <= t < NR_TASKS && s.tasks[t].state != StInvalid ==> s'.tasks[t].quantum == s.tasks[t].quantum
  }

  lemma {:induction false} AheadSame(s: Sched, s': Sched, q: seq<nat>)
    requires Shape(s) && Shape(s') && QuantumsKept(s, s')
    requires forall i :: 0 <= i < |q| ==> q[i] < NR_TASKS && s.tasks[q[i]].state != StInvalid
    ensures Ahead(s', q) == Ahead(s, q)
  {
    if q != [] {
      AheadSame(s, s', q[1..]);
    }
  }

  // ---------------------------------------------------------------- one step

  /**
   The ready queue only loses its head, to a dispatch, and only gains at its tail. `more` is what joins.
   Without a dispatch the running task and its ticks stay, but for the clock itself.
   */
  ghost predicate QueueStep(s: Sched, s': Sched, evs: seq<Ev>, more: seq<nat>, ticks: nat)
    requires Shape(s) && Shape(s')
  {
    && QuantumsKept(s, s') && s'.idle == s.idle
    && (|| (Dispatches(evs) == [] && s'.ready == s.ready + more && s'.cur == s.cur && s'.ticks == s.ticks + ticks
            && (ticks > 0 && s.ready != [] ==> s.cur != s.idle && s.tasks[s.cur].quantum - s'.ticks > 0))
        || (s.ready + more != [] && [s'.cur] + s'.ready == s.ready + more && Dispatches(evs) == [s'.cur] &&
          s'.ticks == 0)
        || (s.ready == [] && more == [] && s'.ready == []))
  }

  lemma RescheduleQueue(s: Sched, s1: Sched, a: seq<Ev>, more: seq<nat>, ticks: nat)
    requires Shape(s) && Shape(s1) && NoDispatch(a) && s1.ready == s.ready + more && QuantumsKept(s, s1)
    requires s1.idle == s.idle
    ensures QueueStep(s, Reschedule(s1).0, a + Reschedule(s1).1, more, ticks)
  {
    RescheduleDispatches(s1);
    NoDispatches(a);
    DispatchesAppend(a, Reschedule(s1).1);
  }

  lemma TickQueue(s: Sched) returns (more: seq<nat>)
    requires SInv(s)
    ensures QueueStep(s, Tick(s).0, Tick(s).1, more, 1)
  {
    hide Good, Reschedule, Tick;
    TickUnfold(s);
    CurRuns(s);
    var s1 := RefreshTicks(s.(ticks := s.ticks + 1));
    var a := [Acct(s.cur, UserToSys), Acct(s.cur, CurrentTicksUpdated)];
    if NeedsSched(s1) {
      more := if s.cur == s.idle then [] else [s.cur];
      assert s.ready + [] == s.ready;
      RescheduleQueue(s, Preempt(s1), a + [Acct(s.cur, SysToReady)], more, 1);
    } else {
      NoDispatches(a + [Acct(s.cur, SysToUser)]);
      assert s.ready + [] == s.ready;
      more := [];
    }
  }

  lemma QuietQueue(s: Sched, s': Sched, evs: seq<Ev>, more: seq<nat>)
    requires Shape(s) && Shape(s') && NoDispatch(evs) && QuantumsKept(s, s')
    requires s'.idle == s.idle && s'.cur == s.cur && s'.ticks == s.ticks && s'.ready == s.ready + more
    ensures QueueStep(s, s', evs, more, 0)
  {
    NoDispatches(evs);
  }

  lemma ExitQueue(s: Sched) returns (more: seq<nat>)
    requires SInv(s) && s.cur != s.idle
    ensures QueueStep(s, Exit(s).0, Exit(s).1, more, 0)
  {
    hide Good, DestroyEach, Reschedule, Dying;
    ExitGone(s);
    CurRuns(s);
    var s1, ns := Retire(s), s.tasks[s.cur].sems;
    var (s2, evs) := DestroyEach(s1, ns);
    DestroyNoDispatch(s1, ns);
    more := Waiters(s1, ns);
    RescheduleQueue(s, s2, [Acct(s.cur, UserToSys)] + evs, more, 0);
  }

  lemma SemDestroyQueue(s: Sched, n: int) returns (more: seq<nat>)
    requires Shape(s)
    ensures QueueStep(s, SemDestroy(s, n).0, SemDestroy(s, n).2, more, 0)
  {
    hide Destroy;
    if !BadSem(n) && s.sems[n].used && MayDestroy(s, n) {
      var ws := s.sems[n].blocked;
      DestroyExact(s, n);
      WakeNoDispatch(ws, n);
      assert ws[..|ws|] == ws;
      more := ws;
      QuietQueue(s, SemDestroy(s, n).0, SemDestroy(s, n).2, more);
    } else {
      assert s.ready + [] == s.ready;
      more := [];
      QuietQueue(s, SemDestroy(s, n).0, SemDestroy(s, n).2, more);
    }
  }

  lemma SemWaitQueue(s: Sched, n: int) returns (more: seq<nat>)
    requires SInv(s)
    ensures QueueStep(s, SemWait(s, n).0, SemWait(s, n).2, more, 0)
  {
    hide Good, Reschedule;
    assert s.ready + [] == s.ready;
    if !BadSem(n) && s.sems[n].used && s.sems[n].count == 0 {
      var a := [Acct(s.cur, UserToSys), Park(s.cur, n), Acct(s.cur, SysToBlocked)];
      more := [];
      RescheduleQueue(s, Block(s, n), a, more, 0);
      assert SemWait(s, n).0 == Reschedule(Block(s, n)).0 && SemWait(s, n).2 == a + Reschedule(Block(s, n)).1;
    } else {
      more := [];
      QuietQueue(s, SemWait(s, n).0, SemWait(s, n).2, more);
    }
  }

  lemma SpawnQueue(s: Sched) returns (more: seq<nat>)
    requires SInv(s)
    ensures QueueStep(s, Spawn(s).0, Spawn(s).2, more, 0)
  {
    hide Ownership, BlockedQueues, Pids, Marks, ReadyQueue;
    if s.freeq == [] {
      assert s.ready + [] == s.ready;
      more := [];
      QuietQueue(s, Spawn(s).0, Spawn(s).2, more);
    } else {
      assert s.freeq[0] in s.freeq;
      more := [s.freeq[0]];
      QuietQueue(s, Spawn(s).0, Spawn(s).2, more);
    }
  }

  lemma SemSignalQueue(s: Sched, n: int) returns (more: seq<nat>)
    requires Shape(s)
    ensures QueueStep(s, SemSignal(s, n).0, SemSignal(s, n).2, more, 0)
  {
    if !BadSem(n) && s.sems[n].used && s.sems[n].blocked != [] {
      more := [s.sems[n].blocked[0]];
      QuietQueue(s, SemSignal(s, n).0, SemSignal(s, n).2, more);
    } else {
      assert s.ready + [] == s.ready;
      more := [];
      QuietQueue(s, SemSignal(s, n).0, SemSignal(s, n).2, more);
    }
  }

  lemma SemInitQueue(s: Sched, n: int, v: int) returns (more: seq<nat>)
    requires Shape(s) && 0 <= v < 0x1_0000_0000
    ensures QueueStep(s, SemInit(s, n, v).0, SemInit(s, n, v).2, more, 0)
  {
    assert s.ready + [] == s.ready;
    more := [];
    QuietQueue(s, SemInit(s, n, v).0, SemInit(s, n, v).2, more);
  }

  lemma GetStatsQueue(s: Sched, pid: int) returns (more: seq<nat>)
    requires Shape(s)
    ensures QueueStep(s, GetStats(s, pid).0, GetStats(s, pid).2, more, 0)
  {
    assert s.ready + [] == s.ready;
    more := [];
    QuietQueue(s, GetStats(s, pid).0, GetStats(s, pid).2, more);
  }

  lemma OtherQueue(s: Sched) returns (more: seq<nat>)
    requires Shape(s)
    ensures QueueStep(s, s, Quiet(s, 0, []).2, more, 0)
  {
    assert s.ready + [] == s.ready;
    more := [];
    QuietQueue(s, s, Quiet(s, 0, []).2, more);
  }

  function Ticks(op: Op): nat {
    if op == ClockTick then 1 else 0
  }

  lemma StepQueue(s: Sched, op: Op) returns (more: seq<nat>)
    requires SInv(s) && Enabled(s, op)
    ensures QueueStep(s, Step(s, op).0, Step(s, op).1, more, Ticks(op))
  {
    hide SInv, Tick, Exit, Spawn, SemWait, SemInit, SemSignal, GetStats, SemDestroy, QueueStep;
    assert Ticks(op) == if op == ClockTick then 1 else 0;
    match op
    case ClockTick => more := TickQueue(s);
    case SysSpawn => more := SpawnQueue(s);
    case SysExit => more := ExitQueue(s);
    case SysSemInit(n, v) => more := SemInitQueue(s, n, v);
    case SysSemWait(n) => more := SemWaitQueue(s, n);
    case SysSemSignal(n) => more := SemSignalQueue(s, n);
    case SysSemDestroy(n) => more := SemDestroyQueue(s, n);
    case SysGetStats(pid) => more := GetStatsQueue(s, pid);
    case SysOther => more := OtherQueue(s);
  }

  // ---------------------------------------------------------------- runs

  /** Where the task at position `i` is one step later. */
  lemma PositionAfter(s: Sched, s': Sched, evs: seq<Ev>, more: seq<nat>, ticks: nat, i: nat)
    requires SInv(s) && SInv(s') && QueueStep(s, s', evs, more, ticks) && i < |s.ready|
    ensures |Dispatches(evs)| <= 1
    ensures i < |Dispatches(evs)| ==> Dispatches(evs)[i] == s.ready[i]
    ensures i >= |Dispatches(evs)| ==>
      i - |Dispatches(evs)| < |s'.ready| && s'.ready[i - |Dispatches(evs)|] == s.ready[i]
  {
    hide Good;
    if Dispatches(evs) != [] {
      assert ([s'.cur] + s'.ready)[i] == (s.ready + more)[i];
    }
  }

  lemma BoundAfter(s: Sched, s': Sched, evs: seq<Ev>, more: seq<nat>, ticks: nat, i: nat)
    requires SInv(s) && SInv(s') && QueueStep(s, s', evs, more, ticks) && i < |s.ready| && ticks <= 1
    requires |Dispatches(evs)| <= i && i - |Dispatches(evs)| < |s'.ready|
    ensures Bound(s', i - |Dispatches(evs)|) + ticks <= Bound(s, i)
  {
    ReadyAlive(s);
    hide Good;
    var d := |Dispatches(evs)|;
    if d == 0 {
      assert s'.ready[..i] == s.ready[..i];
      AheadSame(s, s', s.ready[..i]);
    } else {
      assert ([s'.cur] + s'.ready)[..i] == (s.ready + more)[..i];
      assert ([s'.cur] + s'.ready)[..i] == [s'.cur] + s'.ready[..i - 1];
      assert (s.ready + more)[..i] == s.ready[..i];
      var q := s.ready[..i];
      assert q[0] == s'.cur && q[1..] == s'.ready[..i - 1];
      AheadSame(s, s', q[1..]);
      assert s.tasks[q[0]].quantum == s'.tasks[q[0]].quantum;
    }
  }

  lemma ReadyAlive(s: Sched)
    requires SInv(s)
    ensures forall i :: 0 <= i < |s.ready| ==>
      s.ready[i] < NR_TASKS && s.ready[i] != s.idle && s.tasks[s.ready[i]].state == StReady
  {
    assert forall i :: 0 <= i < |s.ready| ==> s.ready[i] in s.ready;
    hide BlockedQueues, Ownership, Pids, Marks, FreeQueue;
  }

  function TicksIn(ops: seq<Op>): (r: nat)
    decreases |ops|
  {
    if ops == [] then 0 else Ticks(ops[0]) + TicksIn(ops[1..])
  }

  /** Dispatch order is queue order: the j-th dispatch of a run goes to the j-th task of its ready queue. */
  lemma {:induction false} DispatchOrder(s: Sched, ops: seq<Op>, i: nat)
    requires SInv(s) && AllEnabled(s, ops) && i < |s.ready|
    ensures i < |Dispatches(Run(s, ops).1)| ==> Dispatches(Run(s, ops).1)[i] == s.ready[i]
    decreases |ops|
  {
    hide SInv, Step, Enabled, QueueStep;
    if ops != [] {
      StepKeeps(s, ops[0]);
      var (s1, evs) := Step(s, ops[0]);
      var more := StepQueue(s, ops[0]);
      PositionAfter(s, s1, evs, more, Ticks(ops[0]), i);
      DispatchesAppend(evs, Run(s1, ops[1..]).1);
      if i >= |Dispatches(evs)| {
        DispatchOrder(s1, ops[1..], i - |Dispatches(evs)|);
      }
    }
  }

  /** Bounded waiting: within `Bound` clock ticks the task at position `i` has been dispatched. */
  lemma {:induction false} BoundedWaiting(s: Sched, ops: seq<Op>, i: nat)
    requires SInv(s) && AllEnabled(s, ops) && i < |s.ready|
    ensures TicksIn(ops) >= Bound(s, i) ==> i < |Dispatches(Run(s, ops).1)|
    decreases |ops|
  {
    hide SInv, Step, Enabled, QueueStep, Bound;
    if ops == [] {
      BoundPositive(s, i);
    } else {
      StepKeeps(s, ops[0]);
      var (s1, evs) := Step(s, ops[0]);
      var more := StepQueue(s, ops[0]);
      PositionAfter(s, s1, evs, more, Ticks(ops[0]), i);
      DispatchesAppend(evs, Run(s1, ops[1..]).1);
      if i >= |Dispatches(evs)| {
        BoundAfter(s, s1, evs, more, Ticks(ops[0]), i);
        BoundedWaiting(s1, ops[1..], i - |Dispatches(evs)|);
      }
    }
  }

  lemma BoundPositive(s: Sched, i: nat)
    requires Shape(s) && i < |s.ready|
    ensures Bound(s, i) >= 1
  {
  }
}
