/**
 Whole runs of the semaphores: conservation of units, first-come-first-served release, and
 the results of waits that blocked.
 */
module SemHistory {
  import opened Basics
  import opened Sched
  import opened SchedInvariant
  import opened SchedSteps

  // ---------------------------------------------------------------- runs

  predicate AllEnabled(s: Sched, ops: seq<Op>)
    requires Shape(s)
    decreases |ops|
  {
    ops != [] ==> Enabled(s, ops[0]) && AllEnabled(Step(s, ops[0]).0, ops[1..])
  }

  function Run(s: Sched, ops: seq<Op>): (r: (Sched, seq<Ev>))
    requires Shape(s) && AllEnabled(s, ops)
    ensures Shape(r.0)
    decreases |ops|
  {
    if ops == [] then (s, [])
    else
      var (s1, evs) := Step(s, ops[0]);
      var (s2, evs') := Run(s1, ops[1..]);
      (s2, evs + evs')
  }

  lemma {:induction false} RunKeeps(s: Sched, ops: seq<Op>)
    requires SInv(s) && AllEnabled(s, ops)
    ensures SInv(Run(s, ops).0)
    decreases |ops|
  {
    hide SInv, Step, Enabled;
    if ops != [] {
      StepKeeps(s, ops[0]);
      RunKeeps(Step(s, ops[0]).0, ops[1..]);
    }
  }

  // ---------------------------------------------------------------- the history of one semaphore

  /** Since the last creation: initial value, signals, grants, who parked and who was handed a unit. */
  datatype Hist = Hist(init: int, signals: nat, grants: nat, parked: seq<nat>, released: seq<nat>)

  function HistNext(n: nat, h: Hist, e: Ev): (r: Hist) {
    match e
    case Create(m, v) => if m == n then Hist(v, 0, 0, [], []) else h
    case Grant(t, m) => if m == n then h.(grants := h.grants + 1) else h
    case Park(t, m) => if m == n then h.(parked := h.parked + [t]) else h
    case Post(m) => if m == n then h.(signals := h.signals + 1) else h
    case Handoff(t, m) =>
      if m == n then h.(signals := h.signals + 1, grants := h.grants + 1, released := h.released + [t]) else h
    case _ => h
  }

  function HistFold(n: nat, h: Hist, evs: seq<Ev>): (r: Hist)
    decreases |evs|
  {
    if evs == [] then h else HistFold(n, HistNext(n, h, evs[0]), evs[1..])
  }

  lemma {:induction false} HistAppend(n: nat, h: Hist, a: seq<Ev>, b: seq<Ev>)
    ensures HistFold(n, h, a + b) == HistFold(n, HistFold(n, h, a), b)
    decreases |a|
  {
    if a == [] {
      assert a + b == b;
    } else {
      assert (a + b)[0] == a[0] && (a + b)[1..] == a[1..] + b;
      HistAppend(n, HistNext(n, h, a[0]), a[1..], b);
    }
  }

  /** Events that concern no semaphore count. */
  predicate Neutral(evs: seq<Ev>) {
    forall i :: 0 <= i < |evs| ==> evs[i].Acct? || evs[i].Dispatch? || evs[i].Abort? || evs[i].Resume?
  }

  lemma {:induction false} NeutralFold(n: nat, h: Hist, evs: seq<Ev>)
    requires Neutral(evs)
    ensures HistFold(n, h, evs) == h
    decreases |evs|
  {
    if evs != [] {
      NeutralFold(n, h, evs[1..]);
    }
  }

  lemma RescheduleNeutral(s: Sched)
    requires Shape(s)
    ensures Neutral(Reschedule(s).1) && Reschedule(s).0.sems == s.sems
  {
  }

  lemma {:induction false} WakeEvsNeutral(ws: seq<nat>, n: nat)
    ensures Neutral(WakeEvs(ws, n))
  {
    if ws != [] {
      WakeEvsNeutral(ws[1..], n);
    }
  }

  lemma {:induction false} DestroyEvsNeutral(s: Sched, ns: seq<nat>)
    requires Shape(s) && forall i :: 0 <= i < |ns| ==> ns[i] < NR_SEMAPHORES
    ensures Neutral(DestroyEvs(s, ns))
  {
    if ns != [] {
      WakeEvsNeutral(s.sems[ns[0]].blocked, ns[0]);
      DestroyEvsNeutral(s, ns[1..]);
    }
  }

  /** A call that ends where it began: only its own event counts. */
  lemma QuietFold(s: Sched, r: int, evs: seq<Ev>, n: nat, h: Hist)
    ensures HistFold(n, h, Quiet(s, r, evs).2) == HistFold(n, h, evs)
  {
    var a, z := [Acct(s.cur, UserToSys)], [Acct(s.cur, SysToUser)];
    HistAppend(n, h, a + evs, z);
    HistAppend(n, h, a, evs);
    NeutralFold(n, h, a);
    NeutralFold(n, HistFold(n, h, evs), z);
  }

  lemma OneEvent(n: nat, h: Hist, e: Ev)
    ensures HistFold(n, h, [e]) == HistNext(n, h, e)
  {
    assert [e][1..] == [];
  }

  // ---------------------------------------------------------------- the law

  /**
   Units are conserved: the count is what was there plus what was signalled minus what was granted, as
   an `int`. It is exactly that while the difference fits one. And whoever parked was released in that
   order, except for those still waiting.
   */
  ghost predicate HistOk(m: Sem, h: Hist) {
    m.used ==>
      && m.count == Int32(h.init + h.signals - h.grants)
      && h.parked == h.released + m.blocked
  }

  ghost predicate Conserved(s: Sched, r: Sched, evs: seq<Ev>, n: nat)
    requires Shape(s) && Shape(r) && n < NR_SEMAPHORES
  {
    forall h :: HistOk(s.sems[n], h) ==> HistOk(r.sems[n], HistFold(n, h, evs))
  }

  lemma NeutralConserves(s: Sched, r: Sched, evs: seq<Ev>, n: nat)
    requires Shape(s) && Shape(r) && n < NR_SEMAPHORES && Neutral(evs)
    requires r.sems[n] == s.sems[n] || !r.sems[n].used
    ensures Conserved(s, r, evs, n)
  {
    forall h | HistOk(s.sems[n], h)
      ensures HistOk(r.sems[n], HistFold(n, h, evs))
    {
      NeutralFold(n, h, evs);
    }
  }

  lemma TickConserves(s: Sched, n: nat)
    requires Shape(s) && n < NR_SEMAPHORES
    ensures Conserved(s, Tick(s).0, Tick(s).1, n)
  {
    hide Tick;
    TickNeutral(s);
    NeutralConserves(s, Tick(s).0, Tick(s).1, n);
  }

  lemma TickNeutral(s: Sched)
    requires Shape(s)
    ensures Neutral(Tick(s).1) && Tick(s).0.sems == s.sems
  {
    hide Reschedule;
    var s1 := RefreshTicks(s.(ticks := s.ticks + 1));
    RescheduleNeutral(Preempt(s1));
  }

  lemma SpawnConserves(s: Sched, n: nat)
    requires Shape(s) && n < NR_SEMAPHORES
    ensures Conserved(s, Spawn(s).0, Spawn(s).2, n)
  {
    NeutralConserves(s, Spawn(s).0, Spawn(s).2, n);
  }

  lemma SemInitConserves(s: Sched, k: int, v: int, n: nat)
    requires Shape(s) && n < NR_SEMAPHORES && 0 <= v < 0x1_0000_0000
    ensures Conserved(s, SemInit(s, k, v).0, SemInit(s, k, v).2, n)
  {
    var (r, res, evs) := SemInit(s, k, v);
    forall h | HistOk(s.sems[n], h)
      ensures HistOk(r.sems[n], HistFold(n, h, evs))
    {
      if BadSem(k) || s.sems[k].used {
        QuietFold(s, res, [], n, h);
      } else {
        QuietFold(r, res, [Create(k, Int32(v))], n, h);
        OneEvent(n, h, Create(k, Int32(v)));
      }
    }
  }

  lemma SemWaitConserves(s: Sched, k: int, n: nat)
    requires Shape(s) && n < NR_SEMAPHORES
    ensures Conserved(s, SemWait(s, k).0, SemWait(s, k).2, n)
  {
    var (r, res, evs) := SemWait(s, k);
    forall h | HistOk(s.sems[n], h)
      ensures HistOk(r.sems[n], HistFold(n, h, evs))
    {
      if BadSem(k) || !s.sems[k].used {
        QuietFold(s, -EINVAL, [], n, h);
      } else if s.sems[k].count == 0 {
        ParkFold(s, k, n, h);
      } else {
        QuietFold(r, 0, [Grant(s.cur, k)], n, h);
        OneEvent(n, h, Grant(s.cur, k));
        Int32Step(h.init + h.signals - h.grants, -1);
      }
    }
  }

  lemma ParkFold(s: Sched, k: nat, n: nat, h: Hist)
    requires Shape(s) && n < NR_SEMAPHORES && k < NR_SEMAPHORES && s.sems[k].used && s.sems[k].count == 0
    requires HistOk(s.sems[n], h)
    ensures HistOk(SemWait(s, k).0.sems[n], HistFold(n, h, SemWait(s, k).2))
  {
    var s1 := Block(s, k);
    RescheduleNeutral(s1);
    hide Reschedule;
    var a := [Acct(s.cur, UserToSys), Park(s.cur, k), Acct(s.cur, SysToBlocked)];
    HistAppend(n, h, a, Reschedule(s1).1);
    NeutralFold(n, HistFold(n, h, a), Reschedule(s1).1);
    assert a == [Acct(s.cur, UserToSys)] + [Park(s.cur, k)] + [Acct(s.cur, SysToBlocked)];
    HistAppend(n, h, [Acct(s.cur, UserToSys)] + [Park(s.cur, k)], [Acct(s.cur, SysToBlocked)]);
    HistAppend(n, h, [Acct(s.cur, UserToSys)], [Park(s.cur, k)]);
    OneEvent(n, h, Acct(s.cur, UserToSys));
    OneEvent(n, h, Park(s.cur, k));
    OneEvent(n, HistNext(n, h, Park(s.cur, k)), Acct(s.cur, SysToBlocked));
  }

  lemma SemSignalConserves(s: Sched, k: int, n: nat)
    requires Shape(s) && n < NR_SEMAPHORES
    ensures Conserved(s, SemSignal(s, k).0, SemSignal(s, k).2, n)
  {
    var (r, res, evs) := SemSignal(s, k);
    forall h | HistOk(s.sems[n], h)
      ensures HistOk(r.sems[n], HistFold(n, h, evs))
    {
      if BadSem(k) || !s.sems[k].used {
        QuietFold(s, res, [], n, h);
      } else if s.sems[k].blocked == [] {
        QuietFold(r, res, [Post(k)], n, h);
        OneEvent(n, h, Post(k));
        Int32Step(h.init + h.signals - h.grants, 1);
      } else {
        var b := s.sems[k].blocked;
        QuietFold(r, res, [Handoff(b[0], k), Acct(b[0], BlockedToReady)], n, h);
        assert [Handoff(b[0], k), Acct(b[0], BlockedToReady)] == [Handoff(b[0], k)] + [Acct(b[0], BlockedToReady)];
        HistAppend(n, h, [Handoff(b[0], k)], [Acct(b[0], BlockedToReady)]);
        OneEvent(n, h, Handoff(b[0], k));
        OneEvent(n, HistNext(n, h, Handoff(b[0], k)), Acct(b[0], BlockedToReady));
        assert b == [b[0]] + b[1..];
        assert h.released + b == h.released + [b[0]] + b[1..];
      }
    }
  }

  lemma SemDestroyConserves(s: Sched, k: int, n: nat)
    requires Shape(s) && n < NR_SEMAPHORES
    ensures Conserved(s, SemDestroy(s, k).0, SemDestroy(s, k).2, n)
  {
    hide Destroy;
    if !BadSem(k) && s.sems[k].used && MayDestroy(s, k) {
      DestroyExact(s, k);
      WakeEvsNeutral(s.sems[k].blocked, k);
    }
    NeutralConserves(s, SemDestroy(s, k).0, SemDestroy(s, k).2, n);
  }

  lemma ExitConserves(s: Sched, n: nat)
    requires SInv(s) && s.cur != s.idle && n < NR_SEMAPHORES
    ensures Conserved(s, Exit(s).0, Exit(s).1, n)
  {
    hide DestroyEach, Reschedule, AllGone, Good, Dying;
    ExitGone(s);
    var s1, ns := Retire(s), s.tasks[s.cur].sems;
    var (s2, evs) := DestroyEach(s1, ns);
    GoneSems(s1, ns, s2, evs);
    RescheduleNeutral(s2);
    NeutralConserves(s, Exit(s).0, Exit(s).1, n);
  }

  /** `sys_exit` as the proofs see it: retire, destroy what is owned, dispatch. */
  lemma ExitGone(s: Sched)
    requires SInv(s) && s.cur != s.idle
    ensures var s1, ns := Retire(s), s.tasks[s.cur].sems;
      var (s2, evs) := DestroyEach(s1, ns);
      && Dying(s1, ns) && Dying(s2, []) && AllGone(s1, ns, s2, evs)
      && Exit(s) == (Reschedule(s2).0, [Acct(s.cur, UserToSys)] + evs + Reschedule(s2).1)
  {
    var s1 := Retire(s);
    RetireQueues(s);
    RetireSems(s);
    hide FreeQueue, ReadyQueue, BlockedQueues, OnCpu, Ownership, Pids, Marks, Shape, DestroyEach, Reschedule;
    GoodFrom(s1, false);
    DestroyEachExact(s1, s.tasks[s.cur].sems);
    var s2 := DestroyEach(s1, s.tasks[s.cur].sems).0;
    assert SetTask(s2, s2.cur, s2.tasks[s2.cur].(sems := [])) == s2;
  }

  lemma GoneSems(s: Sched, ns: seq<nat>, s': Sched, evs: seq<Ev>)
    requires Shape(s) && AllGone(s, ns, s', evs)
    ensures Neutral(evs) && |s'.sems| == NR_SEMAPHORES
    ensures forall i :: 0 <= i < NR_SEMAPHORES ==> s'.sems[i] == s.sems[i] || !s'.sems[i].used
  {
    DestroyEvsNeutral(s, ns);
  }

  lemma StepConserves(s: Sched, op: Op, n: nat)
    requires SInv(s) && Enabled(s, op) && n < NR_SEMAPHORES
    ensures Conserved(s, Step(s, op).0, Step(s, op).1, n)
  {
    hide SInv, Tick, Spawn, Exit, SemInit, SemWait, SemSignal, SemDestroy, Conserved;
    match op
    case ClockTick => TickConserves(s, n);
    case SysSpawn => SpawnConserves(s, n);
    case SysExit => ExitConserves(s, n);
    case SysSemInit(k, v) => SemInitConserves(s, k, v, n);
    case SysSemWait(k) => SemWaitConserves(s, k, n);
    case SysSemSignal(k) => SemSignalConserves(s, k, n);
    case SysSemDestroy(k) => SemDestroyConserves(s, k, n);
    case SysGetStats(pid) => NeutralConserves(s, Step(s, op).0, Step(s, op).1, n);
    case SysOther => NeutralConserves(s, Step(s, op).0, Step(s, op).1, n);
  }

  /** Conservation and first-come-first-served release over every run. */
  lemma {:induction false} RunConserves(s: Sched, ops: seq<Op>, n: nat, h: Hist)
    requires SInv(s) && AllEnabled(s, ops) && n < NR_SEMAPHORES && HistOk(s.sems[n], h)
    ensures HistOk(Run(s, ops).0.sems[n], HistFold(n, h, Run(s, ops).1))
    decreases |ops|
  {
    hide SInv, Step, Enabled, HistOk;
    if ops != [] {
      StepConserves(s, ops[0], n);
      StepKeeps(s, ops[0]);
      var (s1, evs) := Step(s, ops[0]);
      RunConserves(s1, ops[1..], n, HistFold(n, h, evs));
      HistAppend(n, h, evs, Run(s1, ops[1..]).1);
    }
  }

  // ---------------------------------------------------------------- counts below zero

  ghost predicate CountsOk(s: Sched)
    requires Shape(s)
  {
    forall n :: 0 <= n < NR_SEMAPHORES && s.sems[n].used ==> s.sems[n].count >= 0
  }

  /** `sys_sem_init` accepts a value that does not fit an `int`: its test `value < 0` can never fail. */
  predicate CreatesNegative(s: Sched, op: Op)
    requires Shape(s)
  {
    op.SysSemInit? && !BadSem(op.n) && !s.sems[op.n].used && op.v >= TWO31
  }

  /** A signal that nobody waits for, at the largest `int`. */
  predicate Overflows(s: Sched, op: Op)
    requires Shape(s)
  {
    && op.SysSemSignal? && !BadSem(op.n) && s.sems[op.n].used
    && s.sems[op.n].blocked == [] && s.sems[op.n].count == TWO31 - 1
  }

  lemma ExitCounts(s: Sched)
    requires SInv(s) && s.cur != s.idle && CountsOk(s)
    ensures CountsOk(Exit(s).0)
  {
    hide DestroyEach, Reschedule, AllGone, Good, Dying, Exit;
    ExitGone(s);
    var (s2, evs) := DestroyEach(Retire(s), s.tasks[s.cur].sems);
    GoneSems(Retire(s), s.tasks[s.cur].sems, s2, evs);
    RescheduleNeutral(s2);
  }

  lemma WaitCounts(s: Sched, k: int)
    requires Shape(s) && CountsOk(s)
    ensures CountsOk(SemWait(s, k).0)
  {
    hide Reschedule, Int32;
    if !BadSem(k) {
      RescheduleNeutral(Block(s, k));
    }
  }

  lemma SignalCounts(s: Sched, k: int)
    requires Shape(s) && CountsOk(s)
    ensures CountsOk(SemSignal(s, k).0) <==> !Overflows(s, SysSemSignal(k))
  {
    if Overflows(s, SysSemSignal(k)) {
      assert SemSignal(s, k).0.sems[k].count < 0;
    }
  }

  lemma DestroyCounts(s: Sched, k: int)
    requires Shape(s) && CountsOk(s)
    ensures CountsOk(SemDestroy(s, k).0)
  {
    hide Destroy;
    if !BadSem(k) {
      DestroyExact(s, k);
    }
  }

  lemma InitCounts(s: Sched, k: int, v: int)
    requires Shape(s) && CountsOk(s) && 0 <= v < 0x1_0000_0000
    ensures CountsOk(SemInit(s, k, v).0) <==> !CreatesNegative(s, SysSemInit(k, v))
  {
    if CreatesNegative(s, SysSemInit(k, v)) {
      assert SemInit(s, k, v).0.sems[k].count < 0;
    }
  }

  lemma StepCounts(s: Sched, op: Op)
    requires SInv(s) && Enabled(s, op) && CountsOk(s)
    ensures CountsOk(Step(s, op).0) <==> !CreatesNegative(s, op) && !Overflows(s, op)
  {
    hide SInv, Tick, Exit, SemInit, SemWait, SemSignal, SemDestroy;
    match op
    case ClockTick => TickNeutral(s);
    case SysExit => ExitCounts(s);
    case SysSemInit(k, v) => InitCounts(s, k, v);
    case SysSemWait(k) => WaitCounts(s, k);
    case SysSemSignal(k) => SignalCounts(s, k);
    case SysSemDestroy(k) => DestroyCounts(s, k);
    case _ =>
  }

  /** The count of every used semaphore is non-negative in every state of the run. */
  ghost predicate CountsAlwaysOk(s: Sched, ops: seq<Op>)
    requires Shape(s) && AllEnabled(s, ops)
    decreases |ops|
  {
    CountsOk(s) && (ops != [] ==> CountsAlwaysOk(Step(s, ops[0]).0, ops[1..]))
  }

  /** No step of the run creates a negative count or counts past the largest `int`. */
  ghost predicate NeverLeavesRange(s: Sched, ops: seq<Op>)
    requires Shape(s) && AllEnabled(s, ops)
    decreases |ops|
  {
    ops != [] ==>
      !CreatesNegative(s, ops[0]) && !Overflows(s, ops[0]) && NeverLeavesRange(Step(s, ops[0]).0, ops[1..])
  }

  /**
   Over every run: no count is ever negative iff no semaphore is created with a value of 2^31 or more
   and no signal without waiters meets the count 2^31 - 1.
   */
  lemma {:induction false} CountsStayNonNegative(s: Sched, ops: seq<Op>)
    requires SInv(s) && AllEnabled(s, ops) && CountsOk(s)
    ensures CountsAlwaysOk(s, ops) <==> NeverLeavesRange(s, ops)
    decreases |ops|
  {
    hide SInv, Step, Enabled, CountsOk, CreatesNegative, Overflows;
    if ops != [] {
      StepKeeps(s, ops[0]);
      StepCounts(s, ops[0]);
      if CountsOk(Step(s, ops[0]).0) {
        CountsStayNonNegative(Step(s, ops[0]).0, ops[1..]);
      }
    }
  }

  /** A wait at a negative count goes through, and the count stays negative iff it was not the smallest `int`. */
  lemma NegativeCountNeverBlocks(s: Sched, n: nat)
    requires SInv(s) && n < NR_SEMAPHORES && s.sems[n].used && s.sems[n].count < 0
    ensures SemWait(s, n).1 == Some(0)
    ensures SemWait(s, n).0.sems[n].count < 0 <==> s.sems[n].count != -TWO31
  {
  }
}
