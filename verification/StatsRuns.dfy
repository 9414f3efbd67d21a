/**
 The two other fields that `sys_get_stats` shows, over whole runs: how often a task was dispatched, and
 how many ticks of its slice are left.
 */
module StatsRuns {
  import opened Basics
  import opened Sched
  import opened SchedInvariant
  import opened SchedSteps
  import opened SemHistory
  import opened TaskHistory
  import opened RoundRobin
  import opened Stats
  import opened Calls
  import opened Quanta

  // ---------------------------------------------------------------- transitions

  function Arrivals(es: seq<Event>): (r: nat)
    decreases |es|
  {
    if es == [] then 0 else (if es[0] == ReadyToSys then 1 else 0) + Arrivals(es[1..])
  }

  function Events(cs: seq<Call>): (es: seq<Event>)
    ensures |es| == |cs| && forall i :: 0 <= i < |cs| ==> es[i] == cs[i].e
  {
    seq(|cs|, i requires 0 <= i < |cs| => cs[i].e)
  }

  lemma OneMore(a: int, b: int)
    ensures Wrap(Wrap(a + 1) + b) == Wrap(a + 1 + b)
  {
    hide Wrap;
    SameWrap(a + 1);
    SameAdd(Wrap(a + 1), a + 1, b);
  }

  /** Any calls: `total_trans` grows by the number of READY_TO_SYS events, modulo 2^32. */
  lemma {:induction false} TransExact(st: Record, cs: seq<Call>)
    requires Legal(cs)
    ensures UpdateAll(st, cs).trans == Wrap(st.trans + Arrivals(Events(cs)))
    decreases |cs|
  {
    if cs != [] {
      var st1 := Update(st, cs[0]);
      TransExact(st1, cs[1..]);
      assert Events(cs)[1..] == Events(cs[1..]);
      if cs[0].e == ReadyToSys {
        OneMore(st.trans, Arrivals(Events(cs[1..])));
      }
    }
  }

  /** From birth it is that number. */
  lemma TransSinceBirth(birth: Call, cs: seq<Call>)
    requires birth.e == FreeToReady && birth.left < TWO32 && Legal(cs)
    ensures UpdateAll(Update(ZERO, birth), cs).trans == Wrap(Arrivals(Events(cs)))
  {
    TransExact(Update(ZERO, birth), cs);
  }

  /** How often `t` is dispatched in a history. */
  function DispatchesOf(t: nat, evs: seq<Ev>): (r: nat)
    decreases |evs|
  {
    if evs == [] then 0 else (if evs[0] == Dispatch(t) then 1 else 0) + DispatchesOf(t, evs[1..])
  }

  lemma {:induction false} EventsAppend(t: nat, a: seq<Ev>, b: seq<Ev>)
    ensures EventsOf(t, a + b) == EventsOf(t, a) + EventsOf(t, b)
    ensures DispatchesOf(t, a + b) == DispatchesOf(t, a) + DispatchesOf(t, b)
    decreases |a|
  {
    if a == [] {
      assert a + b == b;
    } else {
      assert (a + b)[0] == a[0] && (a + b)[1..] == a[1..] + b;
      EventsAppend(t, a[1..], b);
    }
  }

  lemma {:induction false} ArrivalsAppend(a: seq<Event>, b: seq<Event>)
    ensures Arrivals(a + b) == Arrivals(a) + Arrivals(b)
    decreases |a|
  {
    if a == [] {
      assert a + b == b;
    } else {
      assert (a + b)[0] == a[0] && (a + b)[1..] == a[1..] + b;
      ArrivalsAppend(a[1..], b);
    }
  }

  /** Every dispatch of `t` is an arrival in its statistics, and nothing else is. */
  ghost predicate Paired(t: nat, evs: seq<Ev>) {
    Arrivals(EventsOf(t, evs)) == DispatchesOf(t, evs)
  }

  lemma PairedAppend(t: nat, a: seq<Ev>, b: seq<Ev>)
    requires Paired(t, a) && Paired(t, b)
    ensures Paired(t, a + b)
  {
    EventsAppend(t, a, b);
    ArrivalsAppend(EventsOf(t, a), EventsOf(t, b));
  }

  /** No dispatch, and no event that sets the remaining ticks. */
  predicate Plain(evs: seq<Ev>) {
    forall i :: 0 <= i < |evs| ==>
      !evs[i].Dispatch? && (evs[i].Acct? ==> evs[i].e != ReadyToSys && !SetsLeft(evs[i].e))
  }

  predicate SetsLeft(e: Event) {
    e == CurrentTicksUpdated || e == FreeToReady || e == SysToReady
  }

  predicate NoArrival(evs: seq<Ev>) {
    forall i :: 0 <= i < |evs| ==> !evs[i].Dispatch? && (evs[i].Acct? ==> evs[i].e != ReadyToSys)
  }

  lemma One(t: nat, e: Ev)
    ensures EventsOf(t, [e]) == if e.Acct? && e.t == t then [e.e] else []
    ensures DispatchesOf(t, [e]) == if e == Dispatch(t) then 1 else 0
  {
    assert [e][1..] == [];
  }

  lemma {:induction false} NoArrivalPaired(t: nat, evs: seq<Ev>)
    requires NoArrival(evs)
    ensures Paired(t, evs)
    decreases |evs|
  {
    if evs != [] {
      NoArrivalPaired(t, evs[1..]);
      assert evs == [evs[0]] + evs[1..];
      One(t, evs[0]);
      assert evs[0].Acct? ==> [evs[0].e][1..] == [];
      PairedAppend(t, [evs[0]], evs[1..]);
    }
  }

  lemma ReschedulePaired(s: Sched, t: nat)
    requires Shape(s)
    ensures Paired(t, Reschedule(s).1)
  {
    var evs, n := Reschedule(s).1, Next(s);
    var a, b := [Dispatch(n)] + [Acct(n, ReadyToSys)], evs[2..];
    assert evs == a + b;
    hide Reschedule;
    NoArrivalPaired(t, b);
    One(t, Dispatch(n));
    One(t, Acct(n, ReadyToSys));
    EventsAppend(t, [Dispatch(n)], [Acct(n, ReadyToSys)]);
    assert [ReadyToSys][1..] == [];
    PairedAppend(t, a, b);
  }

  lemma {:induction false} WakePlain(ws: seq<nat>, n: nat)
    ensures Plain(WakeEvs(ws, n))
  {
    if ws != [] {
      WakePlain(ws[1..], n);
    }
  }

  lemma {:induction false} DestroyEvsPlain(s: Sched, ns: seq<nat>)
    requires Shape(s) && forall i :: 0 <= i < |ns| ==> ns[i] < NR_SEMAPHORES
    ensures Plain(DestroyEvs(s, ns))
  {
    if ns != [] {
      WakePlain(s.sems[ns[0]].blocked, ns[0]);
      DestroyEvsPlain(s, ns[1..]);
    }
  }

  /** The events of a step: some that are no arrival and, when the CPU changes hands, those of the dispatch. */
  ghost predicate Split(s: Sched, op: Op, a: seq<Ev>, s1: Sched)
    requires Shape(s) && Enabled(s, op)
  {
    NoArrival(a) && Shape(s1) &&
    if Switches(s, op) then Step(s, op) == (Reschedule(s1).0, a + Reschedule(s1).1)
    else Step(s, op) == (s1, a)
  }

  lemma TickSplit(s: Sched) returns (a: seq<Ev>, s1: Sched)
    requires SInv(s)
    ensures Split(s, ClockTick, a, s1)
    ensures s1 == if Switches(s, ClockTick) then Preempt(RefreshTicks(s.(ticks := s.ticks + 1)))
                  else RefreshTicks(s.(ticks := s.ticks + 1))
    ensures a == [Acct(s.cur, UserToSys), Acct(s.cur, CurrentTicksUpdated)] +
                 [Acct(s.cur, if Switches(s, ClockTick) then SysToReady else SysToUser)]
  {
    hide Good, Reschedule, Tick;
    TickUnfold(s);
    var s0 := RefreshTicks(s.(ticks := s.ticks + 1));
    NeedsIffSwitches(s);
    a := [Acct(s.cur, UserToSys), Acct(s.cur, CurrentTicksUpdated)] +
      [Acct(s.cur, if NeedsSched(s0) then SysToReady else SysToUser)];
    s1 := if NeedsSched(s0) then Preempt(s0) else s0;
  }

  /** What holds before the dispatch, if any: the remaining ticks and quantums are still as they were. */
  ghost predicate Calm(s: Sched, op: Op, a: seq<Ev>, s1: Sched)
    requires Shape(s) && Enabled(s, op)
  {
    Split(s, op, a, s1) && (op == SysSpawn || (Plain(a) && SameNames(s, s1)))
  }

  lemma ExitSplit(s: Sched) returns (a: seq<Ev>, s1: Sched)
    requires SInv(s) && s.cur != s.idle
    ensures Calm(s, SysExit, a, s1)
  {
    hide Good, Reschedule, DestroyEach, Dying;
    ExitGone(s);
    var s0, ns := Retire(s), s.tasks[s.cur].sems;
    DestroyEvsPlain(s0, ns);
    s1 := DestroyEach(s0, ns).0;
    a := [Acct(s.cur, UserToSys)] + DestroyEach(s0, ns).1;
  }

  lemma WaitSplit(s: Sched, n: int) returns (a: seq<Ev>, s1: Sched)
    requires Shape(s) && s.cur != s.idle
    ensures Calm(s, SysSemWait(n), a, s1)
  {
    hide Reschedule;
    if InUse(s, n) && s.sems[n].count == 0 {
      s1 := Block(s, n);
      a := [Acct(s.cur, UserToSys), Park(s.cur, n), Acct(s.cur, SysToBlocked)];
    } else {
      s1, a := SemWait(s, n).0, SemWait(s, n).2;
    }
  }

  lemma InitSplit(s: Sched, n: int, v: int) returns (a: seq<Ev>, s1: Sched)
    requires Shape(s) && Enabled(s, SysSemInit(n, v))
    ensures Calm(s, SysSemInit(n, v), a, s1)
  {
    s1, a := SemInit(s, n, v).0, SemInit(s, n, v).2;
    hide Int32;
  }

  lemma SignalSplit(s: Sched, n: int) returns (a: seq<Ev>, s1: Sched)
    requires Shape(s) && Enabled(s, SysSemSignal(n))
    ensures Calm(s, SysSemSignal(n), a, s1)
  {
    s1, a := SemSignal(s, n).0, SemSignal(s, n).2;
    hide Int32;
  }

  lemma SpawnSplit(s: Sched) returns (a: seq<Ev>, s1: Sched)
    requires Shape(s) && Enabled(s, SysSpawn)
    ensures Calm(s, SysSpawn, a, s1)
  {
    s1, a := Spawn(s).0, Spawn(s).2;
  }

  lemma OtherCallSplit(s: Sched) returns (a: seq<Ev>, s1: Sched)
    requires Shape(s) && Enabled(s, SysOther)
    ensures Calm(s, SysOther, a, s1)
  {
    s1, a := s, Quiet(s, 0, []).2;
  }

  lemma StatsSplit(s: Sched, pid: int) returns (a: seq<Ev>, s1: Sched)
    requires Shape(s) && Enabled(s, SysGetStats(pid))
    ensures Calm(s, SysGetStats(pid), a, s1)
  {
    s1, a := GetStats(s, pid).0, GetStats(s, pid).2;
    hide FindPid;
  }

  /** All steps but the clock's: the events before the dispatch set no remaining ticks either, but for a birth. */
  lemma OtherSplit(s: Sched, op: Op) returns (a: seq<Ev>, s1: Sched)
    requires SInv(s) && Enabled(s, op) && op != ClockTick
    ensures Calm(s, op, a, s1)
  {
    hide SInv, Step, Calm;
    match op
    case SysExit => a, s1 := ExitSplit(s);
    case SysSemWait(n) => a, s1 := WaitSplit(s, n);
    case SysSemDestroy(n) => a, s1 := DestroySplit(s, n);
    case SysSpawn => a, s1 := SpawnSplit(s);
    case SysSemInit(n, v) => a, s1 := InitSplit(s, n, v);
    case SysSemSignal(n) => a, s1 := SignalSplit(s, n);
    case SysGetStats(pid) => a, s1 := StatsSplit(s, pid);
    case SysOther => a, s1 := OtherCallSplit(s);
  }

  lemma DestroyPlain(s: Sched, n: int)
    requires Shape(s)
    ensures Plain(SemDestroy(s, n).2) && NoArrival(SemDestroy(s, n).2)
  {
    hide Destroy, MayDestroy;
    if InUse(s, n) && MayDestroy(s, n) {
      DestroyExact(s, n);
      hide Destroyed;
      WakePlain(s.sems[n].blocked, n);
    }
  }

  lemma DestroySameNames(s: Sched, n: int)
    requires SInv(s)
    ensures SameNames(s, SemDestroy(s, n).0)
  {
    SemDestroyAnswers(s, n);
    hide SInv, SemDestroy;
  }

  lemma DestroySplit(s: Sched, n: int) returns (a: seq<Ev>, s1: Sched)
    requires SInv(s) && s.cur != s.idle
    ensures Calm(s, SysSemDestroy(n), a, s1)
  {
    s1, a := SemDestroy(s, n).0, SemDestroy(s, n).2;
    DestroyPlain(s, n);
    DestroySameNames(s, n);
    hide SInv, SemDestroy, Plain, NoArrival, SameNames;
  }

  lemma StepPaired(s: Sched, op: Op, t: nat)
    requires SInv(s) && Enabled(s, op)
    ensures Paired(t, Step(s, op).1)
  {
    hide SInv, Step, Reschedule, Paired, Switches;
    var a: seq<Ev>, s1: Sched;
    if op == ClockTick {
      a, s1 := TickSplit(s);
    } else {
      a, s1 := OtherSplit(s, op);
    }
    NoArrivalPaired(t, a);
    if Switches(s, op) {
      ReschedulePaired(s1, t);
      PairedAppend(t, a, Reschedule(s1).1);
    }
  }

  lemma {:induction false} RunPaired(s: Sched, ops: seq<Op>, t: nat)
    requires SInv(s) && AllEnabled(s, ops) && InSlice(s)
    ensures Paired(t, Run(s, ops).1)
    decreases |ops|
  {
    hide SInv, Step, Enabled, InSlice;
    if ops != [] {
      StepKeeps(s, ops[0]);
      StepInSlice(s, ops[0]);
      StepPaired(s, ops[0], t);
      RunPaired(Step(s, ops[0]).0, ops[1..], t);
      PairedAppend(t, Step(s, ops[0]).1, Run(Step(s, ops[0]).0, ops[1..]).1);
    }
  }

  // ---------------------------------------------------------------- remaining ticks

  /** What `update_stats` reads at an event: the quantum, and the quantum less `current_ticks`. */
  datatype Reading = Reading(e: Event, quantum: int, left: int)

  /** The readings for `t` in the events of a step, `ticks` being `current_ticks`; a dispatch sets it to 0. */
  function SeenIn(t: nat, quantum: int, ticks: int, evs: seq<Ev>): (rs: seq<Reading>)
    decreases |evs|
  {
    if evs == [] then []
    else if evs[0].Dispatch? then SeenIn(t, quantum, 0, evs[1..])
    else if evs[0].Acct? && evs[0].t == t then
      [Reading(evs[0].e, quantum, quantum - ticks)] + SeenIn(t, quantum, ticks, evs[1..])
    else SeenIn(t, quantum, ticks, evs[1..])
  }

  function Seen(t: nat, s: Sched, ops: seq<Op>): (rs: seq<Reading>)
    requires Shape(s) && AllEnabled(s, ops) && t < NR_TASKS
    decreases |ops|
  {
    if ops == [] then []
    else
      var (s1, evs) := Step(s, ops[0]);
      SeenIn(t, s1.tasks[t].quantum, s.ticks + Ticks(ops[0]), evs) + Seen(t, s1, ops[1..])
  }

  /** The calls of `update_stats` that make these readings, at any time. */
  predicate Reads(cs: seq<Call>, rs: seq<Reading>) {
    && |cs| == |rs|
    && forall i :: 0 <= i < |cs| ==> cs[i].e == rs[i].e && cs[i].quantum == rs[i].quantum && cs[i].left == rs[i].left
  }

  function LeftNext(left: int, r: Reading): int {
    if r.e == CurrentTicksUpdated then NonNegative(r.left) else if SetsLeft(r.e) then r.quantum else left
  }

  function LeftAfter(left: int, rs: seq<Reading>): (r: int)
    decreases |rs|
  {
    if rs == [] then left else LeftAfter(LeftNext(left, rs[0]), rs[1..])
  }

  lemma {:induction false} LeftAppend(left: int, a: seq<Reading>, b: seq<Reading>)
    ensures LeftAfter(left, a + b) == LeftAfter(LeftAfter(left, a), b)
    decreases |a|
  {
    if a == [] {
      assert a + b == b;
    } else {
      assert (a + b)[0] == a[0] && (a + b)[1..] == a[1..] + b;
      LeftAppend(LeftNext(left, a[0]), a[1..], b);
    }
  }

  lemma {:induction false} RecordLeft(st: Record, cs: seq<Call>, rs: seq<Reading>)
    requires Legal(cs) && Reads(cs, rs)
    ensures UpdateAll(st, cs).remaining == LeftAfter(st.remaining, rs)
    decreases |cs|
  {
    if cs != [] {
      RecordLeft(Update(st, cs[0]), cs[1..], rs[1..]);
    }
  }

  lemma {:induction false} SeenAppend(t: nat, q: int, u: int, a: seq<Ev>, b: seq<Ev>)
    requires NoDispatch(a)
    ensures SeenIn(t, q, u, a + b) == SeenIn(t, q, u, a) + SeenIn(t, q, u, b)
    decreases |a|
  {
    if a == [] {
      assert a + b == b;
    } else {
      assert (a + b)[0] == a[0] && (a + b)[1..] == a[1..] + b;
      SeenAppend(t, q, u, a[1..], b);
    }
  }

  lemma {:induction false} PlainLeft(t: nat, q: int, u: int, left: int, evs: seq<Ev>)
    requires Plain(evs)
    ensures LeftAfter(left, SeenIn(t, q, u, evs)) == left
    decreases |evs|
  {
    if evs != [] {
      PlainLeft(t, q, u, left, evs[1..]);
      if evs[0].Acct? && evs[0].t == t {
        var rest := SeenIn(t, q, u, evs[1..]);
        LeftAppend(left, [Reading(evs[0].e, q, q - u)], rest);
        assert ([Reading(evs[0].e, q, q - u)] + rest)[1..] == rest;
      }
    }
  }

  /** One accounting event. */
  lemma OneSeen(t: nat, q: int, u: int, left: int, c: nat, e: Event)
    ensures SeenIn(t, q, u, [Acct(c, e)]) == if c == t then [Reading(e, q, q - u)] else []
    ensures LeftAfter(left, SeenIn(t, q, u, [Acct(c, e)])) ==
      if c != t then left
      else if e == CurrentTicksUpdated then NonNegative(q - u)
      else if SetsLeft(e) then q else left
  {
    assert [Acct(c, e)][1..] == [];
    if c == t {
      assert [Reading(e, q, q - u)][1..] == [];
    }
  }

  /** A dispatch leaves the whole quantum to whoever gets the CPU. */
  lemma RescheduleSeen(s: Sched, t: nat, q: int, u: int, left: int)
    requires Shape(s) && t < NR_TASKS
    ensures LeftAfter(left, SeenIn(t, q, u, Reschedule(s).1)) == if t == Next(s) then NonNegative(q) else left
  {
    var evs, n := Reschedule(s).1, Next(s);
    var b := [Acct(n, ReadyToSys)] + [Acct(n, CurrentTicksUpdated)] + evs[3..];
    assert evs == [Dispatch(n)] + b && Plain(evs[3..]) && evs[1..] == b;
    hide Reschedule;
    var x, y := [Acct(n, ReadyToSys)], [Acct(n, CurrentTicksUpdated)];
    SeenAppend(t, q, 0, x, y);
    OneSeen(t, q, 0, left, n, ReadyToSys);
    OneSeen(t, q, 0, left, n, CurrentTicksUpdated);
    SeenAppend(t, q, 0, x + y, evs[3..]);
    LeftAppend(left, SeenIn(t, q, 0, x), SeenIn(t, q, 0, y));
    var left' := LeftAfter(left, SeenIn(t, q, 0, x + y));
    LeftAppend(left, SeenIn(t, q, 0, x + y), SeenIn(t, q, 0, evs[3..]));
    PlainLeft(t, q, 0, left', evs[3..]);
  }

  /** The readings of a step lead from the remaining ticks before it to those after it. */
  ghost predicate Tells(s: Sched, op: Op, t: nat)
    requires Shape(s) && Enabled(s, op) && t < NR_TASKS
  {
    var (s1, evs) := Step(s, op);
    LeftAfter(s.tasks[t].remaining, SeenIn(t, s1.tasks[t].quantum, s.ticks + Ticks(op), evs)) == s1.tasks[t].remaining
  }

  lemma SplitSeen(s: Sched, op: Op, a: seq<Ev>, s1: Sched, t: nat, q: int, u: int, left: int)
    requires Shape(s) && Enabled(s, op) && t < NR_TASKS && Split(s, op, a, s1)
    ensures Shape(s1)
    ensures LeftAfter(left, SeenIn(t, q, u, Step(s, op).1)) ==
      if Switches(s, op) && t == Next(s1) then NonNegative(q) else LeftAfter(left, SeenIn(t, q, u, a))
  {
    hide Step, Switches, Reschedule;
    if Switches(s, op) {
      SeenAppend(t, q, u, a, Reschedule(s1).1);
      LeftAppend(left, SeenIn(t, q, u, a), SeenIn(t, q, u, Reschedule(s1).1));
      RescheduleSeen(s1, t, q, u, LeftAfter(left, SeenIn(t, q, u, a)));
    }
  }

  /** The tick's dispatch, and the remaining ticks after it. */
  lemma TickEnds(s: Sched, a: seq<Ev>, s1: Sched, t: nat)
    requires SInv(s) && t < NR_TASKS && Split(s, ClockTick, a, s1)
    ensures Tick(s).0.tasks[t].quantum == s.tasks[t].quantum
    ensures Tick(s).0.tasks[t].remaining ==
      if Switches(s, ClockTick) && t == Next(s1) then NonNegative(s.tasks[t].quantum)
      else if t != s.cur then s.tasks[t].remaining
      else if Switches(s, ClockTick) then s.tasks[t].quantum
      else NonNegative(s.tasks[t].quantum - (s.ticks + 1))
  {
    hide Good, Reschedule, Tick, Switches, TickStep, NoArrival, Next, RefreshTicks;
    TickCpu(s);
    TickLeft(s, t);
    TickNames(s);
    if Switches(s, ClockTick) {
      RescheduleCpu(s1, []);
    }
  }

  lemma TickTells(s: Sched, t: nat)
    requires SInv(s) && t < NR_TASKS
    ensures Tells(s, ClockTick, t)
  {
    hide LeftAfter, SeenIn, SInv, Tick, Switches, Next, Split;
    var a, s1 := TickSplit(s);
    var q, u, left := s.tasks[t].quantum, s.ticks + 1, s.tasks[t].remaining;
    TickEnds(s, a, s1, t);
    SplitSeen(s, ClockTick, a, s1, t, q, u, left);
    TickSeen(s, a, t, q, u, left);
    assert Step(s, ClockTick) == Tick(s) && Ticks(ClockTick) == 1;
  }

  lemma TickSeen(s: Sched, a: seq<Ev>, t: nat, q: int, u: int, left: int)
    requires Shape(s)
    requires a == [Acct(s.cur, UserToSys), Acct(s.cur, CurrentTicksUpdated)] +
                  [Acct(s.cur, if Switches(s, ClockTick) then SysToReady else SysToUser)]
    ensures LeftAfter(left, SeenIn(t, q, u, a)) ==
      if t != s.cur then left else if Switches(s, ClockTick) then q else NonNegative(q - u)
  {
    var c, e := s.cur, if Switches(s, ClockTick) then SysToReady else SysToUser;
    hide Switches;
    var x, y, z := [Acct(c, UserToSys)], [Acct(c, CurrentTicksUpdated)], [Acct(c, e)];
    assert a == x + y + z;
    SeenAppend(t, q, u, x, y);
    SeenAppend(t, q, u, x + y, z);
    OneSeen(t, q, u, left, c, UserToSys);
    OneSeen(t, q, u, left, c, CurrentTicksUpdated);
    LeftAppend(left, SeenIn(t, q, u, x), SeenIn(t, q, u, y));
    var left' := LeftAfter(left, SeenIn(t, q, u, x + y));
    OneSeen(t, q, u, left', c, e);
    LeftAppend(left, SeenIn(t, q, u, x + y), SeenIn(t, q, u, z));
  }

  lemma BirthSeen(t: nat, q: int, u: int, left: int, c: nat, n: nat)
    ensures LeftAfter(left, SeenIn(t, q, u, [Acct(c, UserToSys), Acct(n, FreeToReady), Acct(c, SysToUser)])) ==
      if t == n then q else left
  {
    var x, y, z := [Acct(c, UserToSys)], [Acct(n, FreeToReady)], [Acct(c, SysToUser)];
    assert [Acct(c, UserToSys), Acct(n, FreeToReady), Acct(c, SysToUser)] == x + y + z;
    SeenAppend(t, q, u, x, y);
    SeenAppend(t, q, u, x + y, z);
    OneSeen(t, q, u, left, c, UserToSys);
    OneSeen(t, q, u, left, n, FreeToReady);
    LeftAppend(left, SeenIn(t, q, u, x), SeenIn(t, q, u, y));
    var left' := LeftAfter(left, SeenIn(t, q, u, x + y));
    OneSeen(t, q, u, left', c, SysToUser);
    LeftAppend(left, SeenIn(t, q, u, x + y), SeenIn(t, q, u, z));
  }

  lemma SpawnTells(s: Sched, t: nat)
    requires SInv(s) && s.cur != s.idle && t < NR_TASKS
    ensures Tells(s, SysSpawn, t)
  {
    hide Good, LeftAfter, SeenIn;
    var q, left := Spawn(s).0.tasks[t].quantum, s.tasks[t].remaining;
    if s.freeq == [] {
      assert Plain(Spawn(s).2);
      PlainLeft(t, q, s.ticks, left, Spawn(s).2);
    } else {
      BirthSeen(t, q, s.ticks, left, s.cur, s.freeq[0]);
    }
  }

  lemma OtherTells(s: Sched, op: Op, t: nat)
    requires SInv(s) && Enabled(s, op) && op != ClockTick && op != SysSpawn && t < NR_TASKS
    ensures Tells(s, op, t)
  {
    hide SInv, Step, Reschedule, Switches;
    var a, s1 := OtherSplit(s, op);
    var q, left := Step(s, op).0.tasks[t].quantum, s.tasks[t].remaining;
    SplitSeen(s, op, a, s1, t, q, s.ticks, left);
    PlainLeft(t, q, s.ticks, left, a);
    if Switches(s, op) {
      RescheduleLeft(s1, t);
      RescheduleNames(s1);
    }
  }

  lemma StepTells(s: Sched, op: Op, t: nat)
    requires SInv(s) && Enabled(s, op) && t < NR_TASKS
    ensures Tells(s, op, t)
  {
    hide SInv, Tells;
    match op
    case ClockTick => TickTells(s, t);
    case SysSpawn => SpawnTells(s, t);
    case _ => OtherTells(s, op, t);
  }

  lemma {:induction false} RunSeen(s: Sched, ops: seq<Op>, t: nat)
    requires SInv(s) && AllEnabled(s, ops) && InSlice(s) && t < NR_TASKS
    ensures LeftAfter(s.tasks[t].remaining, Seen(t, s, ops)) == Run(s, ops).0.tasks[t].remaining
    decreases |ops|
  {
    hide SInv, Step, Enabled, InSlice;
    if ops != [] {
      StepKeeps(s, ops[0]);
      StepInSlice(s, ops[0]);
      StepTells(s, ops[0], t);
      var (s1, evs) := Step(s, ops[0]);
      RunSeen(s1, ops[1..], t);
      var rs := SeenIn(t, s1.tasks[t].quantum, s.ticks + Ticks(ops[0]), evs);
      LeftAppend(s.tasks[t].remaining, rs, Seen(t, s1, ops[1..]));
    }
  }

  // ---------------------------------------------------------------- both fields

  /**
   Over any run of the kernel, with any readings of the time stamp: `total_trans` grows by the number of
   dispatches of the task, and while the task lives `remaining_ticks` is its quantum less what it has used
   of its slice.
   */
  lemma KernelStatsExact(s: Sched, ops: seq<Op>, t: nat, st: Record, cs: seq<Call>, used: nat)
    requires SInv(s) && AllEnabled(s, ops) && InSlice(s) && Named(s) && t < NR_TASKS && t != s.idle
    requires LeftExact(s, t, used) && st.remaining == s.tasks[t].remaining
    requires Legal(cs) && Events(cs) == EventsOf(t, Run(s, ops).1) && Reads(cs, Seen(t, s, ops))
    ensures UpdateAll(st, cs).trans == Wrap(st.trans + DispatchesOf(t, Run(s, ops).1))
    ensures var s' := Run(s, ops).0;
      s'.tasks[t].state != StInvalid ==>
        UpdateAll(st, cs).remaining == NonNegative(s'.tasks[t].quantum - Used(s, ops, t, used))
  {
    hide SInv, AllEnabled, Run, InSlice, Named, Legal, UpdateAll, Seen, Used;
    TransExact(st, cs);
    RunPaired(s, ops, t);
    RecordLeft(st, cs, Seen(t, s, ops));
    RunSeen(s, ops, t);
    RunLeft(s, ops, t, used);
  }

  /** A child's record and state at birth are where that theorem starts. */
  lemma BirthFits(s: Sched, birth: Call)
    requires SInv(s) && Named(s) && InSlice(s) && s.cur != s.idle && s.freeq != []
    requires birth.e == FreeToReady && birth.quantum == s.tasks[s.cur].quantum && birth.left < TWO32
    ensures var s1, t := Spawn(s).0, s.freeq[0];
      && SInv(s1) && Named(s1) && InSlice(s1) && t != s1.idle && LeftExact(s1, t, 0)
      && Update(ZERO, birth).remaining == s1.tasks[t].remaining && Update(ZERO, birth).trans == 0
  {
    StepKeeps(s, SysSpawn);
    StepNamed(s, SysSpawn);
    StepInSlice(s, SysSpawn);
    IdleStays(s, SysSpawn);
    FreeIffInvalid(s, s.cur);
    FreeIffInvalid(s, s.freeq[0]);
    assert s.tasks[s.cur].quantum == DEFAULT_QUANTUM;
    assert s.freeq[0] in s.freeq && s.freeq[0] != s.idle;
    hide SInv, Named, InSlice;
  }
}
