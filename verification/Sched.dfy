/**
 The scheduler and the semaphores. One step is one entry into the kernel: interrupts are off
 (interrupt.c:49-52), so it runs until user code resumes, possibly in another task.
 */
module Sched {
  import opened Basics

  const NR_SEMAPHORES := 20
  const DEFAULT_QUANTUM := 100
  const EINVAL := 22
  const EBUSY := 16
  const EAGAIN := 11
  const ESRCH := 3

  datatype State = StRun | StReady | StBlocked | StInvalid

  /** Where a suspended task resumes: a new one, one inside the clock handler, one inside `sys_sem_wait`. */
  datatype Cont = Fresh | Preempted | InWait(n: nat)

  datatype Task = Task(
    pid: int, state: State, quantum: int, remaining: int, semDeleted: bool, sems: seq<nat>, cont: Cont)

  datatype Sem = Sem(used: bool, count: I32, owner: nat, blocked: seq<nat>)

  datatype Sched = Sched(
    tasks: seq<Task>, freeq: seq<nat>, ready: seq<nat>, sems: seq<Sem>,
    cur: nat, idle: nat, ticks: int, lastPid: int)

  /** The events of stats.h; a refresh looks at the state of the task. */
  datatype Event =
    | FreeToReady | UserToSys | SysToUser | SysToReady | ReadyToSys | SysToBlocked | BlockedToReady
    | CurrentTicksUpdated | Refresh(state: State)

  /** What a step does, in order. */
  datatype Ev =
    | Acct(t: nat, e: Event)
    | Dispatch(t: nat)
    | Create(n: nat, v: I32)
    | Grant(t: nat, n: nat)
    | Park(t: nat, n: nat)
    | Post(n: nat)
    | Handoff(t: nat, n: nat)
    | Abort(t: nat, n: nat)
    | Resume(t: nat, r: int)

  ghost predicate Shape(s: Sched) {
    && |s.tasks| == NR_TASKS && |s.sems| == NR_SEMAPHORES
    && s.cur < NR_TASKS && s.idle < NR_TASKS
    && (forall i :: 0 <= i < |s.freeq| ==> s.freeq[i] < NR_TASKS)
    && (forall i :: 0 <= i < |s.ready| ==> s.ready[i] < NR_TASKS)
    && (forall n, i :: 0 <= n < NR_SEMAPHORES && 0 <= i < |s.sems[n].blocked| ==> s.sems[n].blocked[i] < NR_TASKS)
    && (forall t, i :: 0 <= t < NR_TASKS && 0 <= i < |s.tasks[t].sems| ==> s.tasks[t].sems[i] < NR_SEMAPHORES)
  }

  function SetTask(s: Sched, t: nat, k: Task): (r: Sched)
    requires t < |s.tasks|
  {
    s.(tasks := s.tasks[t := k])
  }

  /** `add_process_to_scheduling`, for a task that has just left its list. */
  function MakeReady(s: Sched, t: nat): (r: Sched)
    requires t < |s.tasks|
  {
    s.(ready := s.ready + [t], tasks := s.tasks[t := s.tasks[t].(state := StReady)])
  }

  function NonNegative(x: int): int {
    if x >= 0 then x else 0
  }

  /** `update_stats` with CURRENT_TICKS_UPDATED. */
  function RefreshTicks(s: Sched): (r: Sched)
    requires Shape(s)
    ensures Shape(r)
  {
    SetTask(s, s.cur, s.tasks[s.cur].(remaining := NonNegative(s.tasks[s.cur].quantum - s.ticks)))
  }

  // ---------------------------------------------------------------- dispatching

  function Next(s: Sched): (t: nat)
    requires Shape(s)
    ensures t < NR_TASKS
  {
    if s.ready != [] then s.ready[0] else s.idle
  }

  /** What the resumed task still does in the kernel: a waiter learns whether its semaphore died. */
  function Unwind(s: Sched): (r: (Sched, seq<Ev>))
    requires Shape(s)
    ensures Shape(r.0)
  {
    var k := s.tasks[s.cur];
    match k.cont
    case InWait(_) =>
      (SetTask(s, s.cur, k.(semDeleted := false)),
        [Resume(s.cur, if k.semDeleted then -1 else 0), Acct(s.cur, SysToUser)])
    case Preempted => (s, [Acct(s.cur, SysToUser)])
    case Fresh => (s, if s.cur == s.idle then [] else [Acct(s.cur, SysToUser)])
  }

  /** `sched_next_rr` and the return to user mode. */
  function Reschedule(s: Sched): (r: (Sched, seq<Ev>))
    requires Shape(s)
    ensures Shape(r.0)
  {
    var t := Next(s);
    var s1 := s.(ready := if s.ready != [] then s.ready[1..] else [],
                 tasks := s.tasks[t := s.tasks[t].(state := StRun)], cur := t, ticks := 0);
    var (s2, evs) := Unwind(RefreshTicks(s1));
    (s2, [Dispatch(t), Acct(t, ReadyToSys), Acct(t, CurrentTicksUpdated)] + evs)
  }

  // ---------------------------------------------------------------- clock

  predicate NeedsSched(s: Sched)
    requires Shape(s)
  {
    (s.cur == s.idle && s.ready != []) || s.tasks[s.cur].remaining == 0
  }

  function Tick(s: Sched): (r: (Sched, seq<Ev>))
    requires Shape(s)
    ensures Shape(r.0)
  {
    var s1 := RefreshTicks(s.(ticks := s.ticks + 1));
    var evs := [Acct(s.cur, UserToSys), Acct(s.cur, CurrentTicksUpdated)];
    if !NeedsSched(s1) then (s1, evs + [Acct(s.cur, SysToUser)])
    else
      var k := s1.tasks[s.cur].(cont := Preempted, remaining := s1.tasks[s.cur].quantum);
      var s2 := SetTask(s1, s.cur, k);
      var s3 := if s.cur != s.idle then MakeReady(s2, s.cur) else s2;
      var (s4, evs') := Reschedule(s3);
      (s4, evs + [Acct(s.cur, SysToReady)] + evs')
  }

  // ---------------------------------------------------------------- processes

  /** The scheduling side of `sys_fork` and `sys_clone`. */
  function Spawn(s: Sched): (r: (Sched, int, seq<Ev>))
    requires Shape(s)
    ensures Shape(r.0)
  {
    if s.freeq == [] then (s, -EAGAIN, [Acct(s.cur, UserToSys), Acct(s.cur, SysToUser)])
    else
      var t := s.freeq[0];
      var q := s.tasks[s.cur].quantum;
      var k := Task(s.lastPid, s.tasks[t].state, q, q, false, [], Fresh);
      var s1 := SetTask(s.(freeq := s.freeq[1..], lastPid := s.lastPid + 1), t, k);
      (MakeReady(s1, t), s.lastPid, [Acct(s.cur, UserToSys), Acct(t, FreeToReady), Acct(s.cur, SysToUser)])
  }

  // ---------------------------------------------------------------- semaphores

  predicate BadSem(n: int) {
    n < 0 || n >= NR_SEMAPHORES
  }

  function Quiet(s: Sched, r: int, evs: seq<Ev>): (Sched, int, seq<Ev>) {
    (s, r, [Acct(s.cur, UserToSys)] + evs + [Acct(s.cur, SysToUser)])
  }

  function SemInit(s: Sched, n: int, v: int): (r: (Sched, int, seq<Ev>))
    requires Shape(s) && 0 <= v < 0x1_0000_0000
    ensures Shape(r.0)
  {
    if BadSem(n) then Quiet(s, -EINVAL, [])
    else if s.sems[n].used then Quiet(s, -EBUSY, [])
    else
      var k := s.tasks[s.cur].(sems := [n] + s.tasks[s.cur].sems);
      Quiet(SetTask(s.(sems := s.sems[n := Sem(true, Int32(v), s.cur, [])]), s.cur, k), 0, [Create(n, Int32(v))])
  }

  /** None in the second place: the call blocks and its result comes with a later `Resume`. */
  function SemWait(s: Sched, n: int): (r: (Sched, Option<int>, seq<Ev>))
    requires Shape(s)
    ensures Shape(r.0)
  {
    if BadSem(n) || !s.sems[n].used then
      var (s1, r, evs) := Quiet(s, -EINVAL, []);
      (s1, Some(r), evs)
    else if s.sems[n].count == 0 then
      var m := s.sems[n].(blocked := s.sems[n].blocked + [s.cur]);
      var k := s.tasks[s.cur].(state := StBlocked, cont := InWait(n));
      var (s1, evs) := Reschedule(SetTask(s.(sems := s.sems[n := m]), s.cur, k));
      (s1, None, [Acct(s.cur, UserToSys), Park(s.cur, n), Acct(s.cur, SysToBlocked)] + evs)
    else
      var (s1, r, evs) := Quiet(s.(sems := s.sems[n := s.sems[n].(count := Int32(s.sems[n].count - 1))]), 0,
        [Grant(s.cur, n)]);
      (s1, Some(r), evs)
  }

  function SemSignal(s: Sched, n: int): (r: (Sched, int, seq<Ev>))
    requires Shape(s)
    ensures Shape(r.0)
  {
    if BadSem(n) || !s.sems[n].used then Quiet(s, -EINVAL, [])
    else if s.sems[n].blocked == [] then
      Quiet(s.(sems := s.sems[n := s.sems[n].(count := Int32(s.sems[n].count + 1))]), 0, [Post(n)])
    else
      var t := s.sems[n].blocked[0];
      var m := s.sems[n].(blocked := s.sems[n].blocked[1..]);
      Quiet(MakeReady(s.(sems := s.sems[n := m]), t), 0, [Handoff(t, n), Acct(t, BlockedToReady)])
  }

  function Without(q: seq<nat>, x: nat): (r: seq<nat>)
    ensures |r| <= |q|
    ensures forall i :: 0 <= i < |r| ==> r[i] in q
  {
    if q == [] then []
    else if q[0] == x then q[1..]
    else [q[0]] + Without(q[1..], x)
  }

  /** One round of the loop in `sys_sem_destroy`. */
  function WakeFirst(s: Sched, n: nat): (r: (Sched, seq<Ev>))
    requires Shape(s) && n < NR_SEMAPHORES && s.sems[n].blocked != []
    ensures Shape(r.0)
  {
    var t := s.sems[n].blocked[0];
    var s1 := MakeReady(s.(sems := s.sems[n := s.sems[n].(blocked := s.sems[n].blocked[1..])]), t);
    (SetTask(s1, t, s1.tasks[t].(semDeleted := true)), [Acct(t, BlockedToReady), Abort(t, n)])
  }

  function WakeAll(s: Sched, n: nat): (r: (Sched, seq<Ev>))
    requires Shape(s) && n < NR_SEMAPHORES
    ensures Shape(r.0)
    decreases |s.sems[n].blocked|
  {
    if s.sems[n].blocked == [] then (s, [])
    else
      var (s1, evs) := WakeFirst(s, n);
      var (s2, evs') := WakeAll(s1, n);
      (s2, evs + evs')
  }

  /** `sys_sem_destroy` once the caller is known to be the owner. */
  function Destroy(s: Sched, n: nat): (r: (Sched, seq<Ev>))
    requires Shape(s) && n < NR_SEMAPHORES
    ensures Shape(r.0)
  {
    var k := s.tasks[s.cur].(sems := Without(s.tasks[s.cur].sems, n));
    WakeAll(SetTask(s.(sems := s.sems[n := s.sems[n].(used := false)]), s.cur, k), n)
  }

  predicate MayDestroy(s: Sched, n: int)
    requires Shape(s)
  {
    && !BadSem(n) && s.sems[n].used && s.sems[n].owner < NR_TASKS
    && s.tasks[s.cur].pid == s.tasks[s.sems[n].owner].pid
  }

  /** `sys_sem_destroy` without the accounting at its ends, as `free_semaphores` calls it. */
  function DestroyCall(s: Sched, n: int): (r: (Sched, int, seq<Ev>))
    requires Shape(s)
    ensures Shape(r.0)
  {
    if BadSem(n) || !s.sems[n].used then (s, -EINVAL, [])
    else if !MayDestroy(s, n) then (s, -1, [])
    else (Destroy(s, n).0, 0, Destroy(s, n).1)
  }

  function SemDestroy(s: Sched, n: int): (r: (Sched, int, seq<Ev>))
    requires Shape(s)
    ensures Shape(r.0)
  {
    var (s1, r, evs) := DestroyCall(s, n);
    Quiet(s1, r, evs)
  }

  // ---------------------------------------------------------------- exit

  /** The loop of `free_semaphores` over the list as it stands when the loop starts. */
  function DestroyEach(s: Sched, ns: seq<nat>): (r: (Sched, seq<Ev>))
    requires Shape(s)
    ensures Shape(r.0)
    decreases |ns|
  {
    if ns == [] then (s, [])
    else
      var (s1, evs) := if MayDestroy(s, ns[0]) then Destroy(s, ns[0]) else (s, []);
      var (s2, evs') := DestroyEach(s1, ns[1..]);
      (s2, evs + evs')
  }

  function Exit(s: Sched): (r: (Sched, seq<Ev>))
    requires Shape(s)
    ensures Shape(r.0)
  {
    var s1 := SetTask(s.(freeq := s.freeq + [s.cur]), s.cur, s.tasks[s.cur].(state := StInvalid));
    var (s2, evs) := DestroyEach(s1, s.tasks[s.cur].sems);
    var (s3, evs') := Reschedule(SetTask(s2, s2.cur, s2.tasks[s2.cur].(sems := [])));
    (s3, [Acct(s.cur, UserToSys)] + evs + evs')
  }

  // ---------------------------------------------------------------- statistics

  /** The first PCB that carries `pid`, as `sys_get_stats` finds it. */
  function FindPid(s: Sched, pid: int, i: nat): (r: nat)
    requires Shape(s) && i <= NR_TASKS
    ensures i <= r <= NR_TASKS && (r < NR_TASKS ==> s.tasks[r].pid == pid)
    ensures forall j :: i <= j < r ==> s.tasks[j].pid != pid
    decreases NR_TASKS - i
  {
    if i == NR_TASKS || s.tasks[i].pid == pid then i else FindPid(s, pid, i + 1)
  }

  function GetStats(s: Sched, pid: int): (r: (Sched, int, seq<Ev>))
    requires Shape(s)
    ensures Shape(r.0)
  {
    if pid < 0 then Quiet(s, -EINVAL, [])
    else
      var t := FindPid(s, pid, 0);
      if t == NR_TASKS || s.tasks[t].state == StInvalid then Quiet(s, -ESRCH, [])
      else if s.tasks[t].state == StReady || s.tasks[t].state == StBlocked then
        Quiet(s, 0, [Acct(t, Refresh(s.tasks[t].state))])
      else Quiet(s, 0, [])
  }

  // ---------------------------------------------------------------- steps

  datatype Op =
    | ClockTick
    | SysSpawn
    | SysExit
    | SysSemInit(n: int, v: int)
    | SysSemWait(n: int)
    | SysSemSignal(n: int)
    | SysSemDestroy(n: int)
    | SysGetStats(pid: int)
    | SysOther

  /**
   `SysSpawn` is fork or clone; `SysOther` is any system call that leaves the scheduler alone, such as
   sbrk. Idle never makes system calls; the value of `sys_sem_init` is a 32-bit word.
   */
  predicate Enabled(s: Sched, op: Op) {
    && (op == ClockTick || s.cur != s.idle)
    && (op.SysSemInit? ==> 0 <= op.v < 0x1_0000_0000)
  }

  function Step(s: Sched, op: Op): (r: (Sched, seq<Ev>))
    requires Shape(s) && Enabled(s, op)
    ensures Shape(r.0)
  {
    match op
    case ClockTick => Tick(s)
    case SysSpawn => var (s1, _, evs) := Spawn(s); (s1, evs)
    case SysExit => Exit(s)
    case SysSemInit(n, v) => var (s1, _, evs) := SemInit(s, n, v); (s1, evs)
    case SysSemWait(n) => var (s1, _, evs) := SemWait(s, n); (s1, evs)
    case SysSemSignal(n) => var (s1, _, evs) := SemSignal(s, n); (s1, evs)
    case SysSemDestroy(n) => var (s1, _, evs) := SemDestroy(s, n); (s1, evs)
    case SysGetStats(pid) => var (s1, _, evs) := GetStats(s, pid); (s1, evs)
    case SysOther => (s, Quiet(s, 0, []).2)
  }
}
