/**
 Whole runs of one task: what its blocked waits return, and the order of its accounting events.
 */
module TaskHistory {
  import opened Basics
  import opened Sched
  import opened SchedInvariant
  import opened SchedSteps
  import opened SemHistory

  /** A task as a waiter. `Wrong` marks a history that must not happen. */
  datatype Waiter = NotWaiting | Waiting(n: nat) | Given(n: nat) | Thrown(n: nat) | Wrong

  function WaiterNext(w: Waiter, e: Ev): (r: Waiter) {
    match e
    case Park(_, n) => if w == NotWaiting then Waiting(n) else Wrong
    case Handoff(_, n) => if w == Waiting(n) then Given(n) else Wrong
    case Abort(_, n) => if w == Waiting(n) then Thrown(n) else Wrong
    case Resume(_, r) => if (w.Given? && r == 0) || (w.Thrown? && r == -1) then NotWaiting else Wrong
    case _ => w
  }

  /** A task as stats.c sees it. `Broken` marks an event that would charge the wrong bucket. */
  datatype Phase = Unborn | User | System | OnReady | OnBlocked | Broken

  function PhaseNext(p: Phase, e: Event): (r: Phase) {
    match e
    case FreeToReady => if p == Unborn || p == System then OnReady else Broken
    case UserToSys => if p == User then System else Broken
    case SysToUser => if p == System then User else Broken
    case SysToReady => if p == System then OnReady else Broken
    case ReadyToSys => if p == OnReady then System else Broken
    case SysToBlocked => if p == System then OnBlocked else Broken
    case BlockedToReady => if p == OnBlocked then OnReady else Broken
    case CurrentTicksUpdated => p
    case Refresh(state) =>
      if (state == StReady && p == OnReady) || (state == StBlocked && p == OnBlocked) then p else Broken
  }

  datatype Track = Track(w: Waiter, p: Phase)

  /** The task an event is about. */
  predicate About(e: Ev, t: nat) {
    match e
    case Create(_, _) => false
    case Post(_) => false
    case _ => e.t == t
  }

  function TrackNext(t: nat, k: Track, e: Ev): (r: Track) {
    if !About(e, t) then k
    else if e.Acct? then k.(p := PhaseNext(k.p, e.e))
    else k.(w := WaiterNext(k.w, e))
  }

  function Follow(t: nat, k: Track, evs: seq<Ev>): (r: Track)
    decreases |evs|
  {
    if evs == [] then k else Follow(t, TrackNext(t, k, evs[0]), evs[1..])
  }

  lemma {:induction false} FollowAppend(t: nat, k: Track, a: seq<Ev>, b: seq<Ev>)
    ensures Follow(t, k, a + b) == Follow(t, Follow(t, k, a), b)
    decreases |a|
  {
    if a == [] {
      assert a + b == b;
    } else {
      assert (a + b)[0] == a[0] && (a + b)[1..] == a[1..] + b;
      FollowAppend(t, TrackNext(t, k, a[0]), a[1..], b);
    }
  }

  lemma Follow1(t: nat, k: Track, a: Ev)
    ensures Follow(t, k, [a]) == TrackNext(t, k, a)
  {
    assert [a][1..] == [];
  }

  lemma Follow2(t: nat, k: Track, a: Ev, b: Ev)
    ensures Follow(t, k, [a, b]) == TrackNext(t, TrackNext(t, k, a), b)
  {
    assert [a, b][1..] == [b];
    Follow1(t, TrackNext(t, k, a), b);
  }

  lemma Follow3(t: nat, k: Track, a: Ev, b: Ev, c: Ev)
    ensures Follow(t, k, [a, b, c]) == TrackNext(t, TrackNext(t, TrackNext(t, k, a), b), c)
  {
    assert [a, b, c][1..] == [b, c];
    Follow2(t, TrackNext(t, k, a), b, c);
  }

  predicate Elsewhere(t: nat, evs: seq<Ev>) {
    forall i :: 0 <= i < |evs| ==> !About(evs[i], t)
  }

  lemma {:induction false} FollowElsewhere(t: nat, k: Track, evs: seq<Ev>)
    requires Elsewhere(t, evs)
    ensures Follow(t, k, evs) == k
    decreases |evs|
  {
    if evs != [] {
      FollowElsewhere(t, k, evs[1..]);
    }
  }

  // ---------------------------------------------------------------- the same, read off the kernel state

  function WaiterOf(k: Task): (w: Waiter) {
    if !k.cont.InWait? then NotWaiting
    else if k.state == StBlocked then Waiting(k.cont.n)
    else if k.state == StReady then (if k.semDeleted then Thrown(k.cont.n) else Given(k.cont.n))
    else NotWaiting
  }

  predicate PhaseFits(k: Task, p: Phase) {
    match k.state
    case StRun => p == User
    case StReady => p == OnReady
    case StBlocked => p == OnBlocked
    case StInvalid => p == Unborn || p == System
  }

  predicate Fits(s: Sched, t: nat, k: Track)
    requires Shape(s) && t < NR_TASKS
  {
    k.w == WaiterOf(s.tasks[t]) && PhaseFits(s.tasks[t], k.p)
  }

  ghost predicate Tracks(s: Sched, r: Sched, evs: seq<Ev>, t: nat)
    requires Shape(s) && Shape(r) && t < NR_TASKS
  {
    forall k :: Fits(s, t, k) ==> Fits(r, t, Follow(t, k, evs))
  }

  // ---------------------------------------------------------------- dispatching

  lemma UnwindOf(s: Sched, t: nat)
    requires Good(s, false) && t < NR_TASKS && t != s.idle && t == Next(s)
    ensures s.ready != [] && s.tasks[t].state == StReady
    ensures var k := s.tasks[t];
      && Reschedule(s).0.tasks[t].state == StRun && Reschedule(s).0.tasks[t].cont == k.cont
      && Reschedule(s).1 == [Dispatch(t), Acct(t, ReadyToSys), Acct(t, CurrentTicksUpdated)] +
           (if k.cont.InWait? then [Resume(t, if k.semDeleted then -1 else 0), Acct(t, SysToUser)]
             else [Acct(t, SysToUser)])
  {
    hide FreeQueue, BlockedQueues, Ownership, Pids, Marks;
  }

  lemma RescheduleOthers(s: Sched, t: nat)
    requires Shape(s) && t < NR_TASKS && t != Next(s)
    ensures Elsewhere(t, Reschedule(s).1) && Reschedule(s).0.tasks[t] == s.tasks[t]
  {
  }

  /** A dispatched task goes from ready to user mode; a waiter returns what it was told. */
  lemma RescheduleTracks(s: Sched, t: nat)
    requires Good(s, false) && t < NR_TASKS && t != s.idle
    ensures Tracks(s, Reschedule(s).0, Reschedule(s).1, t)
  {
    hide Good, Reschedule;
    forall k | Fits(s, t, k)
      ensures Fits(Reschedule(s).0, t, Follow(t, k, Reschedule(s).1))
    {
      if t == Next(s) {
        UnwindOf(s, t);
        var c := s.tasks[t];
        var a := [Dispatch(t), Acct(t, ReadyToSys), Acct(t, CurrentTicksUpdated)];
        var b := if c.cont.InWait? then [Resume(t, if c.semDeleted then -1 else 0), Acct(t, SysToUser)]
          else [Acct(t, SysToUser)];
        FollowAppend(t, k, a, b);
        Follow3(t, k, a[0], a[1], a[2]);
        var k1 := Follow(t, k, a);
        if c.cont.InWait? {
          Follow2(t, k1, b[0], b[1]);
        } else {
          Follow1(t, k1, b[0]);
        }
      } else {
        RescheduleOthers(s, t);
        FollowElsewhere(t, k, Reschedule(s).1);
      }
    }
  }

  lemma TracksThen(s: Sched, s1: Sched, s2: Sched, a: seq<Ev>, b: seq<Ev>, t: nat)
    requires Shape(s) && Shape(s1) && Shape(s2) && t < NR_TASKS
    requires Tracks(s, s1, a, t) && Tracks(s1, s2, b, t)
    ensures Tracks(s, s2, a + b, t)
  {
    forall k | Fits(s, t, k)
      ensures Fits(s2, t, Follow(t, k, a + b))
    {
      FollowAppend(t, k, a, b);
    }
  }

  /** A call that returns to the task that made it. */
  lemma QuietTracks(s: Sched, r: Sched, res: int, evs: seq<Ev>, t: nat)
    requires SInv(s) && Shape(r) && t < NR_TASKS && r.cur == s.cur
    requires t != s.cur ==> Tracks(s, r, evs, t)
    requires t == s.cur ==> (forall k :: Follow(t, k, evs) == k) && r.tasks[t].state == StRun
    ensures Tracks(s, r, Quiet(r, res, evs).2, t)
  {
    var a, z := [Acct(s.cur, UserToSys)], [Acct(s.cur, SysToUser)];
    forall k | Fits(s, t, k)
      ensures Fits(r, t, Follow(t, k, a + evs + z))
    {
      FollowAppend(t, k, a + evs, z);
      FollowAppend(t, k, a, evs);
      Follow1(t, k, a[0]);
      Follow1(t, Follow(t, k, a + evs), z[0]);
    }
  }

  // ---------------------------------------------------------------- the steps

  lemma TickTracks(s: Sched, t: nat)
    requires SInv(s) && t < NR_TASKS && t != s.idle
    ensures Tracks(s, Tick(s).0, Tick(s).1, t)
  {
    hide Good, Reschedule, Tick;
    TickUnfold(s);
    CurRuns(s);
    var s1 := RefreshTicks(s.(ticks := s.ticks + 1));
    var c := s.cur;
    var a := [Acct(c, UserToSys), Acct(c, CurrentTicksUpdated),
      Acct(c, if NeedsSched(s1) then SysToReady else SysToUser)];
    assert a == [a[0], a[1]] + [a[2]];
    var s2 := if NeedsSched(s1) then Preempt(s1) else s1;
    forall k | Fits(s, t, k)
      ensures Fits(s2, t, Follow(t, k, a))
    {
      Follow3(t, k, a[0], a[1], a[2]);
    }
    if NeedsSched(s1) {
      AgedKeeps(s);
      PreemptKeeps(s1);
      hide Tracks, NeedsSched;
      RescheduleTracks(s2, t);
      TracksThen(s, s2, Reschedule(s2).0, a, Reschedule(s2).1, t);
    }
  }

  lemma CurRuns(s: Sched)
    requires SInv(s)
    ensures s.tasks[s.cur].state == StRun
  {
  }

  lemma SpawnTracks(s: Sched, t: nat)
    requires SInv(s) && t < NR_TASKS && t != s.idle
    ensures Tracks(s, Spawn(s).0, Spawn(s).2, t)
  {
    CurRuns(s);
    if s.freeq != [] {
      assert s.freeq[0] in s.freeq;
    }
    hide BlockedQueues, Ownership, Pids, Marks;
    forall k | Fits(s, t, k)
      ensures Fits(Spawn(s).0, t, Follow(t, k, Spawn(s).2))
    {
      if s.freeq == [] {
        Follow2(t, k, Acct(s.cur, UserToSys), Acct(s.cur, SysToUser));
      } else {
        Follow3(t, k, Acct(s.cur, UserToSys), Acct(s.freeq[0], FreeToReady), Acct(s.cur, SysToUser));
      }
    }
  }

  lemma SemInitTracks(s: Sched, n: int, v: int, t: nat)
    requires SInv(s) && t < NR_TASKS && t != s.idle && 0 <= v < 0x1_0000_0000
    ensures Tracks(s, SemInit(s, n, v).0, SemInit(s, n, v).2, t)
  {
    hide Good;
    CurRuns(s);
    var (r, res, _) := SemInit(s, n, v);
    var evs := if BadSem(n) || s.sems[n].used then [] else [Create(n, Int32(v))];
    forall k
      ensures Follow(t, k, evs) == k
    {
      FollowElsewhere(t, k, evs);
    }
    QuietTracks(s, r, res, evs, t);
  }

  lemma SemWaitTracks(s: Sched, n: int, t: nat)
    requires SInv(s) && t < NR_TASKS && t != s.idle && s.cur != s.idle
    ensures Tracks(s, SemWait(s, n).0, SemWait(s, n).2, t)
  {
    hide Good, Reschedule;
    CurRuns(s);
    var r := SemWait(s, n).0;
    if BadSem(n) || !s.sems[n].used {
      QuietTracks(s, r, -EINVAL, [], t);
    } else if s.sems[n].count == 0 {
      var s1 := Block(s, n);
      var a := [Acct(s.cur, UserToSys), Park(s.cur, n), Acct(s.cur, SysToBlocked)];
      forall k | Fits(s, t, k)
        ensures Fits(s1, t, Follow(t, k, a))
      {
        Follow3(t, k, a[0], a[1], a[2]);
      }
      BlockQueues(s, n);
      BlockSems(s, n);
      GoodFrom(s1, false);
      RescheduleTracks(s1, t);
      TracksThen(s, s1, r, a, Reschedule(s1).1, t);
    } else {
      forall k
        ensures Follow(t, k, [Grant(s.cur, n)]) == k
      {
        Follow1(t, k, Grant(s.cur, n));
      }
      QuietTracks(s, r, 0, [Grant(s.cur, n)], t);
    }
  }

  lemma SemSignalTracks(s: Sched, n: int, t: nat)
    requires SInv(s) && t < NR_TASKS && t != s.idle
    ensures Tracks(s, SemSignal(s, n).0, SemSignal(s, n).2, t)
  {
    hide Good;
    CurRuns(s);
    var (r, res, _) := SemSignal(s, n);
    if BadSem(n) || !s.sems[n].used {
      QuietTracks(s, r, res, [], t);
    } else if s.sems[n].blocked == [] {
      forall k
        ensures Follow(t, k, [Post(n)]) == k
      {
        Follow1(t, k, Post(n));
      }
      QuietTracks(s, r, res, [Post(n)], t);
    } else {
      var u := s.sems[n].blocked[0];
      WaiterState(s, n, u, true);
      forall k
        ensures Follow(t, k, [Handoff(u, n), Acct(u, BlockedToReady)]) ==
          TrackNext(t, TrackNext(t, k, Handoff(u, n)), Acct(u, BlockedToReady))
      {
        Follow2(t, k, Handoff(u, n), Acct(u, BlockedToReady));
      }
      QuietTracks(s, r, res, [Handoff(u, n), Acct(u, BlockedToReady)], t);
    }
  }

  lemma WaiterState(s: Sched, n: nat, u: nat, on: bool)
    requires Good(s, on) && n < NR_SEMAPHORES && u in s.sems[n].blocked
    ensures u < NR_TASKS && u != s.idle && s.tasks[u].state == StBlocked && s.tasks[u].cont == InWait(n)
    ensures !s.tasks[u].semDeleted
    ensures on ==> u != s.cur
  {
    assert BlockedOn(s, n);
  }

  lemma {:induction false} WakeFollow(t: nat, k: Track, ws: seq<nat>, n: nat)
    requires Distinct(ws)
    ensures Follow(t, k, WakeEvs(ws, n)) ==
      if t in ws then TrackNext(t, TrackNext(t, k, Acct(t, BlockedToReady)), Abort(t, n)) else k
    decreases |ws|
  {
    if ws != [] {
      DistinctTail(ws);
      var a := [Acct(ws[0], BlockedToReady), Abort(ws[0], n)];
      FollowAppend(t, k, a, WakeEvs(ws[1..], n));
      Follow2(t, k, a[0], a[1]);
      WakeFollow(t, Follow(t, k, a), ws[1..], n);
    }
  }

  lemma DestroyTask(s: Sched, n: nat, on: bool, t: nat)
    requires Good(s, on) && n < NR_SEMAPHORES && t < NR_TASKS
    ensures Distinct(s.sems[n].blocked)
    ensures var k, k' := s.tasks[t], Destroy(s, n).0.tasks[t];
      if t in s.sems[n].blocked
      then k.state == StBlocked && k.cont == InWait(n) && k'.state == StReady && k'.cont == k.cont && k'.semDeleted
      else k' == k.(sems := k'.sems)
  {
    var ws := s.sems[n].blocked;
    DestroyExact(s, n);
    assert BlockedOn(s, n);
    assert ws[..|ws|] == ws;
    hide Destroy, FreeQueue, ReadyQueue, Ownership, Pids, OnCpu, Marks;
  }

  /** Whoever waits on a destroyed semaphore is thrown out; nobody else notices. */
  lemma DestroyTracks(s: Sched, n: nat, on: bool, t: nat)
    requires Good(s, on) && n < NR_SEMAPHORES && t < NR_TASKS
    ensures Tracks(s, Destroy(s, n).0, Destroy(s, n).1, t)
  {
    hide Destroy, Good, Destroyed;
    DestroyExact(s, n);
    DestroyTask(s, n, on, t);
    forall k | Fits(s, t, k)
      ensures Fits(Destroy(s, n).0, t, Follow(t, k, WakeEvs(s.sems[n].blocked, n)))
    {
      WakeFollow(t, k, s.sems[n].blocked, n);
    }
  }

  lemma SemDestroyTracks(s: Sched, n: int, t: nat)
    requires SInv(s) && t < NR_TASKS && t != s.idle
    ensures Tracks(s, SemDestroy(s, n).0, SemDestroy(s, n).2, t)
  {
    hide Good, Destroy;
    CurRuns(s);
    var (r, res, _) := SemDestroy(s, n);
    if !BadSem(n) && s.sems[n].used && MayDestroy(s, n) {
      var (s1, evs) := Destroy(s, n);
      DestroyTracks(s, n, true, t);
      DestroyCur(s, n);
      if t == s.cur {
        forall k
          ensures Follow(t, k, evs) == k
        {
          FollowElsewhere(t, k, evs);
        }
      }
      QuietTracks(s, s1, 0, evs, t);
    } else {
      QuietTracks(s, r, res, [], t);
    }
  }

  lemma DestroyCur(s: Sched, n: nat)
    requires SInv(s) && n < NR_SEMAPHORES
    ensures Destroy(s, n).0.cur == s.cur && Destroy(s, n).0.tasks[s.cur].state == StRun
    ensures Elsewhere(s.cur, Destroy(s, n).1)
  {
    DestroyExact(s, n);
    assert BlockedOn(s, n);
    var ws := s.sems[n].blocked;
    assert ws[..|ws|] == ws;
    WakeElsewhere(s.cur, ws, n);
    hide Destroy;
  }

  lemma {:induction false} WakeElsewhere(t: nat, ws: seq<nat>, n: nat)
    requires t !in ws
    ensures Elsewhere(t, WakeEvs(ws, n))
  {
    if ws != [] {
      WakeElsewhere(t, ws[1..], n);
    }
  }

  lemma {:induction false} DestroyEachTracks(s: Sched, ns: seq<nat>, t: nat)
    requires Dying(s, ns) && t < NR_TASKS
    ensures Tracks(s, DestroyEach(s, ns).0, DestroyEach(s, ns).1, t)
    decreases |ns|
  {
    hide Destroy, MayDestroy, OneGone;
    if ns != [] {
      DyingRound(s, ns);
      var (s1, evs) := Destroy(s, ns[0]);
      DestroyTracks(s, ns[0], false, t);
      DestroyEachTracks(s1, ns[1..], t);
      TracksThen(s, s1, DestroyEach(s1, ns[1..]).0, evs, DestroyEach(s1, ns[1..]).1, t);
    }
  }

  lemma ExitTracks(s: Sched, t: nat)
    requires SInv(s) && t < NR_TASKS && t != s.idle && s.cur != s.idle
    ensures Tracks(s, Exit(s).0, Exit(s).1, t)
  {
    hide Good, DestroyEach, Reschedule, AllGone;
    CurRuns(s);
    ExitGone(s);
    var s1, ns := Retire(s), s.tasks[s.cur].sems;
    var (s2, evs) := DestroyEach(s1, ns);
    var a := [Acct(s.cur, UserToSys)];
    forall k | Fits(s, t, k)
      ensures Fits(s1, t, Follow(t, k, a))
    {
      Follow1(t, k, a[0]);
    }
    DestroyEachTracks(s1, ns, t);
    GoneIdle(s1, ns, s2, evs);
    RescheduleTracks(s2, t);
    TracksThen(s, s1, s2, a, evs, t);
    TracksThen(s, s2, Reschedule(s2).0, a + evs, Reschedule(s2).1, t);
  }

  /** A refresh charges a ready task as ready and a blocked one as blocked. */
  lemma RefreshTracks(s: Sched, t: nat, u: nat)
    requires SInv(s) && t < NR_TASKS && u < NR_TASKS
    requires s.tasks[u].state == StReady || s.tasks[u].state == StBlocked
    ensures var evs := [Acct(u, Refresh(s.tasks[u].state))];
      && (t != s.cur ==> Tracks(s, s, evs, t))
      && (t == s.cur ==> (forall k :: Follow(t, k, evs) == k) && s.tasks[t].state == StRun)
  {
    CurRuns(s);
    hide Good, Follow;
    forall k
      ensures Follow(t, k, [Acct(u, Refresh(s.tasks[u].state))]) == TrackNext(t, k, Acct(u, Refresh(s.tasks[u].state)))
    {
      Follow1(t, k, Acct(u, Refresh(s.tasks[u].state)));
    }
  }

  lemma NothingTracks(s: Sched, t: nat)
    requires SInv(s) && t < NR_TASKS
    ensures Tracks(s, s, [], t) && (forall k :: Follow(t, k, []) == k)
    ensures s.tasks[s.cur].state == StRun
  {
    CurRuns(s);
    hide Good;
  }

  lemma GetStatsTracks(s: Sched, pid: int, t: nat)
    requires SInv(s) && t < NR_TASKS && t != s.idle && s.cur != s.idle
    ensures Tracks(s, GetStats(s, pid).0, GetStats(s, pid).2, t)
  {
    hide Good, Tracks, Follow, FindPid;
    var u := FindPid(s, pid, 0);
    NothingTracks(s, t);
    var r := GetStats(s, pid).1;
    if pid >= 0 && u < NR_TASKS && (s.tasks[u].state == StReady || s.tasks[u].state == StBlocked) {
      RefreshTracks(s, t, u);
      QuietTracks(s, s, r, [Acct(u, Refresh(s.tasks[u].state))], t);
    } else {
      QuietTracks(s, s, r, [], t);
    }
  }

  lemma OtherTracks(s: Sched, t: nat)
    requires SInv(s) && t < NR_TASKS
    ensures Tracks(s, s, Quiet(s, 0, []).2, t)
  {
    hide Good, Tracks, Follow;
    NothingTracks(s, t);
    QuietTracks(s, s, 0, [], t);
  }

  lemma StepTracks(s: Sched, op: Op, t: nat)
    requires SInv(s) && Enabled(s, op) && t < NR_TASKS && t != s.idle
    ensures Tracks(s, Step(s, op).0, Step(s, op).1, t)
  {
    hide SInv, Tick, Spawn, Exit, SemInit, SemWait, SemSignal, SemDestroy, GetStats, Tracks;
    match op
    case ClockTick => TickTracks(s, t);
    case SysSpawn => SpawnTracks(s, t);
    case SysExit => ExitTracks(s, t);
    case SysSemInit(n, v) => SemInitTracks(s, n, v, t);
    case SysSemWait(n) => SemWaitTracks(s, n, t);
    case SysSemSignal(n) => SemSignalTracks(s, n, t);
    case SysSemDestroy(n) => SemDestroyTracks(s, n, t);
    case SysGetStats(pid) => GetStatsTracks(s, pid, t);
    case SysOther => OtherTracks(s, t);
  }

  /**
   Over every run each blocked wait returns -1 exactly when its semaphore was destroyed under it, and
   the accounting events of every task follow the user/system/ready/blocked automaton.
   */
  lemma {:induction false} RunTracks(s: Sched, ops: seq<Op>, t: nat, k: Track)
    requires SInv(s) && AllEnabled(s, ops) && t < NR_TASKS && t != s.idle && Fits(s, t, k)
    ensures Run(s, ops).0.idle == s.idle && Fits(Run(s, ops).0, t, Follow(t, k, Run(s, ops).1))
    ensures Follow(t, k, Run(s, ops).1).w != Wrong && Follow(t, k, Run(s, ops).1).p != Broken
    decreases |ops|
  {
    hide SInv, Step, Enabled;
    if ops != [] {
      StepTracks(s, ops[0], t);
      StepKeeps(s, ops[0]);
      var (s1, evs) := Step(s, ops[0]);
      IdleStays(s, ops[0]);
      RunTracks(s1, ops[1..], t, Follow(t, k, evs));
      FollowAppend(t, k, evs, Run(s1, ops[1..]).1);
    }
  }

  lemma IdleStays(s: Sched, op: Op)
    requires SInv(s) && Enabled(s, op)
    ensures Step(s, op).0.idle == s.idle
  {
    hide Good, DestroyEach, Destroy, AllGone, Reschedule, Destroyed;
    if op.SysExit? {
      ExitGone(s);
      var s1, ns := Retire(s), s.tasks[s.cur].sems;
      GoneIdle(s1, ns, DestroyEach(s1, ns).0, DestroyEach(s1, ns).1);
      RescheduleIdle(DestroyEach(s1, ns).0);
    } else if op.SysSemDestroy? && !BadSem(op.n) {
      DestroyIdle(s, op.n);
    } else if op.SysSemWait? && !BadSem(op.n) {
      RescheduleIdle(Block(s, op.n));
    } else if op.ClockTick? {
      RescheduleIdle(Preempt(RefreshTicks(s.(ticks := s.ticks + 1))));
    }
  }

  lemma RescheduleIdle(s: Sched)
    requires Shape(s)
    ensures Reschedule(s).0.idle == s.idle
  {
  }

  lemma DestroyIdle(s: Sched, n: nat)
    requires Shape(s) && n < NR_SEMAPHORES
    ensures Destroy(s, n).0.idle == s.idle
  {
    DestroyExact(s, n);
  }

  lemma GoneIdle(s: Sched, ns: seq<nat>, s': Sched, evs: seq<Ev>)
    requires Shape(s) && AllGone(s, ns, s', evs)
    ensures s'.idle == s.idle
  {
  }
}
