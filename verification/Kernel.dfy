/**
 sched.c and the semaphore calls of sys.c over the records and list nodes in memory. Every entry
 point moves the memory exactly as the step function of `Sched` says, and logs the same events.
 */
module Kernel {
  import opened Basics
  import opened Sched
  import opened KList
  import opened Layout
  import opened SchedInvariant
  import opened SchedSteps
  import opened KernelParts
  import opened SchedBoot
  import Calls
  import Quanta

  ghost predicate Pooled(d: Nodes, pool: set<ListHead>)
    requires NodesOk(d)
  {
    && d.freeQueue in pool && d.readyQueue in pool
    && (forall t :: 0 <= t < NR_TASKS ==> d.anchor[t] in pool && d.owned[t] in pool)
    && (forall n :: 0 <= n < NR_SEMAPHORES ==> d.semAnchor[n] in pool && d.blocked[n] in pool)
  }

  /** Live tasks and used semaphores have initialised list heads. */
  ghost predicate Inited(d: Nodes, keys: set<ListHead>, pcbs: seq<Pcb>, recs: seq<SemRec>)
    requires NodesOk(d) && |pcbs| == NR_TASKS && |recs| == NR_SEMAPHORES
  {
    && d.freeQueue in keys && d.readyQueue in keys
    && (forall t :: 0 <= t < NR_TASKS && pcbs[t].state != StInvalid ==> d.owned[t] in keys)
    && (forall n :: 0 <= n < NR_SEMAPHORES && recs[n].used ==> d.blocked[n] in keys)
  }

  ghost function AllNodes(d: Nodes): (r: set<ListHead>)
    requires NodesOk(d)
    ensures Pooled(d, r)
  {
    set x | x in [d.freeQueue, d.readyQueue] + d.anchor + d.owned + d.semAnchor + d.blocked
  }

  ghost function StartLists(d: Nodes): (r: Lists) {
    map[][d.freeQueue := []][d.readyQueue := []]
  }

  lemma NodesApart(d: Nodes)
    requires NodesOk(d)
    ensures d.freeQueue != d.readyQueue && d.freeQueue in AllNodes(d) && d.readyQueue in AllNodes(d)
  {
  }

  lemma StartView(d: Nodes, pcbs: seq<Pcb>, recs: seq<SemRec>)
    requires NodesOk(d) && |pcbs| == NR_TASKS && |recs| == NR_SEMAPHORES
    requires forall t :: 0 <= t < NR_TASKS ==> pcbs[t] == Pcb(0, StInvalid, 0, 0, false, Fresh)
    requires forall n :: 0 <= n < NR_SEMAPHORES ==> recs[n] == SemRec(false, 0, 0)
    ensures Typed(d, StartLists(d)) && Inited(d, StartLists(d).Keys, pcbs, recs)
    ensures View(d, StartLists(d), pcbs, recs, 0, 0, 0, 0) == Freed(0)
  {
    var seqs := StartLists(d);
    forall p | PlaceOk(p)
      ensures Members(d, seqs, p) == []
    {
      assert seqs.Keys == {d.freeQueue, d.readyQueue};
    }
    assert TasksOf(d, seqs, pcbs) == Freed(0).tasks;
    assert SemsOf(d, seqs, recs) == Freed(0).sems;
  }

  lemma HeadTells(d: Nodes, p: Place)
    requires NodesOk(d) && PlaceOk(p)
    ensures Head(d, p) == d.readyQueue <==> p == ReadyList
    ensures Head(d, p) == d.freeQueue <==> p == FreeList
  {
  }

  class Kernel {
    const d: Nodes
    const lists: Family
    const pcb: array<Pcb>
    const sem: array<SemRec>
    var cur: nat
    var idle: nat
    var ticks: int
    var lastPid: int
    /** The events of `Sched`, in the order in which they happen. */
    ghost var log: seq<Ev>

    ghost predicate Valid()
      reads this`cur, this`idle, this`ticks, this`lastPid, lists, lists.pool, pcb, sem
      ensures Valid() ==> NodesOk(d) && pcb.Length == NR_TASKS && sem.Length == NR_SEMAPHORES
      ensures Valid() ==> cur < NR_TASKS && idle < NR_TASKS
    {
      && NodesOk(d) && pcb.Length == NR_TASKS && sem.Length == NR_SEMAPHORES && cur < NR_TASKS && idle < NR_TASKS
      && lists.Valid() && Typed(d, lists.seqs) && Pooled(d, lists.pool)
      && Inited(d, lists.seqs.Keys, pcb[..], sem[..])
    }

    ghost function Value(): (s: Sched)
      requires Valid()
      reads this`cur, this`idle, this`ticks, this`lastPid, lists, lists.pool, pcb, sem
      ensures Shape(s) && Sized(s) && s.cur == cur && s.idle == idle && s.ticks == ticks && s.lastPid == lastPid
    {
      ViewShape(d, lists.seqs, pcb[..], sem[..], cur, idle, ticks, lastPid);
      View(d, lists.seqs, pcb[..], sem[..], cur, idle, ticks, lastPid)
    }

    /** Static storage, before `init_sched`; the records are written before anything reads them. */
    constructor (d: Nodes)
      requires NodesOk(d) && forall x :: x in AllNodes(d) ==> x.next == null && x.prev == null
      modifies AllNodes(d)
      ensures Valid() && Value() == Freed(0) && log == []
      ensures fresh(pcb) && fresh(sem) && fresh(lists) && lists.pool == AllNodes(d)
    {
      hide NodesOk, Pooled, Inited, Typed, Family.Valid, Shape, View, AllNodes, Freed;
      this.d := d;
      lists := new Family(AllNodes(d));
      pcb := new Pcb[NR_TASKS](_ => Pcb(0, StInvalid, 0, 0, false, Fresh));
      sem := new SemRec[NR_SEMAPHORES](_ => SemRec(false, 0, 0));
      cur, idle, ticks, lastPid := 0, 0, 0, 0;
      log := [];
      new;
      NodesApart(d);
      lists.Init(d.freeQueue);
      lists.Init(d.readyQueue);
      assert lists.seqs == StartLists(d);
      StartView(d, pcb[..], sem[..]);
    }

    /** `list_del` of entry number `k` of the list `p`. */
    method Leave(x: ListHead, ghost p: Place, ghost k: nat)
      requires Valid() && PlaceOk(p) && k < |Queue(Value(), p)|
      requires Queue(Value(), p)[k] < Limit(p) && x == Node(d, p, Queue(Value(), p)[k])
      modifies lists, lists.pool
      ensures Valid() && lists.seqs.Keys == old(lists.seqs.Keys) && x !in lists.home
      ensures Value() == SetQueue(old(Value()), p, old(Queue(Value(), p))[..k] + old(Queue(Value(), p))[k + 1..])
    {
      hide Pooled, Inited, Typed, Names, Family.Valid, Shape;
      ghost var h, q := Head(d, p), lists.seqs[Head(d, p)];
      ViewQueue(d, lists.seqs, pcb[..], sem[..], cur, idle, ticks, lastPid, p);
      MemberNode(d, lists.seqs, p, k);
      MembersOk(p);
      CutAll(d, p, q, k);
      NamesCut(q, k);
      TypedSet(d, lists.seqs, p, q[..k] + q[k + 1..]);
      ViewSet(d, lists.seqs, pcb[..], sem[..], cur, idle, ticks, lastPid, p, q[..k] + q[k + 1..]);
      lists.Del(x, h, k);
      assert lists.seqs.Keys == old(lists.seqs.Keys);
    }

    /** `list_add_tail` of a node that is on no list. */
    method Join(x: ListHead, h: ListHead, ghost p: Place, ghost i: nat)
      requires Valid() && PlaceOk(p) && h == Head(d, p) && h in lists.seqs
      requires i < Limit(p) && x == Node(d, p, i) && x !in lists.home
      modifies lists, lists.pool
      ensures Valid() && lists.seqs.Keys == old(lists.seqs.Keys)
      ensures Value() == SetQueue(old(Value()), p, old(Queue(Value(), p)) + [i])
    {
      hide Pooled, Inited, Names, Family.Valid, Shape;
      ghost var q := lists.seqs[h];
      ViewQueue(d, lists.seqs, pcb[..], sem[..], cur, idle, ticks, lastPid, p);
      MembersOk(p);
      NodePooled(p, i);
      NamesSnoc(q, x);
      TypedSet(d, lists.seqs, p, q + [x]);
      hide Typed;
      ViewSet(d, lists.seqs, pcb[..], sem[..], cur, idle, ticks, lastPid, p, q + [x]);
      lists.AddTail(x, h);
      assert lists.seqs.Keys == old(lists.seqs.Keys);
    }

    /** `list_add` of a node that is on no list. */
    method JoinFirst(x: ListHead, h: ListHead, ghost p: Place, ghost i: nat)
      requires Valid() && PlaceOk(p) && h == Head(d, p) && h in lists.seqs
      requires i < Limit(p) && x == Node(d, p, i) && x !in lists.home
      modifies lists, lists.pool
      ensures Valid() && lists.seqs.Keys == old(lists.seqs.Keys)
      ensures Value() == SetQueue(old(Value()), p, [i] + old(Queue(Value(), p)))
    {
      hide Pooled, Inited, Names, Family.Valid, Shape;
      ghost var q := lists.seqs[h];
      ViewQueue(d, lists.seqs, pcb[..], sem[..], cur, idle, ticks, lastPid, p);
      MembersOk(p);
      NodePooled(p, i);
      NamesSnoc(q, x);
      TypedSet(d, lists.seqs, p, [x] + q);
      hide Typed;
      ViewSet(d, lists.seqs, pcb[..], sem[..], cur, idle, ticks, lastPid, p, [x] + q);
      lists.Add(x, h);
      assert lists.seqs.Keys == old(lists.seqs.Keys);
    }

    /** `INIT_LIST_HEAD` on a head whose list is empty or does not exist yet. */
    method InitHead(h: ListHead, ghost p: Place)
      requires Valid() && PlaceOk(p) && h == Head(d, p) && Queue(Value(), p) == []
      modifies lists, lists.pool
      ensures Valid() && lists.seqs.Keys == old(lists.seqs.Keys) + {h} && lists.home == old(lists.home)
      ensures Value() == old(Value())
    {
      hide Pooled, Names, Family.Valid, Shape;
      ViewQueue(d, lists.seqs, pcb[..], sem[..], cur, idle, ticks, lastPid, p);
      HeadPooled(p);
      TypedSet(d, lists.seqs, p, []);
      hide Typed;
      ViewSet(d, lists.seqs, pcb[..], sem[..], cur, idle, ticks, lastPid, p, []);
      SetSame(Value(), p);
      assert Names([]) == [];
      lists.Init(h);
      assert lists.seqs.Keys == old(lists.seqs.Keys) + {h};
    }

    lemma NodePooled(p: Place, i: nat)
      requires Valid() && i < Limit(p)
      ensures Node(d, p, i) in lists.pool && Node(d, p, i) !in lists.seqs
    {
    }

    lemma HeadPooled(p: Place)
      requires Valid() && PlaceOk(p)
      ensures Head(d, p) in lists.pool && Head(d, p) !in lists.home
    {
      forall x | x in lists.home
        ensures !x.role.HeadFor?
      {
        var g := lists.home[x];
        var i :| 0 <= i < |lists.seqs[g]| && lists.seqs[g][i] == x;
        assert MemberOk(d, g.role.place, lists.seqs[g][i]);
      }
    }

    /** A write to one task record. */
    method PutPcb(t: nat, b: Pcb)
      requires Valid() && t < NR_TASKS && (b.state != StInvalid ==> d.owned[t] in lists.seqs)
      modifies pcb
      ensures Valid() && Value() == SetTask(old(Value()), t, AsTask(b, old(Value()).tasks[t].sems))
    {
      hide Pooled, Typed, Shape, Family.Valid, NodesOk;
      ViewTask(d, lists.seqs, pcb[..], t, b);
      hide Members, TasksOf;
      pcb[t] := b;
      assert pcb[..] == old(pcb[..])[t := b];
    }

    /** A write to one semaphore record. */
    method PutSem(n: nat, m: SemRec)
      requires Valid() && n < NR_SEMAPHORES && (m.used ==> d.blocked[n] in lists.seqs)
      modifies sem
      ensures Valid() && Value() ==
        old(Value()).(sems := old(Value()).sems[n := AsSem(m, old(Value()).sems[n].blocked)])
    {
      hide Pooled, Typed, Shape, Family.Valid, NodesOk;
      ViewSem(d, lists.seqs, sem[..], n, m);
      hide Members, SemsOf;
      sem[n] := m;
      assert sem[..] == old(sem[..])[n := m];
    }

    // ---------------------------------------------------------------- sched.c

    lemma OffUnlinked(t: nat)
      requires Valid() && t < NR_TASKS && At(Value(), t, Off)
      ensures d.anchor[t] !in lists.home
    {
      forall p | PlaceOk(p)
        ensures Queue(Value(), p) == Members(d, lists.seqs, p)
      {
        ViewQueue(d, lists.seqs, pcb[..], sem[..], cur, idle, ticks, lastPid, p);
      }
      assert forall n :: 0 <= n < NR_SEMAPHORES ==> PlaceOk(BlockedList(n));
      hide Members, Shape, View, Typed, Pooled, Inited;
      assert PlaceOk(FreeList) && PlaceOk(ReadyList);
      forall n | 0 <= n < NR_SEMAPHORES
        ensures t !in Members(d, lists.seqs, BlockedList(n))
      {
        assert Queue(Value(), BlockedList(n)) == Value().sems[n].blocked;
      }
      OffMeansNoHome(d, lists.pool, lists.seqs, lists.home, t);
    }

    /** The anchor's links are null exactly when the task is on no queue. */
    lemma LinksTell(t: nat, w: Spot, k: nat)
      requires Valid() && t < NR_TASKS && SpotOk(w) && AtEntry(Value(), t, w, k)
      ensures (d.anchor[t].next != null && d.anchor[t].prev != null) <==> w.On?
      ensures w.On? <==> d.anchor[t] in lists.home
    {
      hide Shape, Pooled, Inited, Names;
      NodePooled(FreeList, t);
      lists.LinkedIffHome(d.anchor[t]);
      match w
      case Off => OffUnlinked(t);
      case On(p) =>
        ViewQueue(d, lists.seqs, pcb[..], sem[..], cur, idle, ticks, lastPid, p);
        MemberNode(d, lists.seqs, p, k);
        lists.MemberHome(d.anchor[t], Head(d, p));
    }

    /** `update_process_state`. */
    method UpdateProcessState(t: nat, dest: ListHead?, isFirst: bool, ghost from: Spot, ghost k: nat, ghost to: Spot)
      requires Valid() && t < NR_TASKS && SpotOk(from) && SpotOk(to) && AtEntry(Value(), t, from, k)
      requires dest == if to.On? then Head(d, to.p) else null
      requires to.On? ==> Head(d, to.p) in lists.seqs
      requires to == On(FreeList) || d.owned[t] in lists.seqs
      modifies lists, lists.pool, pcb
      ensures Valid() && lists.seqs.Keys == old(lists.seqs.Keys)
      ensures Value() == Moved(old(Value()), t, from, k, to, isFirst)
    {
      hide Valid, Value, Shape, SetQueue, Queue, AtEntry, NodesOk;
      ghost var s0 := Value();
      LinksTell(t, from, k);
      if d.anchor[t].next != null && d.anchor[t].prev != null {
        Leave(d.anchor[t], from.p, k);
      }
      ghost var s1 := Value();
      assert s1 == if from.On? then SetQueue(s0, from.p, Queue(s0, from.p)[..k] + Queue(s0, from.p)[k + 1..]) else s0;
      var state := StRun;
      if dest != null {
        Insert(t, dest, isFirst, to.p);
        state := if dest == d.readyQueue then StReady else if dest == d.freeQueue then StInvalid else StBlocked;
        HeadTells(d, to.p);
      }
      LiveInited(t);
      PutPcb(t, pcb[t].(state := state));
    }

    /** `list_add` or `list_add_tail` of a task's anchor. */
    method Insert(t: nat, dest: ListHead, isFirst: bool, ghost p: Place)
      requires Valid() && t < NR_TASKS && PlaceOk(p) && !p.OwnList? && dest == Head(d, p) && dest in lists.seqs
      requires d.anchor[t] !in lists.home
      modifies lists, lists.pool
      ensures Valid() && lists.seqs.Keys == old(lists.seqs.Keys)
      ensures var q := old(Queue(Value(), p));
        Value() == SetQueue(old(Value()), p, if isFirst then [t] + q else q + [t])
    {
      hide Valid, Value, Shape, SetQueue, Queue, NodesOk;
      if isFirst {
        JoinFirst(d.anchor[t], dest, p, t);
      } else {
        Join(d.anchor[t], dest, p, t);
      }
    }

    /** `update_process_state_rr`. */
    method UpdateProcessStateRr(t: nat, dest: ListHead?, ghost from: Spot, ghost to: Spot)
      requires Valid() && t < NR_TASKS && SpotOk(from) && SpotOk(to) && At(Value(), t, from)
      requires dest == if to.On? then Head(d, to.p) else null
      requires to.On? ==> Head(d, to.p) in lists.seqs
      requires to == On(FreeList) || d.owned[t] in lists.seqs
      modifies lists, lists.pool, pcb
      ensures Valid() && lists.seqs.Keys == old(lists.seqs.Keys)
      ensures Value() == Transfer(old(Value()), t, from, to)
    {
      hide Valid, Value, Shape, NodesOk, At, AtEntry, Moved, Transfer;
      MovedIsTransfer(Value(), t, from, to);
      UpdateProcessState(t, dest, false, from, 0, to);
    }

    lemma LiveInited(t: nat)
      requires Valid() && t < NR_TASKS
      ensures Value().tasks[t] == AsTask(pcb[t], Value().tasks[t].sems)
      ensures pcb[t].state != StInvalid ==> d.owned[t] in lists.seqs
      ensures d.freeQueue in lists.seqs && d.readyQueue in lists.seqs
    {
      assert pcb[..][t] == pcb[t];
    }

    lemma SemInited(n: nat)
      requires Valid() && n < NR_SEMAPHORES
      ensures Value().sems[n] == AsSem(sem[n], Value().sems[n].blocked)
      ensures sem[n].used ==> d.blocked[n] in lists.seqs
    {
      assert sem[..][n] == sem[n];
    }

    /** `list_empty` and `list_first` on a task queue: the first task, if there is one. */
    method FirstTask(h: ListHead, ghost p: Place) returns (none: bool, t: nat)
      requires Valid() && PlaceOk(p) && !p.OwnList? && h == Head(d, p) && h in lists.seqs
      ensures none == (Queue(Value(), p) == [])
      ensures !none ==> Queue(Value(), p) != [] && t == Queue(Value(), p)[0] && t < NR_TASKS
    {
      hide Shape, Pooled, Inited, Family.Valid;
      ViewQueue(d, lists.seqs, pcb[..], sem[..], cur, idle, ticks, lastPid, p);
      none := lists.Empty(h);
      t := 0;
      if !none {
        MemberNode(d, lists.seqs, p, 0);
        var x := lists.First(h);
        t := Name(x);
      }
    }

    /** The part of `update_stats` that scheduling depends on. */
    method UpdateStats(t: nat, e: Event)
      requires Valid() && t < NR_TASKS
      modifies pcb, this`log
      ensures Valid() && Value() == Accounted(old(Value()), t, e) && log == old(log) + [Acct(t, e)]
    {
      hide Valid, Value, Shape, NodesOk;
      LiveInited(t);
      if e == CurrentTicksUpdated {
        var aux := pcb[t].quantum - ticks;
        PutPcb(t, pcb[t].(remaining := if aux >= 0 then aux else 0));
      } else if e == FreeToReady || e == SysToReady {
        PutPcb(t, pcb[t].(remaining := pcb[t].quantum));
      }
      log := log + [Acct(t, e)];
    }

    method SetTicks(v: int)
      requires Valid()
      modifies this`ticks
      ensures Valid() && Value() == old(Value()).(ticks := v)
    {
      ticks := v;
    }

    /** The effect of `task_switch` on who is current. */
    method SetCurrent(t: nat)
      requires Valid() && t < NR_TASKS
      modifies this`cur
      ensures Valid() && Value() == old(Value()).(cur := t)
    {
      cur := t;
    }

    /** The rest of the kernel path on which the new current task was suspended. */
    method Resumed()
      requires Valid()
      modifies pcb, this`log
      ensures Valid() && Value() == Unwind(old(Value())).0 && log == old(log) + Unwind(old(Value())).1
    {
      hide Valid, Value, Shape, NodesOk;
      LiveInited(cur);
      var r := 0;
      match pcb[cur].cont
      case InWait(_) =>
        if pcb[cur].semDeleted {
          PutPcb(cur, pcb[cur].(semDeleted := false));
          r := -1;
        }
        log := log + [Resume(cur, r)];
        UpdateStats(cur, SysToUser);
      case Preempted =>
        UpdateStats(cur, SysToUser);
      case Fresh =>
        if cur != idle {
          UpdateStats(cur, SysToUser);
        }
    }

    /** `sched_next_rr` up to and including the switch. */
    method SwitchToNext(t: nat, ghost from: Spot)
      requires Valid() && SpotOk(from) && t < NR_TASKS && At(Value(), t, from) && Value().tasks[t].state != StInvalid
      modifies lists, lists.pool, pcb, this`log, this`ticks, this`cur
      ensures Valid() && lists.seqs.Keys == old(lists.seqs.Keys)
      ensures Value() == Dispatched(old(Value()), t, from)
      ensures log == old(log) + [Dispatch(t), Acct(t, ReadyToSys), Acct(t, CurrentTicksUpdated)]
    {
      hide Valid, Value, Shape, NodesOk, At, Transfer, Accounted;
      LiveInited(t);
      UpdateProcessStateRr(t, null, from, Off);
      log := log + [Dispatch(t)];
      UpdateStats(t, ReadyToSys);
      StartSlice(t);
    }

    method StartSlice(t: nat)
      requires Valid() && t < NR_TASKS
      modifies pcb, this`log, this`ticks, this`cur
      ensures Valid() && Value() == Accounted(old(Value()).(ticks := 0), t, CurrentTicksUpdated).(cur := t)
      ensures log == old(log) + [Acct(t, CurrentTicksUpdated)]
    {
      hide Valid, Value, Shape, Accounted;
      SetTicks(0);
      UpdateStats(t, CurrentTicksUpdated);
      SetCurrent(t);
    }

    /** `sched_next_rr`. */
    method SchedNextRr()
      requires Valid() && At(Value(), idle, Off) && Value().tasks[Next(Value())].state != StInvalid
      modifies lists, lists.pool, pcb, this`log, this`ticks, this`cur
      ensures Valid() && lists.seqs.Keys == old(lists.seqs.Keys)
      ensures Value() == Reschedule(old(Value())).0 && log == old(log) + Reschedule(old(Value())).1
    {
      hide Valid, Value, Shape, NodesOk, At, Dispatched, Unwind, Reschedule, Next, Queue;
      LiveInited(cur);
      ReadyFirst(Value());
      RescheduleParts(Value());
      var none, first := FirstTask(d.readyQueue, ReadyList);
      var t := if none then idle else first;
      SwitchToNext(t, if none then Off else On(ReadyList));
      Resumed();
    }

    /** `add_process_to_scheduling`. */
    method AddToScheduling(t: nat, e: Event, isFirst: bool, ghost from: Spot, ghost k: nat)
      requires Valid() && t < NR_TASKS && SpotOk(from) && AtEntry(Value(), t, from, k) && d.owned[t] in lists.seqs
      modifies lists, lists.pool, pcb, this`log
      ensures Valid() && lists.seqs.Keys == old(lists.seqs.Keys) && log == old(log) + [Acct(t, e)]
      ensures Value() == Accounted(Moved(old(Value()), t, from, k, On(ReadyList), isFirst), t, e)
    {
      hide Valid, Value, Shape, NodesOk, Moved, AtEntry, Accounted;
      LiveInited(t);
      UpdateProcessState(t, d.readyQueue, isFirst, from, k, On(ReadyList));
      UpdateStats(t, e);
    }

    /** The same at the tail, for the first entry of a list or a task on none. */
    method MakeReady(t: nat, e: Event, ghost from: Spot)
      requires Valid() && t < NR_TASKS && SpotOk(from) && At(Value(), t, from) && d.owned[t] in lists.seqs
      modifies lists, lists.pool, pcb, this`log
      ensures Valid() && lists.seqs.Keys == old(lists.seqs.Keys) && log == old(log) + [Acct(t, e)]
      ensures Value() == Accounted(Transfer(old(Value()), t, from, On(ReadyList)), t, e)
    {
      hide Valid, Value, Shape, NodesOk, At, AtEntry, Moved, Transfer, Accounted;
      MovedIsTransfer(Value(), t, from, On(ReadyList));
      AddToScheduling(t, e, false, from, 0);
    }

    /** `needs_sched_rr`. */
    method NeedsSchedRr() returns (r: bool)
      requires Valid()
      ensures r == NeedsSched(Value())
      ensures pcb[cur].remaining == NonNegative(pcb[cur].quantum - ticks) ==>
        (r <==> (cur == idle && Value().ready != []) || ticks >= pcb[cur].quantum)
    {
      hide Valid, Value, Shape, NodesOk;
      LiveInited(cur);
      var none, _ := FirstTask(d.readyQueue, ReadyList);
      r := (cur == idle && !none) || pcb[cur].remaining == 0;
    }

    /** The half of `execute_scheduling` that gives up the CPU. */
    method GiveUp()
      requires Valid() && SInv(Value())
      modifies lists, lists.pool, pcb, this`log
      ensures Valid() && Value() == Preempting(old(Value())) && log == old(log) + [Acct(cur, SysToReady)]
    {
      hide Valid, Value, Shape, NodesOk, Transfer, Accounted, Good, At;
      ghost var s := Value();
      LiveInited(cur);
      CurrentRuns(s);
      if cur != idle {
        UpdateProcessStateRr(cur, d.readyQueue, Off, On(ReadyList));
      }
      UpdateStats(cur, SysToReady);
      LiveInited(cur);
      PutPcb(cur, pcb[cur].(cont := Preempted));
    }

    /** `update_sched_data_rr`. */
    method UpdateSchedData()
      requires Valid()
      modifies pcb, this`log, this`ticks
      ensures Valid() && Value() == Aged(old(Value())) && log == old(log) + [Acct(cur, CurrentTicksUpdated)]
    {
      hide Valid, Value, Shape, Accounted;
      SetTicks(ticks + 1);
      UpdateStats(cur, CurrentTicksUpdated);
    }

    /** `execute_scheduling`. */
    method ExecuteScheduling() returns (switched: bool)
      requires Valid() && SInv(Value())
      modifies lists, lists.pool, pcb, this`log, this`ticks, this`cur
      ensures Valid() && (!switched ==> cur == old(cur))
      ensures (switched, Value()) == (Executed(old(Value())).0, Executed(old(Value())).1)
      ensures switched == Quanta.Switches(old(Value()), ClockTick)
      ensures log == old(log) + Executed(old(Value())).2
    {
      hide Valid, Value, Shape, NodesOk, Good, At, Aged, Preempting, NeedsSched, Reschedule, Tick;
      TickParts(Value());
      AgedIs(Value());
      Quanta.NeedsIffSwitches(Value());
      hide RefreshTicks, Quanta.Switches;
      UpdateSchedData();
      switched := NeedsSchedRr();
      if switched {
        GiveUp();
        GoodNext(Value(), false);
        SchedNextRr();
      }
    }

    /** The clock interrupt: `clock_handler` and `clock_routine`. */
    method ClockHandler()
      requires Valid() && SInv(Value())
      modifies lists, lists.pool, pcb, this`log, this`ticks, this`cur
      ensures Valid() && Value() == Tick(old(Value())).0 && log == old(log) + Tick(old(Value())).1
      ensures ticks == if Quanta.Switches(old(Value()), ClockTick) then 0 else old(ticks) + 1
    {
      hide Valid, Value, Shape, NodesOk, Accounted, Good, At, Aged, Preempting, NeedsSched, Tick, Reschedule;
      ExecutedTick(Value());
      Quanta.TickCpu(Value());
      hide Quanta.Switches, Quanta.TickStep;
      CurrentRuns(Value());
      LiveInited(cur);
      hide Executed;
      UpdateStats(cur, UserToSys);
      LiveInited(cur);
      var switched := false;
      if pcb[cur].state == StRun {
        switched := ExecuteScheduling();
      }
      if !switched {
        UpdateStats(cur, SysToUser);
      }
    }

    // ---------------------------------------------------------------- fork and clone

    method TakePid() returns (pid: int)
      requires Valid()
      modifies this`lastPid
      ensures Valid() && Value() == old(Value()).(lastPid := old(lastPid) + 1) && pid == old(lastPid)
    {
      pid := lastPid;
      lastPid := lastPid + 1;
    }

    /** `allocate_process`, without the page directory. */
    method AllocateProcess(cont: Cont) returns (none: bool, t: nat)
      requires Valid() && (Value().freeq != [] ==> Value().tasks[Value().freeq[0]].sems == [])
      modifies lists, lists.pool, pcb, this`lastPid
      ensures Valid() && none == (old(Value()).freeq == [])
      ensures none ==> Value() == old(Value())
      ensures !none ==> t == old(Value()).freeq[0] && t < NR_TASKS && Value() == Allocated(old(Value()), cont)
      ensures lists.seqs.Keys == if none then old(lists.seqs.Keys) else old(lists.seqs.Keys) + {d.owned[t]}
    {
      hide Valid, Value, Shape, NodesOk, SetQueue;
      LiveInited(cur);
      none, t := FirstTask(d.freeQueue, FreeList);
      if !none {
        ghost var s := Value();
        assert Queue(s, FreeList) == s.freeq && s.freeq[..0] + s.freeq[1..] == s.freeq[1..];
        Leave(d.anchor[t], FreeList, 0);
        SetFree(s);
        InitTask(t, cont);
      }
    }

    method InitTask(t: nat, cont: Cont)
      requires Valid() && t < NR_TASKS && Value().tasks[t].sems == []
      modifies lists, lists.pool, pcb, this`lastPid
      ensures Valid() && lists.seqs.Keys == old(lists.seqs.Keys) + {d.owned[t]}
      ensures var s := old(Value());
        Value() == SetTask(s.(lastPid := s.lastPid + 1), t,
          Task(s.lastPid, s.tasks[t].state, DEFAULT_QUANTUM, 0, false, [], cont))
    {
      hide Valid, Value, Shape, NodesOk;
      var pid := TakePid();
      InitHead(d.owned[t], OwnList(t));
      LiveInited(t);
      PutPcb(t, Pcb(pid, pcb[t].state, DEFAULT_QUANTUM, 0, false, cont));
    }

    /** The common end of `sys_fork` and `sys_clone`. */
    method Admit(t: nat)
      requires Valid() && t < NR_TASKS && t != cur && d.owned[t] in lists.seqs && At(Value(), t, Off)
      modifies lists, lists.pool, pcb, this`log
      ensures Valid() && Value() == Admitted(old(Value()), t) && log == old(log) + [Acct(t, FreeToReady)]
    {
      hide Valid, Value, Shape, NodesOk, Transfer, Accounted;
      LiveInited(t);
      LiveInited(cur);
      PutPcb(t, pcb[t].(quantum := pcb[cur].quantum));
      MakeReady(t, FreeToReady, Off);
    }

    /** A free PCB for the child, put on the ready queue. */
    method NewTask() returns (r: int)
      requires Valid() && var s := Value(); s.freeq != [] ==>
        && s.freeq[0] != s.cur && s.tasks[s.freeq[0]].sems == [] && At(Allocated(s, Fresh), s.freeq[0], Off)
      modifies lists, lists.pool, pcb, this`log, this`lastPid
      ensures Valid()
      ensures old(Value()).freeq == [] ==> Value() == old(Value()) && r == -EAGAIN && log == old(log)
      ensures old(Value()).freeq != [] ==> var t := old(Value()).freeq[0];
        && Value() == Admitted(Allocated(old(Value()), Fresh), t) && r == old(lastPid)
        && log == old(log) + [Acct(t, FreeToReady)]
    {
      hide Valid, Value, Shape, NodesOk, At, Admitted;
      var none, t := AllocateProcess(Fresh);
      if none {
        return -EAGAIN;
      }
      r := lastPid - 1;
      Admit(t);
    }

    /** The scheduling side of `sys_fork` and `sys_clone`. */
    method SysSpawn() returns (r: int)
      requires Valid() && SInv(Value())
      modifies lists, lists.pool, pcb, this`log, this`lastPid
      ensures Valid() && Value() == Spawn(old(Value())).0 && r == Spawn(old(Value())).1
      ensures old(lastPid) > 0 ==> Calls.SpawnAnswer(old(Value()), Value(), r)
      ensures log == old(log) + Spawn(old(Value())).2
    {
      hide Valid, Value, Shape, NodesOk, At, SInv, Allocated, Admitted;
      ghost var s := Value();
      Calls.SpawnAnswersIf(s);
      SpawnParts(s);
      hide Spawn, Calls.SpawnAnswer;
      if s.freeq != [] {
        FreeOff(s);
      }
      UpdateStats(cur, UserToSys);
      r := NewTask();
      UpdateStats(cur, SysToUser);
    }

    // ---------------------------------------------------------------- semaphores

    lemma SemUnlinked(n: nat)
      requires Valid() && n < NR_SEMAPHORES && forall t :: 0 <= t < NR_TASKS ==> n !in Value().tasks[t].sems
      ensures d.semAnchor[n] !in lists.home
    {
      forall t | 0 <= t < NR_TASKS
        ensures Value().tasks[t].sems == Members(d, lists.seqs, OwnList(t))
      {
        ViewQueue(d, lists.seqs, pcb[..], sem[..], cur, idle, ticks, lastPid, OwnList(t));
      }
      hide Members, Shape, View, Value, Typed, Pooled, Inited;
      if d.semAnchor[n] in lists.home {
        var t := SemHomeMeansOwned(d, lists.pool, lists.seqs, lists.home, n);
      }
    }

    method OpenSem(n: nat, v: I32)
      requires Valid() && n < NR_SEMAPHORES && Value().sems[n].blocked == [] && d.semAnchor[n] !in lists.home
      requires d.owned[cur] in lists.seqs
      modifies lists, lists.pool, sem
      ensures Valid()
      ensures var s := old(Value());
        var s1 := s.(sems := s.sems[n := AsSem(SemRec(true, v, s.cur), s.sems[n].blocked)]);
        Value() == SetQueue(s1, OwnList(s.cur), [n] + Queue(s, OwnList(s.cur)))
    {
      hide Valid, Value, Shape, NodesOk, SetQueue;
      InitHead(d.blocked[n], BlockedList(n));
      PutSem(n, SemRec(true, v, cur));
      JoinFirst(d.semAnchor[n], d.owned[cur], OwnList(cur), n);
    }

    /** `sys_sem_init`. */
    method SemInitCall(n: int, v: int) returns (r: int, ghost evs: seq<Ev>)
      requires Valid() && SInv(Value()) && 0 <= v < 0x1_0000_0000
      modifies lists, lists.pool, sem, this`log
      ensures Valid() && SemInit(old(Value()), n, v) == Quiet(Value(), r, evs) && log == old(log) + evs
    {
      hide Valid, Value, Shape, NodesOk, SInv, SemInit, Quiet, SetQueue;
      ghost var s := Value();
      InitCases(s, n, v);
      if n < 0 || n >= NR_SEMAPHORES {
        return -EINVAL, [];
      }
      SemInited(n);
      if sem[n].used {
        return -EBUSY, [];
      }
      UnusedUnowned(s, n);
      SemUnlinked(n);
      LiveInited(cur);
      CurrentRuns(s);
      hide At;
      OpenSem(n, Int32(v));
      r, evs := 0, [Create(n, Int32(v))];
      log := log + evs;
    }

    /** The current task goes to the tail of the waiters. */
    method ParkCurrent(n: nat)
      requires Valid() && SInv(Value()) && cur != idle && n < NR_SEMAPHORES && Value().sems[n].used
      requires Value().sems[n].count == 0
      modifies lists, lists.pool, pcb, this`log
      ensures Valid() && Value() == Block(old(Value()), n) && log == old(log) + [Park(cur, n), Acct(cur, SysToBlocked)]
    {
      hide Valid, Value, Shape, NodesOk, SInv, Good, Transfer, Block, At;
      ghost var s := Value();
      CurrentRuns(s);
      BlockParts(s, n);
      LiveInited(cur);
      SemInited(n);
      UpdateProcessStateRr(cur, d.blocked[n], Off, On(BlockedList(n)));
      log := log + [Park(cur, n)];
      UpdateStats(cur, SysToBlocked);
      LiveInited(cur);
      PutPcb(cur, pcb[cur].(cont := InWait(n)));
    }

    /** The current task waits and the next one runs. */
    method WaitOn(n: nat)
      requires Valid() && SInv(Value()) && cur != idle && n < NR_SEMAPHORES && Value().sems[n].used
      requires Value().sems[n].count == 0
      modifies lists, lists.pool, pcb, this`log, this`ticks, this`cur
      ensures Valid() && Value() == Reschedule(Block(old(Value()), n)).0
      ensures log == old(log) + [Park(old(cur), n), Acct(old(cur), SysToBlocked)] + Reschedule(Block(old(Value()), n)).1
    {
      hide Valid, Value, Shape, NodesOk, SInv, Good, Reschedule, At, Block;
      BlockParts(Value(), n);
      GoodNext(Block(Value(), n), false);
      ParkCurrent(n);
      SchedNextRr();
    }

    /** `sys_sem_wait` as far as the caller gets without giving up the CPU; the rest is `Resumed`. */
    method SysSemWait(n: int) returns (blocks: bool, r: int)
      requires Valid() && SInv(Value()) && cur != idle
      modifies lists, lists.pool, pcb, sem, this`log, this`ticks, this`cur
      ensures Valid() && Value() == SemWait(old(Value()), n).0 && log == old(log) + SemWait(old(Value()), n).2
      ensures SemWait(old(Value()), n).1 == if blocks then None else Some(r)
      ensures Calls.WaitAnswer(old(Value()), n, Value(), if blocks then None else Some(r))
    {
      hide Valid, Value, Shape, NodesOk, SInv, Good, Reschedule, At, Block, Accounted, SemWait;
      ghost var s := Value();
      WaitCases(s, n);
      Calls.WaitAnswers(s, n);
      hide Calls.WaitAnswer;
      blocks, r := false, -EINVAL;
      UpdateStats(cur, UserToSys);
      if 0 <= n < NR_SEMAPHORES {
        SemInited(n);
        if sem[n].used {
          if sem[n].count == 0 {
            WaitOn(n);
            return true, 0;
          }
          PutSem(n, sem[n].(count := Int32(sem[n].count - 1)));
          log := log + [Grant(cur, n)];
          r := 0;
        }
      }
      UpdateStats(cur, SysToUser);
    }

    /** `sys_sem_signal`. */
    method SemSignalCall(n: int) returns (r: int, ghost evs: seq<Ev>)
      requires Valid() && SInv(Value())
      modifies lists, lists.pool, pcb, sem, this`log
      ensures Valid() && SemSignal(old(Value()), n) == Quiet(Value(), r, evs) && log == old(log) + evs
    {
      hide Valid, Value, Shape, NodesOk, SInv, Accounted, Transfer, At, SemSignal, Quiet;
      ghost var s := Value();
      SignalCases(s, n);
      if n < 0 || n >= NR_SEMAPHORES {
        return -EINVAL, [];
      }
      SemInited(n);
      if !sem[n].used {
        return -EINVAL, [];
      }
      var none, t := FirstTask(d.blocked[n], BlockedList(n));
      if none {
        PutSem(n, sem[n].(count := Int32(sem[n].count + 1)));
        evs := [Post(n)];
        log := log + evs;
      } else {
        LiveInited(t);
        WaiterLive(s, n);
        log := log + [Handoff(t, n)];
        MakeReady(t, BlockedToReady, On(BlockedList(n)));
        evs := [Handoff(t, n)] + [Acct(t, BlockedToReady)];
      }
      r := 0;
    }

    /** `list_for_each_safe`, first cursor. */
    method CursorFirst(h: ListHead, ghost p: Place) returns (x: ListHead)
      requires Valid() && PlaceOk(p) && h == Head(d, p) && h in lists.seqs
      ensures CursorAt(d, p, Queue(Value(), p), 0, x)
    {
      hide Shape, Pooled, Inited, Family.Valid;
      ViewQueue(d, lists.seqs, pcb[..], sem[..], cur, idle, ticks, lastPid, p);
      if Queue(Value(), p) != [] {
        MemberNode(d, lists.seqs, p, 0);
      }
      x := lists.First(h);
    }

    /** `list_for_each_safe`, next cursor: after the last entry comes the head. */
    method CursorNext(x: ListHead, ghost p: Place, ghost k: nat) returns (y: ListHead)
      requires Valid() && PlaceOk(p) && Head(d, p) in lists.seqs && CursorAt(d, p, Queue(Value(), p), k, x)
      ensures k < |Queue(Value(), p)| ==> CursorAt(d, p, Queue(Value(), p), k + 1, y)
    {
      hide Shape, Pooled, Inited, Family.Valid;
      ghost var q := Queue(Value(), p);
      ViewQueue(d, lists.seqs, pcb[..], sem[..], cur, idle, ticks, lastPid, p);
      if k < |q| {
        MemberNode(d, lists.seqs, p, k);
        if k + 1 < |q| {
          MemberNode(d, lists.seqs, p, k + 1);
        }
      }
      y := lists.After(x, Head(d, p), k);
    }

    /** One round of the loop in `sys_sem_destroy`. */
    method WakeOne(t: nat, n: nat)
      requires Valid() && n < NR_SEMAPHORES && Value().sems[n].blocked != [] && t == Value().sems[n].blocked[0]
      requires t < NR_TASKS && d.owned[t] in lists.seqs
      modifies lists, lists.pool, pcb, this`log
      ensures Valid() && lists.seqs.Keys == old(lists.seqs.Keys)
      ensures Value() == WakeFirst(old(Value()), n).0 && log == old(log) + WakeFirst(old(Value()), n).1
    {
      hide Valid, Value, Shape, NodesOk, Transfer, At, Accounted, WakeFirst;
      WakeMoves(Value(), n);
      LiveInited(t);
      MakeReady(t, BlockedToReady, On(BlockedList(n)));
      LiveInited(t);
      PutPcb(t, pcb[t].(semDeleted := true));
      log := log + [Abort(t, n)];
    }

    /** The two cursors of `list_for_each_safe` over the list `p`: the entry and the saved successor. */
    ghost predicate Walking(p: Place, pos: ListHead, aux: ListHead)
      requires Valid() && PlaceOk(p)
      reads this`cur, this`idle, this`ticks, this`lastPid, lists, lists.pool, pcb, sem
    {
      && Head(d, p) in lists.seqs
      && CursorAt(d, p, Queue(Value(), p), 0, pos)
      && (Queue(Value(), p) != [] ==> CursorAt(d, p, Queue(Value(), p), 1, aux))
    }

    lemma WalkEnd(p: Place, pos: ListHead, aux: ListHead)
      requires Valid() && PlaceOk(p) && Walking(p, pos, aux) && pos == Head(d, p)
      ensures Queue(Value(), p) == []
    {
      hide Valid, Value;
    }

    method WalkStart(h: ListHead, ghost p: Place) returns (pos: ListHead, aux: ListHead)
      requires Valid() && PlaceOk(p) && h == Head(d, p) && h in lists.seqs
      ensures Walking(p, pos, aux)
    {
      hide Valid, Value, Shape, CursorAt, Queue;
      pos := CursorFirst(h, p);
      aux := CursorNext(pos, p, 0);
    }

    /** The saved successor is the first entry once the visited one has gone. */
    method WalkOn(aux: ListHead, ghost p: Place, ghost q: seq<nat>) returns (pos: ListHead, next: ListHead)
      requires Valid() && PlaceOk(p) && Head(d, p) in lists.seqs
      requires q != [] && CursorAt(d, p, q, 1, aux) && Queue(Value(), p) == q[1..]
      ensures pos == aux && Walking(p, pos, next)
    {
      hide Valid, Value, Shape, Queue;
      pos := aux;
      assert CursorAt(d, p, q[1..], 0, pos);
      hide CursorAt;
      next := CursorNext(pos, p, 0);
    }

    /** The waiters on `n` are live. */
    ghost predicate WaitersInited(n: nat)
      requires Valid() && n < NR_SEMAPHORES
      reads this`cur, this`idle, this`ticks, this`lastPid, lists, lists.pool, pcb, sem
    {
      forall t :: t in Value().sems[n].blocked ==> t < NR_TASKS && d.owned[t] in lists.seqs
    }

    lemma AllInited(n: nat)
      requires Valid() && n < NR_SEMAPHORES
      requires forall i :: 0 <= i < |Value().sems[n].blocked| ==>
        Value().tasks[Value().sems[n].blocked[i]].state != StInvalid
      ensures WaitersInited(n)
    {
      forall t | t in Value().sems[n].blocked
        ensures t < NR_TASKS && d.owned[t] in lists.seqs
      {
        LiveInited(t);
      }
    }

    method WakeVisit(pos: ListHead, aux: ListHead, n: nat) returns (pos': ListHead, aux': ListHead)
      requires Valid() && n < NR_SEMAPHORES && Walking(BlockedList(n), pos, aux) && pos != d.blocked[n]
      requires WaitersInited(n)
      modifies lists, lists.pool, pcb, this`log
      ensures Valid() && lists.seqs.Keys == old(lists.seqs.Keys) && WaitersInited(n)
      ensures Walking(BlockedList(n), pos', aux')
      ensures old(Value()).sems[n].blocked != []
      ensures Value() == WakeFirst(old(Value()), n).0 && log == old(log) + WakeFirst(old(Value()), n).1
    {
      hide Valid, Value, Shape, NodesOk, WakeFirst, CursorAt;
      ghost var q := Value().sems[n].blocked;
      assert Queue(Value(), BlockedList(n)) == q;
      WakeTail(Value(), n);
      assert forall t :: t in q[1..] ==> t in q;
      WakeOne(Name(pos), n);
      assert Queue(Value(), BlockedList(n)) == q[1..];
      pos', aux' := WalkOn(aux, BlockedList(n), q);
    }

    /** The loop of `sys_sem_destroy`: every waiter goes to the ready queue, in order. */
    method WakeWaiters(n: nat)
      requires Valid() && n < NR_SEMAPHORES && d.blocked[n] in lists.seqs && WaitersInited(n)
      modifies lists, lists.pool, pcb, this`log
      ensures Valid() && lists.seqs.Keys == old(lists.seqs.Keys)
      ensures Value() == WakeAll(old(Value()), n).0 && log == old(log) + WakeAll(old(Value()), n).1
    {
      hide Valid, Value, Shape, NodesOk, WakeFirst, WakeAll, WaitersInited, CursorAt, WakeProgress;
      ghost var s0 := Value();
      ghost var done: seq<Ev> := [];
      WakeStart(s0, n);
      var pos, aux := WalkStart(d.blocked[n], BlockedList(n));
      while pos != d.blocked[n]
        invariant Valid() && lists.seqs.Keys == old(lists.seqs.Keys)
        invariant Walking(BlockedList(n), pos, aux) && WaitersInited(n)
        invariant WakeProgress(s0, Value(), n, done) && log == old(log) + done
        decreases |Value().sems[n].blocked|
      {
        ghost var s := Value();
        assert Queue(s, BlockedList(n)) == s.sems[n].blocked;
        pos, aux := WakeVisit(pos, aux, n);
        WakeRound(s0, s, n, done);
        done := done + WakeFirst(s, n).1;
      }
      assert Queue(Value(), BlockedList(n)) == Value().sems[n].blocked;
      WakeEnd(s0, Value(), n, done);
    }

    /** The semaphore is no longer used and leaves its owner's list. */
    method CloseSem(n: nat)
      requires Valid() && n < NR_SEMAPHORES && n in Value().tasks[cur].sems
      modifies lists, lists.pool, sem
      ensures Valid() && lists.seqs.Keys == old(lists.seqs.Keys)
      ensures Value() == Closed(old(Value()), n)
    {
      hide Valid, Value, Shape, NodesOk, SetQueue;
      SemInited(n);
      ghost var k := WithoutAt(Value().tasks[cur].sems, n);
      PutSem(n, sem[n].(used := false));
      Leave(d.semAnchor[n], OwnList(cur), k);
    }

    /** `sys_sem_destroy`. */
    method SemDestroyCall(n: int) returns (r: int, ghost evs: seq<Ev>)
      requires Valid() && (!BadSem(n) ==> DestroyReady(Value(), n))
      modifies lists, lists.pool, pcb, sem, this`log
      ensures Valid() && lists.seqs.Keys == old(lists.seqs.Keys) && log == old(log) + evs
      ensures DestroyCall(old(Value()), n) == (Value(), r, evs)
    {
      hide Valid, Value, Shape, NodesOk, WakeAll, Destroy, Closed;
      ghost var s := Value();
      evs := [];
      if n < 0 || n >= NR_SEMAPHORES {
        return -EINVAL, [];
      }
      SemInited(n);
      if !sem[n].used {
        return -EINVAL, [];
      }
      LiveInited(cur);
      LiveInited(sem[n].owner);
      if pcb[cur].pid != pcb[sem[n].owner].pid {
        return -1, [];
      }
      AllInited(n);
      DestroyParts(s, n);
      CloseSem(n);
      evs := WakeAll(Value(), n).1;
      WakeWaiters(n);
      r := 0;
    }

    /** One round of the loop in `free_semaphores`. */
    method DestroyVisit(pos: ListHead, aux: ListHead) returns (pos': ListHead, aux': ListHead)
      requires Valid() && Walking(OwnList(cur), pos, aux) && pos != d.owned[cur]
      requires Dying(Value(), Value().tasks[cur].sems)
      modifies lists, lists.pool, pcb, sem, this`log
      ensures Valid() && lists.seqs.Keys == old(lists.seqs.Keys) && Walking(OwnList(cur), pos', aux')
      ensures var ns := old(Value()).tasks[cur].sems;
        && ns != [] && ns[0] < NR_SEMAPHORES && Dying(Value(), ns[1..])
        && Value() == Destroy(old(Value()), ns[0]).0 && log == old(log) + Destroy(old(Value()), ns[0]).1
    {
      hide Valid, Value, Shape, NodesOk, CursorAt, Destroy, Good, DestroyReady, OneGone;
      ghost var s := Value();
      ghost var ns := s.tasks[cur].sems;
      assert Queue(s, OwnList(cur)) == ns;
      DyingRound(s, ns);
      DyingReady(s, ns[0]);
      var _, _ := SemDestroyCall(Name(pos));
      assert Queue(Value(), OwnList(cur)) == ns[1..];
      pos', aux' := WalkOn(aux, OwnList(cur), ns);
    }

    /** `free_semaphores` of the current task: each round unlinks the node it visits. */
    method FreeSemaphores()
      requires Valid() && Dying(Value(), Value().tasks[cur].sems) && d.owned[cur] in lists.seqs
      modifies lists, lists.pool, pcb, sem, this`log
      ensures Valid() && Value() == DestroyEach(old(Value()), old(Value()).tasks[cur].sems).0
      ensures log == old(log) + DestroyEach(old(Value()), old(Value()).tasks[cur].sems).1
    {
      hide Valid, Value, Shape, NodesOk, Destroy, Good, Walking, EachProgress, DestroyEach;
      ghost var s0 := Value();
      ghost var ns := s0.tasks[cur].sems;
      ghost var done: seq<Ev> := [];
      EachStart(s0, ns);
      var pos, aux := WalkStart(d.owned[cur], OwnList(cur));
      while pos != d.owned[cur]
        invariant Valid() && lists.seqs.Keys == old(lists.seqs.Keys) && Walking(OwnList(cur), pos, aux)
        invariant Dying(Value(), Value().tasks[cur].sems)
        invariant EachProgress(s0, ns, Value(), Value().tasks[cur].sems, done) && log == old(log) + done
        decreases |Value().tasks[cur].sems|
      {
        ghost var s := Value();
        EachRound(s0, ns, s, s.tasks[cur].sems, done);
        pos, aux := DestroyVisit(pos, aux);
        done := done + Destroy(s, s.tasks[cur].sems[0]).1;
      }
      WalkEnd(OwnList(cur), pos, aux);
      EachEnd(s0, ns, Value(), done);
      InitHead(d.owned[cur], OwnList(cur));
    }

    /** `sys_exit` with `free_process`, without the page directory. */
    method SysExit()
      requires Valid() && SInv(Value()) && cur != idle
      modifies lists, lists.pool, pcb, sem, this`log, this`ticks, this`cur
      ensures Valid() && Value() == Exit(old(Value())).0 && log == old(log) + Exit(old(Value())).1
    {
      hide Valid, Value, Shape, NodesOk, Good, SInv, Exit, At, Reschedule, DestroyEach, Retire, Transfer, Accounted;
      ghost var s := Value();
      CurrentRuns(s);
      RetireParts(s);
      ExitParts(s);
      LiveInited(cur);
      UpdateStats(cur, UserToSys);
      UpdateProcessStateRr(cur, d.freeQueue, Off, On(FreeList));
      FreeSemaphores();
      GoodNext(Value(), false);
      SchedNextRr();
    }

    // ---------------------------------------------------------------- sys_get_stats

    /** `sys_get_stats` for a good buffer: the search for the PID and the refresh. */
    method GetStatsCall(pid: int) returns (r: int, ghost evs: seq<Ev>)
      requires Valid()
      modifies pcb, this`log
      ensures Valid() && GetStats(old(Value()), pid) == Quiet(Value(), r, evs) && log == old(log) + evs
    {
      hide Valid, Value, Shape, NodesOk, Accounted, Quiet;
      ghost var s := Value();
      if pid < 0 {
        return -EINVAL, [];
      }
      for i := 0 to NR_TASKS
        invariant Valid() && Value() == s && log == old(log)
        invariant FindPid(s, pid, 0) == FindPid(s, pid, i)
      {
        LiveInited(i);
        if pcb[i].pid == pid {
          if pcb[i].state == StInvalid {
            return -ESRCH, [];
          }
          evs := [];
          if pcb[i].state == StReady || pcb[i].state == StBlocked {
            evs := [Acct(i, Refresh(pcb[i].state))];
            UpdateStats(i, Refresh(pcb[i].state));
          }
          return 0, evs;
        }
      }
      r, evs := -ESRCH, [];
    }

    // ---------------------------------------------------------------- kernel entries

    method SysSemInit(n: int, v: int) returns (r: int)
      requires Valid() && SInv(Value()) && 0 <= v < 0x1_0000_0000
      modifies lists, lists.pool, pcb, sem, this`log
      ensures Valid() && (Value(), r) == (SemInit(old(Value()), n, v).0, SemInit(old(Value()), n, v).1)
      ensures Calls.InitAnswer(old(Value()), n, v, Value(), r)
      ensures log == old(log) + SemInit(old(Value()), n, v).2
    {
      hide Valid, Value, Shape, SInv, SemInit, Accounted, Calls.InitAnswer;
      Calls.InitAnswers(Value(), n, v);
      ghost var evs;
      UpdateStats(cur, UserToSys);
      r, evs := SemInitCall(n, v);
      UpdateStats(cur, SysToUser);
    }

    method SysSemSignal(n: int) returns (r: int)
      requires Valid() && SInv(Value())
      modifies lists, lists.pool, pcb, sem, this`log
      ensures Valid() && (Value(), r) == (SemSignal(old(Value()), n).0, SemSignal(old(Value()), n).1)
      ensures Calls.SignalAnswer(old(Value()), n, Value(), r)
      ensures log == old(log) + SemSignal(old(Value()), n).2
    {
      hide Valid, Value, Shape, SInv, SemSignal, Accounted, Calls.SignalAnswer;
      Calls.SignalAnswers(Value(), n);
      ghost var evs;
      UpdateStats(cur, UserToSys);
      r, evs := SemSignalCall(n);
      UpdateStats(cur, SysToUser);
    }

    method SysSemDestroy(n: int) returns (r: int)
      requires Valid() && SInv(Value())
      modifies lists, lists.pool, pcb, sem, this`log
      ensures Valid() && (Value(), r) == (SemDestroy(old(Value()), n).0, SemDestroy(old(Value()), n).1)
      ensures Calls.DestroyAnswer(old(Value()), n, Value(), r)
      ensures log == old(log) + SemDestroy(old(Value()), n).2
    {
      hide Valid, Value, Shape, SInv, DestroyCall, DestroyReady, Accounted, Calls.DestroyAnswer;
      Calls.SemDestroyAnswers(Value(), n);
      ghost var evs;
      ghost var s := Value();
      InvDestroyReady(s, n);
      UpdateStats(cur, UserToSys);
      r, evs := SemDestroyCall(n);
      UpdateStats(cur, SysToUser);
    }

    method SysGetStats(pid: int) returns (r: int)
      requires Valid()
      modifies pcb, this`log
      ensures Valid() && (Value(), r) == (GetStats(old(Value()), pid).0, GetStats(old(Value()), pid).1)
      ensures log == old(log) + GetStats(old(Value()), pid).2
      ensures Calls.PidsApart(old(Value())) ==> Calls.StatsAnswer(old(Value()), pid, r, GetStats(old(Value()), pid).2)
    {
      hide Valid, Value, Shape, GetStats, Accounted, Calls.StatsAnswer, Calls.PidsApart;
      if Calls.PidsApart(Value()) {
        Calls.StatsAnswers(Value(), pid);
      }
      ghost var evs;
      UpdateStats(cur, UserToSys);
      r, evs := GetStatsCall(pid);
      UpdateStats(cur, SysToUser);
    }

    /** A system call that leaves the scheduler alone. */
    method SysOther()
      requires Valid()
      modifies pcb, this`log
      ensures Valid() && Value() == old(Value()) && log == old(log) + Quiet(old(Value()), 0, []).2
    {
      hide Valid, Value, Shape, Accounted;
      UpdateStats(cur, UserToSys);
      UpdateStats(cur, SysToUser);
    }

    /** Any kernel entry: memory follows the step function, the log its events, and the invariant stays. */
    method Enter(op: Op)
      requires Valid() && SInv(Value()) && Enabled(Value(), op)
      modifies lists, lists.pool, pcb, sem, this`log, this`ticks, this`cur, this`lastPid
      ensures Valid() && SInv(Value())
      ensures Value() == Step(old(Value()), op).0 && log == old(log) + Step(old(Value()), op).1
    {
      hide Valid, Value, Shape, SInv, Tick, Spawn, Exit, SemInit, SemWait, SemSignal, SemDestroy, GetStats;
      StepKeeps(Value(), op);
      match op
      case ClockTick => ClockHandler();
      case SysSpawn => var _ := SysSpawn();
      case SysExit => SysExit();
      case SysSemInit(n, v) => var _ := SysSemInit(n, v);
      case SysSemWait(n) => var _, _ := SysSemWait(n);
      case SysSemSignal(n) => var _ := SysSemSignal(n);
      case SysSemDestroy(n) => var _ := SysSemDestroy(n);
      case SysGetStats(pid) => var _ := SysGetStats(pid);
      case SysOther => SysOther();
    }

    // ---------------------------------------------------------------- boot

    /** The loop of `init_sched` that frees all tasks. */
    method FreeAllTasks()
      requires Valid() && Value() == Freed(0)
      modifies lists, lists.pool, pcb
      ensures Valid() && Value() == Freed(NR_TASKS)
    {
      hide Valid, Value, Shape, NodesOk, Freed, Transfer, At;
      for i := 0 to NR_TASKS
        invariant Valid() && Value() == Freed(i)
      {
        FreedNext(i);
        LiveInited(i);
        UpdateProcessStateRr(i, d.freeQueue, Off, On(FreeList));
      }
    }

    /** `init_idle` and `init_task1`. */
    method StartTasks()
      requires Valid() && Value() == Freed(NR_TASKS)
      modifies lists, lists.pool, pcb, this`lastPid, this`cur, this`idle, this`log
      ensures Valid() && Value() == Booted() && SInv(Value())
    {
      hide Valid, Value, Shape, NodesOk, Freed, Booted, Allocated, SInv;
      BootParts();
      BootedInv();
      var none, t := AllocateProcess(Fresh);
      LiveInited(t);
      SetIdle(t);
      PutPcb(t, pcb[t].(state := StReady));
      none, t := AllocateProcess(Fresh);
      LiveInited(t);
      PutPcb(t, pcb[t].(state := StRun));
      UpdateStats(t, FreeToReady);
      SetCurrent(t);
    }

    method SetIdle(t: nat)
      requires Valid() && t < NR_TASKS
      modifies this`idle
      ensures Valid() && Value() == old(Value()).(idle := t)
    {
      idle := t;
    }

    lemma MembersOk(p: Place)
      requires Valid() && PlaceOk(p) && Head(d, p) in lists.seqs
      ensures forall i :: 0 <= i < |lists.seqs[Head(d, p)]| ==> MemberOk(d, p, lists.seqs[Head(d, p)][i])
      ensures Members(d, lists.seqs, p) == Names(lists.seqs[Head(d, p)])
    {
    }
  }
}
