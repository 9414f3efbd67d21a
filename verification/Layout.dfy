/**
 How the scheduler state of `Sched` lies in memory: records for the tasks and the semaphores, and
 the list nodes embedded in them. `View` reads the abstract state off that memory.
 */
module Layout {
  import opened Basics
  import opened Sched
  import opened KList

  /** The scalar fields of a `task_struct`. */
  datatype Pcb = Pcb(pid: int, state: State, quantum: int, remaining: int, semDeleted: bool, cont: Cont)

  /** The scalar fields of a `struct semaphore`. */
  datatype SemRec = SemRec(used: bool, count: I32, owner: nat)

  /** The list nodes in static storage. */
  datatype Nodes = Nodes(
    freeQueue: ListHead, readyQueue: ListHead,
    anchor: seq<ListHead>, owned: seq<ListHead>,
    semAnchor: seq<ListHead>, blocked: seq<ListHead>)

  predicate NodesOk(d: Nodes)
    ensures NodesOk(d) ==> |d.anchor| == |d.owned| == NR_TASKS && |d.semAnchor| == |d.blocked| == NR_SEMAPHORES
  {
    && |d.anchor| == |d.owned| == NR_TASKS && |d.semAnchor| == |d.blocked| == NR_SEMAPHORES
    && d.freeQueue.role == HeadFor(FreeList) && d.readyQueue.role == HeadFor(ReadyList)
    && (forall t :: 0 <= t < NR_TASKS ==> d.anchor[t].role == TaskAnchor(t))
    && (forall t :: 0 <= t < NR_TASKS ==> d.owned[t].role == HeadFor(OwnList(t)))
    && (forall n :: 0 <= n < NR_SEMAPHORES ==> d.semAnchor[n].role == SemAnchor(n))
    && (forall n :: 0 <= n < NR_SEMAPHORES ==> d.blocked[n].role == HeadFor(BlockedList(n)))
  }

  predicate PlaceOk(p: Place) {
    (p.BlockedList? ==> p.n < NR_SEMAPHORES) && (p.OwnList? ==> p.t < NR_TASKS)
  }

  function Head(d: Nodes, p: Place): (h: ListHead)
    requires NodesOk(d) && PlaceOk(p)
    ensures h.role == HeadFor(p)
  {
    match p
    case FreeList => d.freeQueue
    case ReadyList => d.readyQueue
    case BlockedList(n) => d.blocked[n]
    case OwnList(t) => d.owned[t]
  }

  /** How many things can be on a list of this kind. */
  function Limit(p: Place): (k: nat) {
    if p.OwnList? then NR_SEMAPHORES else NR_TASKS
  }

  /** The node by which task or semaphore `i` sits on the list `p`. */
  function Node(d: Nodes, p: Place, i: nat): (x: ListHead)
    requires NodesOk(d) && i < Limit(p)
    ensures x.role == if p.OwnList? then SemAnchor(i) else TaskAnchor(i)
  {
    if p.OwnList? then d.semAnchor[i] else d.anchor[i]
  }

  /** `list_entry`. */
  function Name(x: ListHead): (i: nat) {
    match x.role
    case TaskAnchor(t) => t
    case SemAnchor(n) => n
    case HeadFor(_) => 0
  }

  function Names(q: seq<ListHead>): (r: seq<nat>)
    ensures |r| == |q| && forall i :: 0 <= i < |q| ==> r[i] == Name(q[i])
  {
    seq(|q|, i requires 0 <= i < |q| => Name(q[i]))
  }

  function Members(d: Nodes, seqs: Lists, p: Place): (r: seq<nat>)
    requires NodesOk(d) && PlaceOk(p)
  {
    if Head(d, p) in seqs then Names(seqs[Head(d, p)]) else []
  }

  /** Lists hold nodes of their own kind. */
  ghost predicate Typed(d: Nodes, seqs: Lists)
    requires NodesOk(d)
  {
    && (forall h :: h in seqs ==> h.role.HeadFor? && PlaceOk(h.role.place) && h == Head(d, h.role.place))
    && (forall h, i :: h in seqs && 0 <= i < |seqs[h]| ==> MemberOk(d, h.role.place, seqs[h][i]))
  }

  predicate MemberOk(d: Nodes, p: Place, x: ListHead)
    requires NodesOk(d)
  {
    Name(x) < Limit(p) && x == Node(d, p, Name(x))
  }

  function AsTask(b: Pcb, sems: seq<nat>): (k: Task) {
    Task(b.pid, b.state, b.quantum, b.remaining, b.semDeleted, sems, b.cont)
  }

  function AsSem(m: SemRec, blocked: seq<nat>): (k: Sem) {
    Sem(m.used, m.count, m.owner, blocked)
  }

  function TasksOf(d: Nodes, seqs: Lists, pcbs: seq<Pcb>): (r: seq<Task>)
    requires NodesOk(d) && |pcbs| == NR_TASKS
    ensures |r| == NR_TASKS
  {
    seq(NR_TASKS, t requires 0 <= t < NR_TASKS => AsTask(pcbs[t], Members(d, seqs, OwnList(t))))
  }

  function SemsOf(d: Nodes, seqs: Lists, recs: seq<SemRec>): (r: seq<Sem>)
    requires NodesOk(d) && |recs| == NR_SEMAPHORES
    ensures |r| == NR_SEMAPHORES
  {
    seq(NR_SEMAPHORES, n requires 0 <= n < NR_SEMAPHORES => AsSem(recs[n], Members(d, seqs, BlockedList(n))))
  }

  function View(d: Nodes, seqs: Lists, pcbs: seq<Pcb>, recs: seq<SemRec>,
                cur: nat, idle: nat, ticks: int, lastPid: int): (s: Sched)
    requires NodesOk(d) && |pcbs| == NR_TASKS && |recs| == NR_SEMAPHORES
  {
    Sched(TasksOf(d, seqs, pcbs), Members(d, seqs, FreeList), Members(d, seqs, ReadyList),
          SemsOf(d, seqs, recs), cur, idle, ticks, lastPid)
  }

  // ---------------------------------------------------------------- the same lists in the abstract state

  predicate Sized(s: Sched) {
    |s.tasks| == NR_TASKS && |s.sems| == NR_SEMAPHORES
  }

  function Queue(s: Sched, p: Place): (q: seq<nat>)
    requires Sized(s) && PlaceOk(p)
  {
    match p
    case FreeList => s.freeq
    case ReadyList => s.ready
    case BlockedList(n) => s.sems[n].blocked
    case OwnList(t) => s.tasks[t].sems
  }

  function SetQueue(s: Sched, p: Place, q: seq<nat>): (r: Sched)
    requires Sized(s) && PlaceOk(p)
    ensures Sized(r) && Queue(r, p) == q
    ensures forall p' :: PlaceOk(p') && p' != p ==> Queue(r, p') == Queue(s, p')
  {
    match p
    case FreeList => s.(freeq := q)
    case ReadyList => s.(ready := q)
    case BlockedList(n) => s.(sems := s.sems[n := s.sems[n].(blocked := q)])
    case OwnList(t) => s.(tasks := s.tasks[t := s.tasks[t].(sems := q)])
  }

  lemma TypedSet(d: Nodes, seqs: Lists, p: Place, q: seq<ListHead>)
    requires NodesOk(d) && PlaceOk(p) && Typed(d, seqs)
    requires forall i :: 0 <= i < |q| ==> MemberOk(d, p, q[i])
    ensures Typed(d, seqs[Head(d, p) := q])
  {
  }

  lemma MembersSet(d: Nodes, seqs: Lists, p: Place, q: seq<ListHead>, p': Place)
    requires NodesOk(d) && PlaceOk(p) && PlaceOk(p')
    ensures Members(d, seqs[Head(d, p) := q], p') == if p' == p then Names(q) else Members(d, seqs, p')
  {
    hide Head, Names;
  }

  lemma TasksSet(d: Nodes, seqs: Lists, pcbs: seq<Pcb>, p: Place, q: seq<ListHead>)
    requires NodesOk(d) && |pcbs| == NR_TASKS && PlaceOk(p)
    ensures TasksOf(d, seqs[Head(d, p) := q], pcbs)
         == var ts := TasksOf(d, seqs, pcbs); if p.OwnList? then ts[p.t := ts[p.t].(sems := Names(q))] else ts
  {
    forall t | 0 <= t < NR_TASKS
      ensures Members(d, seqs[Head(d, p) := q], OwnList(t)) == if p == OwnList(t) then Names(q)
        else Members(d, seqs, OwnList(t))
    {
      MembersSet(d, seqs, p, q, OwnList(t));
    }
    hide Members, Names;
  }

  lemma SemsSet(d: Nodes, seqs: Lists, recs: seq<SemRec>, p: Place, q: seq<ListHead>)
    requires NodesOk(d) && |recs| == NR_SEMAPHORES && PlaceOk(p)
    ensures SemsOf(d, seqs[Head(d, p) := q], recs)
         == var ms := SemsOf(d, seqs, recs); if p.BlockedList? then ms[p.n := ms[p.n].(blocked := Names(q))] else ms
  {
    forall n | 0 <= n < NR_SEMAPHORES
      ensures Members(d, seqs[Head(d, p) := q], BlockedList(n)) == if p == BlockedList(n) then Names(q)
        else Members(d, seqs, BlockedList(n))
    {
      MembersSet(d, seqs, p, q, BlockedList(n));
    }
    hide Members, Names;
  }

  /** Changing one pointer list changes the one abstract list it stands for. */
  lemma ViewSet(d: Nodes, seqs: Lists, pcbs: seq<Pcb>, recs: seq<SemRec>,
                cur: nat, idle: nat, ticks: int, lastPid: int, p: Place, q: seq<ListHead>)
    requires NodesOk(d) && |pcbs| == NR_TASKS && |recs| == NR_SEMAPHORES && PlaceOk(p)
    ensures View(d, seqs[Head(d, p) := q], pcbs, recs, cur, idle, ticks, lastPid)
         == SetQueue(View(d, seqs, pcbs, recs, cur, idle, ticks, lastPid), p, Names(q))
  {
    TasksSet(d, seqs, pcbs, p, q);
    SemsSet(d, seqs, recs, p, q);
    MembersSet(d, seqs, p, q, FreeList);
    MembersSet(d, seqs, p, q, ReadyList);
    hide Members, TasksOf, SemsOf, Names, NodesOk;
  }

  lemma ViewQueue(d: Nodes, seqs: Lists, pcbs: seq<Pcb>, recs: seq<SemRec>,
                  cur: nat, idle: nat, ticks: int, lastPid: int, p: Place)
    requires NodesOk(d) && |pcbs| == NR_TASKS && |recs| == NR_SEMAPHORES && PlaceOk(p)
    ensures Queue(View(d, seqs, pcbs, recs, cur, idle, ticks, lastPid), p) == Members(d, seqs, p)
  {
  }

  /** Writing one task record. */
  lemma ViewTask(d: Nodes, seqs: Lists, pcbs: seq<Pcb>, t: nat, b: Pcb)
    requires NodesOk(d) && |pcbs| == NR_TASKS && t < NR_TASKS
    ensures TasksOf(d, seqs, pcbs[t := b]) == TasksOf(d, seqs, pcbs)[t := AsTask(b, Members(d, seqs, OwnList(t)))]
  {
  }

  lemma ViewSem(d: Nodes, seqs: Lists, recs: seq<SemRec>, n: nat, m: SemRec)
    requires NodesOk(d) && |recs| == NR_SEMAPHORES && n < NR_SEMAPHORES
    ensures SemsOf(d, seqs, recs[n := m]) == SemsOf(d, seqs, recs)[n := AsSem(m, Members(d, seqs, BlockedList(n)))]
  {
  }

  lemma NamesBelow(d: Nodes, seqs: Lists, p: Place)
    requires NodesOk(d) && PlaceOk(p) && Typed(d, seqs)
    ensures forall i :: 0 <= i < |Members(d, seqs, p)| ==> Members(d, seqs, p)[i] < Limit(p)
  {
    if Head(d, p) in seqs {
      var q := seqs[Head(d, p)];
      forall i | 0 <= i < |q|
        ensures Name(q[i]) < Limit(p)
      {
        assert MemberOk(d, p, q[i]);
      }
    }
  }

  lemma ViewShape(d: Nodes, seqs: Lists, pcbs: seq<Pcb>, recs: seq<SemRec>,
                  cur: nat, idle: nat, ticks: int, lastPid: int)
    requires NodesOk(d) && |pcbs| == NR_TASKS && |recs| == NR_SEMAPHORES && Typed(d, seqs)
    requires cur < NR_TASKS && idle < NR_TASKS
    ensures Shape(View(d, seqs, pcbs, recs, cur, idle, ticks, lastPid))
  {
    hide Typed, Members;
    forall p | PlaceOk(p)
      ensures forall i :: 0 <= i < |Members(d, seqs, p)| ==> Members(d, seqs, p)[i] < Limit(p)
    {
      NamesBelow(d, seqs, p);
    }
    assert PlaceOk(FreeList) && PlaceOk(ReadyList);
    assert forall n :: 0 <= n < NR_SEMAPHORES ==> PlaceOk(BlockedList(n));
    assert forall t :: 0 <= t < NR_TASKS ==> PlaceOk(OwnList(t));
  }

  // ---------------------------------------------------------------- moves between lists

  /** Where a task's anchor is: on a list, or nowhere with null links. */
  datatype Spot = Off | On(p: Place)

  predicate SpotOk(w: Spot) {
    w.On? ==> PlaceOk(w.p) && !w.p.OwnList?
  }

  function StateAt(w: Spot): (k: State) {
    match w
    case Off => StRun
    case On(p) => if p == ReadyList then StReady else if p == FreeList then StInvalid else StBlocked
  }

  /**
   The task `t`, entry number `k` of its list if it is on one, goes to the head or the tail of another
   list or to the CPU.
   */
  function Moved(s: Sched, t: nat, from: Spot, k: nat, to: Spot, first: bool): (r: Sched)
    requires Sized(s) && t < NR_TASKS && SpotOk(from) && SpotOk(to)
    requires from.On? ==> k < |Queue(s, from.p)|
    ensures Sized(r)
  {
    var s1 := if from.On? then SetQueue(s, from.p, Queue(s, from.p)[..k] + Queue(s, from.p)[k + 1..]) else s;
    var s2 :=
      if to.On? then SetQueue(s1, to.p, if first then [t] + Queue(s1, to.p) else Queue(s1, to.p) + [t]) else s1;
    SetTask(s2, t, s2.tasks[t].(state := StateAt(to)))
  }

  lemma MovedIsTransfer(s: Sched, t: nat, from: Spot, to: Spot)
    requires Sized(s) && t < NR_TASKS && SpotOk(from) && SpotOk(to) && At(s, t, from)
    ensures AtEntry(s, t, from, 0) && Moved(s, t, from, 0, to, false) == Transfer(s, t, from, to)
  {
    if from.On? {
      var q := Queue(s, from.p);
      assert q[..0] + q[1..] == q[1..];
    }
  }

  /** The task `t`, first on its list if it is on one, goes to the tail of another list or to the CPU. */
  function Transfer(s: Sched, t: nat, from: Spot, to: Spot): (r: Sched)
    requires Sized(s) && t < NR_TASKS && SpotOk(from) && SpotOk(to)
    requires from.On? ==> Queue(s, from.p) != []
    ensures Sized(r)
  {
    var s1 := if from.On? then SetQueue(s, from.p, Queue(s, from.p)[1..]) else s;
    var s2 := if to.On? then SetQueue(s1, to.p, Queue(s1, to.p) + [t]) else s1;
    SetTask(s2, t, s2.tasks[t].(state := StateAt(to)))
  }

  /** What the scheduler state says about where the anchor of `t` is. */
  ghost predicate At(s: Sched, t: nat, w: Spot)
    requires Sized(s) && SpotOk(w)
  {
    match w
    case Off => t !in s.freeq && t !in s.ready && forall n :: 0 <= n < NR_SEMAPHORES ==> t !in s.sems[n].blocked
    case On(p) => Queue(s, p) != [] && Queue(s, p)[0] == t
  }

  /** The same for any entry of a list. */
  ghost predicate AtEntry(s: Sched, t: nat, w: Spot, k: nat)
    requires Sized(s) && SpotOk(w)
    ensures AtEntry(s, t, w, k) && w.On? ==> k < |Queue(s, w.p)| && Queue(s, w.p)[k] == t
  {
    if w.On? then k < |Queue(s, w.p)| && Queue(s, w.p)[k] == t else At(s, t, Off)
  }

  lemma HomeMeansOn(d: Nodes, pool: set<ListHead>, seqs: Lists, home: Homes,
    t: nat) returns (p: Place)
    requires NodesOk(d) && Registered(pool, seqs, home) && Typed(d, seqs) && t < NR_TASKS && d.anchor[t] in home
    ensures PlaceOk(p) && !p.OwnList? && t in Members(d, seqs, p)
  {
    var h := home[d.anchor[t]];
    p := h.role.place;
    var i :| 0 <= i < |seqs[h]| && seqs[h][i] == d.anchor[t];
    assert MemberOk(d, p, seqs[h][i]);
    assert Members(d, seqs, p)[i] == t;
  }

  /** A task on no abstract queue has an unlinked anchor. */
  lemma OffMeansNoHome(d: Nodes, pool: set<ListHead>, seqs: Lists, home: Homes, t: nat)
    requires NodesOk(d) && Registered(pool, seqs, home) && Typed(d, seqs) && t < NR_TASKS
    requires t !in Members(d, seqs, FreeList) && t !in Members(d, seqs, ReadyList)
    requires forall n :: 0 <= n < NR_SEMAPHORES ==> t !in Members(d, seqs, BlockedList(n))
    ensures d.anchor[t] !in home
  {
    if d.anchor[t] in home {
      var p := HomeMeansOn(d, pool, seqs, home, t);
    }
  }

  lemma SemHomeMeansOwned(d: Nodes, pool: set<ListHead>, seqs: Lists, home: Homes, n: nat) returns (t: nat)
    requires NodesOk(d) && Registered(pool, seqs, home) && Typed(d, seqs) && n < NR_SEMAPHORES && d.semAnchor[n] in home
    ensures t < NR_TASKS && n in Members(d, seqs, OwnList(t))
  {
    var h := home[d.semAnchor[n]];
    t := h.role.place.t;
    var i :| 0 <= i < |seqs[h]| && seqs[h][i] == d.semAnchor[n];
    assert MemberOk(d, h.role.place, seqs[h][i]);
    assert Members(d, seqs, OwnList(t))[i] == n;
  }

  lemma MemberNode(d: Nodes, seqs: Lists, p: Place, k: nat)
    requires NodesOk(d) && PlaceOk(p) && Typed(d, seqs) && k < |Members(d, seqs, p)|
    ensures Head(d, p) in seqs && |seqs[Head(d, p)]| == |Members(d, seqs, p)|
    ensures Members(d, seqs, p)[k] < Limit(p) && seqs[Head(d, p)][k] == Node(d, p, Members(d, seqs, p)[k])
  {
    assert MemberOk(d, p, seqs[Head(d, p)][k]);
  }

  lemma NamesCut(q: seq<ListHead>, k: nat)
    requires k < |q|
    ensures Names(q[..k] + q[k + 1..]) == Names(q)[..k] + Names(q)[k + 1..]
  {
  }

  lemma NamesSnoc(q: seq<ListHead>, x: ListHead)
    ensures Names(q + [x]) == Names(q) + [Name(x)] && Names([x] + q) == [Name(x)] + Names(q)
  {
  }

  lemma CutAll(d: Nodes, p: Place, q: seq<ListHead>, k: nat)
    requires NodesOk(d) && k < |q| && forall i :: 0 <= i < |q| ==> MemberOk(d, p, q[i])
    ensures var r := q[..k] + q[k + 1..]; forall i :: 0 <= i < |r| ==> MemberOk(d, p, r[i])
  {
    var r := q[..k] + q[k + 1..];
    forall i | 0 <= i < |r|
      ensures MemberOk(d, p, r[i])
    {
      assert r[i] == q[if i < k then i else i + 1];
    }
  }

  /** A cursor at position `k` of the list `p`; the head stands for the end. */
  predicate CursorAt(d: Nodes, p: Place, q: seq<nat>, k: nat, x: ListHead)
    requires NodesOk(d) && PlaceOk(p)
    ensures CursorAt(d, p, q, k, x) && k < |q| ==>
      q[k] < Limit(p) && x == Node(d, p, q[k]) && x != Head(d, p) && Name(x) == q[k]
    ensures CursorAt(d, p, q, k, x) && k >= |q| ==> x == Head(d, p)
  {
    if k < |q| then q[k] < Limit(p) && x == Node(d, p, q[k]) else x == Head(d, p)
  }
}
