/**
 Time accounting: `update_stats` charges the time since the last event to one of four buckets.
 */
module Stats {
  import opened Basics
  import opened Sched
  import opened SchedInvariant
  import opened SemHistory
  import opened TaskHistory

  function Wrap(x: int): U32 {
    x % TWO32
  }

  datatype Record = Record(
    user: U32, system: U32, blocked: U32, ready: U32, elapsed: U32, trans: U32, remaining: U32)

  const ZERO := Record(0, 0, 0, 0, 0, 0, 0)

  /** One call of `update_stats`: the event, the tick counter, and the PCB fields it looks at. */
  datatype Call = Call(e: Event, now: nat, quantum: U32, left: int)

  /** `left` is the quantum minus the ticks used. A refresh of a running task never ends. */
  predicate Hangs(c: Call) {
    c.e.Refresh? && c.e.state != StReady && c.e.state != StBlocked
  }

  function Update(st: Record, c: Call): (r: Record)
    requires !Hangs(c) && c.left < TWO32
  {
    if c.e == CurrentTicksUpdated then st.(remaining := if c.left >= 0 then c.left else 0)
    else
      var current := Wrap(c.now);
      var incr := Wrap(current - st.elapsed);
      var st1 := match c.e
        case FreeToReady => st.(remaining := c.quantum)
        case UserToSys => st.(user := Wrap(st.user + incr))
        case SysToUser => st.(system := Wrap(st.system + incr))
        case SysToReady => st.(system := Wrap(st.system + incr), remaining := c.quantum)
        case ReadyToSys => st.(ready := Wrap(st.ready + incr), trans := Wrap(st.trans + 1))
        case SysToBlocked => st.(system := Wrap(st.system + incr))
        case BlockedToReady => st.(blocked := Wrap(st.blocked + incr))
        case Refresh(state) => if state == StReady then st.(ready := Wrap(st.ready + incr))
          else st.(blocked := Wrap(st.blocked + incr))
        case CurrentTicksUpdated => st;
      st1.(elapsed := current)
  }

  // ---------------------------------------------------------------- 32-bit sums

  /** Equal as 32-bit values. */
  predicate Same(a: int, b: int) {
    Wrap(a) == Wrap(b)
  }

  lemma SameWrap(a: int)
    ensures Same(Wrap(a), a)
  {
  }

  lemma SameAdd(a: int, b: int, c: int)
    requires Same(a, b)
    ensures Same(a + c, b + c)
  {
    var q := a / TWO32 - b / TWO32;
    assert a + c == b + c + TWO32 * q;
    ShiftMod(b + c, q);
  }

  function Total(st: Record): int {
    st.user + st.system + st.blocked + st.ready
  }

  /** Charging `incr` to a bucket that holds `old_`, next to `rest` in the other three. */
  lemma ChargeOne(old_: int, rest: int, now: int, elapsed: int, incr: int, new_: int)
    requires Same(incr, now - elapsed) && Same(new_, old_ + incr)
    ensures Same(new_ + rest - now, old_ + rest - elapsed)
  {
    hide Wrap;
    SameAdd(incr, now - elapsed, old_ + rest - now);
    SameAdd(new_, old_ + incr, rest - now);
  }

  /** Any event after birth that does not hang adds exactly the time since the last one. */
  lemma UpdateConserves(st: Record, c: Call)
    requires !Hangs(c) && c.left < TWO32 && c.e != FreeToReady
    ensures Same(Total(Update(st, c)) - Update(st, c).elapsed, Total(st) - st.elapsed)
  {
    hide Wrap, Same;
    if c.e == CurrentTicksUpdated {
      SameRefl(Total(st) - st.elapsed);
    } else {
      var now: int, el: int := Wrap(c.now), st.elapsed;
      var incr := Wrap(now - el);
      SameWrap(now - el);
      SameWrap(st.user + incr);
      SameWrap(st.system + incr);
      SameWrap(st.ready + incr);
      SameWrap(st.blocked + incr);
      ChargeOne(st.user, Total(st) - st.user, now, el, incr, Wrap(st.user + incr));
      ChargeOne(st.system, Total(st) - st.system, now, el, incr, Wrap(st.system + incr));
      ChargeOne(st.ready, Total(st) - st.ready, now, el, incr, Wrap(st.ready + incr));
      ChargeOne(st.blocked, Total(st) - st.blocked, now, el, incr, Wrap(st.blocked + incr));
    }
  }

  lemma SameRefl(a: int)
    ensures Same(a, a)
  {
  }

  predicate Legal(cs: seq<Call>) {
    forall i :: 0 <= i < |cs| ==> !Hangs(cs[i]) && cs[i].left < TWO32
  }

  function UpdateAll(st: Record, cs: seq<Call>): (r: Record)
    requires Legal(cs)
    decreases |cs|
  {
    if cs == [] then st else UpdateAll(Update(st, cs[0]), cs[1..])
  }

  /** Conservation: whatever the events, the buckets grow by the time that passes. */
  lemma {:induction false} TimeConserved(st: Record, cs: seq<Call>)
    requires Legal(cs) && forall i :: 0 <= i < |cs| ==> cs[i].e != FreeToReady
    ensures Same(Total(UpdateAll(st, cs)) - UpdateAll(st, cs).elapsed, Total(st) - st.elapsed)
    decreases |cs|
  {
    hide Wrap, Update;
    if cs != [] {
      UpdateConserves(st, cs[0]);
      TimeConserved(Update(st, cs[0]), cs[1..]);
    }
  }

  /** From birth on the four buckets add up to the time since birth, modulo 2^32. */
  lemma TimeSinceBirth(st: Record, birth: Call, cs: seq<Call>)
    requires birth.e == FreeToReady && birth.left < TWO32 && Legal(cs) && forall i :: 0 <= i < |cs| ==>
      cs[i].e != FreeToReady
    requires Total(st) == 0
    ensures var r := UpdateAll(Update(st, birth), cs);
      Same(Total(r), r.elapsed - birth.now)
  {
    var s0 := Update(st, birth);
    assert Total(s0) == 0 && s0.elapsed == Wrap(birth.now);
    hide Wrap, Same, Update, Total;
    var r := UpdateAll(s0, cs);
    TimeConserved(s0, cs);
    SameAdd(Total(r) - r.elapsed, 0 - Wrap(birth.now), r.elapsed);
    SameWrap(birth.now);
    SameAdd(Wrap(birth.now), birth.now, r.elapsed - Wrap(birth.now) - birth.now);
    assert Same(Total(r), r.elapsed - birth.now) by {
      SameTrans(Total(r), r.elapsed - Wrap(birth.now), r.elapsed - birth.now);
    }
  }

  lemma SameTrans(a: int, b: int, c: int)
    requires Same(a, b) && (Same(b, c) || Same(c, b))
    ensures Same(a, c)
  {
  }

  // ---------------------------------------------------------------- each bucket holds its own time

  /** The phase of module `TaskHistory` that a bucket stands for. */
  function Bucket(st: Record, p: Phase): int {
    match p
    case User => st.user
    case System => st.system
    case OnReady => st.ready
    case OnBlocked => st.blocked
    case _ => 0
  }

  /** Events in an order the automaton accepts, on a clock that does not run backwards. */
  predicate Accepted(p: Phase, last: nat, cs: seq<Call>)
    decreases |cs|
  {
    p != Broken &&
    (cs != [] ==>
      var c := cs[0];
      && last <= c.now && c.left < TWO32
      && PhaseNext(p, c.e) != Broken
      && Accepted(PhaseNext(p, c.e), if c.e == CurrentTicksUpdated then last else c.now, cs[1..]))
  }

  /** The reference: real time spent in phase `q`, up to the last charging event. */
  function Spent(q: Phase, p: Phase, last: nat, cs: seq<Call>): (r: int)
    decreases |cs|
  {
    if cs == [] then 0
    else if cs[0].e == CurrentTicksUpdated then Spent(q, p, last, cs[1..])
    else (if p == q then cs[0].now - last else 0) + Spent(q, PhaseNext(p, cs[0].e), cs[0].now, cs[1..])
  }

  lemma {:induction false} AcceptedLegal(p: Phase, last: nat, cs: seq<Call>)
    requires Accepted(p, last, cs)
    ensures Legal(cs)
    decreases |cs|
  {
    if cs != [] {
      AcceptedLegal(PhaseNext(p, cs[0].e), if cs[0].e == CurrentTicksUpdated then last else cs[0].now, cs[1..]);
    }
  }

  predicate Living(p: Phase) {
    p == User || p == System || p == OnReady || p == OnBlocked
  }

  lemma ChargeBucket(st: Record, c: Call, p: Phase, q: Phase, last: nat)
    requires Living(p) && Living(q) && PhaseNext(p, c.e) != Broken && c.left < TWO32
    requires c.e != CurrentTicksUpdated && c.e != FreeToReady && Same(st.elapsed, last)
    ensures !Hangs(c) && Same(Update(st, c).elapsed, c.now)
    ensures Same(Bucket(Update(st, c), q), Bucket(st, q) + if p == q then c.now - last else 0)
  {
    hide Wrap, Same;
    var now: int := Wrap(c.now);
    var incr := Wrap(now - st.elapsed);
    SameWrap(c.now);
    SameRefl(Bucket(st, q));
    if p == q {
      SameWrap(now - st.elapsed);
      SameWrap(Bucket(st, q) + incr);
      Elapse(now, c.now, st.elapsed, last, incr);
      SameAdd(incr, c.now - last, Bucket(st, q));
      SameTrans(Wrap(Bucket(st, q) + incr), Bucket(st, q) + incr, Bucket(st, q) + (c.now - last));
    }
  }

  lemma Elapse(now: int, realNow: int, elapsed: int, last: int, incr: int)
    requires Same(now, realNow) && Same(elapsed, last) && Same(incr, now - elapsed)
    ensures Same(incr, realNow - last)
  {
    hide Wrap;
    SameAdd(now, realNow, -elapsed);
    SameAdd(elapsed, last, realNow - elapsed - last);
  }

  /** Every bucket holds the time spent in its phase, modulo 2^32. */
  lemma {:induction false} BucketsExact(st: Record, p: Phase, q: Phase, last: nat, cs: seq<Call>)
    requires Living(p) && Living(q) && Accepted(p, last, cs) && Same(st.elapsed, last)
    requires forall i :: 0 <= i < |cs| ==> cs[i].e != FreeToReady
    ensures Legal(cs) && Same(Bucket(UpdateAll(st, cs), q), Bucket(st, q) + Spent(q, p, last, cs))
    decreases |cs|
  {
    hide Wrap, Same, Update;
    AcceptedLegal(p, last, cs);
    if cs == [] {
      SameRefl(Bucket(st, q));
    } else {
      var c := cs[0];
      var st1 := Update(st, c);
      if c.e == CurrentTicksUpdated {
        TicksOnly(st, c);
        BucketsExact(st1, p, q, last, cs[1..]);
      } else {
        ChargeBucket(st, c, p, q, last);
        BucketsExact(st1, PhaseNext(p, c.e), q, c.now, cs[1..]);
        var rest := Spent(q, PhaseNext(p, c.e), c.now, cs[1..]);
        SameAdd(Bucket(st1, q), Bucket(st, q) + if p == q then c.now - last else 0, rest);
        SameTrans(Bucket(UpdateAll(st, cs), q), Bucket(st1, q) + rest, Bucket(st, q) + Spent(q, p, last, cs));
      }
    }
  }

  lemma TicksOnly(st: Record, c: Call)
    requires c.e == CurrentTicksUpdated && c.left < TWO32
    ensures !Hangs(c) && Update(st, c) == st.(remaining := Update(st, c).remaining)
  {
  }

  // ---------------------------------------------------------------- the kernel's own events

  /** The accounting events of task `t` in a history. */
  function EventsOf(t: nat, evs: seq<Ev>): (r: seq<Event>)
    decreases |evs|
  {
    if evs == [] then []
    else (if evs[0].Acct? && evs[0].t == t then [evs[0].e] else []) + EventsOf(t, evs[1..])
  }

  function PhaseAfter(p: Phase, es: seq<Event>): (r: Phase)
    decreases |es|
  {
    if es == [] then p else PhaseAfter(PhaseNext(p, es[0]), es[1..])
  }

  lemma {:induction false} FollowPhase(t: nat, k: Track, evs: seq<Ev>)
    ensures Follow(t, k, evs).p == PhaseAfter(k.p, EventsOf(t, evs))
    decreases |evs|
  {
    if evs != [] {
      FollowPhase(t, TrackNext(t, k, evs[0]), evs[1..]);
      var rest := EventsOf(t, evs[1..]);
      if evs[0].Acct? && evs[0].t == t {
        assert ([evs[0].e] + rest)[1..] == rest;
      } else {
        assert [] + rest == rest;
      }
    }
  }

  lemma {:induction false} BrokenForever(es: seq<Event>)
    ensures PhaseAfter(Broken, es) == Broken
    decreases |es|
  {
    if es != [] {
      BrokenForever(es[1..]);
    }
  }

  /** Calls that make these events, on a clock that does not run backwards. */
  predicate Timed(cs: seq<Call>, es: seq<Event>, last: nat)
    decreases |cs|
  {
    && |cs| == |es|
    && (cs != [] ==> cs[0].e == es[0] && last <= cs[0].now && cs[0].left < TWO32
                     && Timed(cs[1..], es[1..], if cs[0].e == CurrentTicksUpdated then last else cs[0].now))
  }

  lemma {:induction false} TimedAccepted(p: Phase, last: nat, cs: seq<Call>, es: seq<Event>)
    requires Timed(cs, es, last) && PhaseAfter(p, es) != Broken
    ensures Accepted(p, last, cs)
    decreases |cs|
  {
    if p == Broken {
      BrokenForever(es);
    }
    if cs != [] {
      if PhaseNext(p, es[0]) == Broken {
        BrokenForever(es[1..]);
      }
      TimedAccepted(PhaseNext(p, es[0]), if cs[0].e == CurrentTicksUpdated then last else cs[0].now, cs[1..], es[1..]);
    }
  }

  /**
   Over any run of the kernel, with any readings of the tick counter, the buckets of a task hold the
   time it spent in user mode, in the kernel, ready and blocked.
   */
  lemma KernelTimesExact(s: Sched, ops: seq<Op>, t: nat, k: Track, st: Record, last: nat, cs: seq<Call>, q: Phase)
    requires SInv(s) && AllEnabled(s, ops) && t < NR_TASKS && t != s.idle && Fits(s, t, k)
    requires Living(k.p) && Living(q) && Same(st.elapsed, last)
    requires Timed(cs, EventsOf(t, Run(s, ops).1), last)
    requires forall i :: 0 <= i < |cs| ==> cs[i].e != FreeToReady
    ensures Legal(cs) && Same(Bucket(UpdateAll(st, cs), q), Bucket(st, q) + Spent(q, k.p, last, cs))
  {
    hide SInv, Same, Run, AllEnabled, Accepted, Timed, Spent;
    RunTracks(s, ops, t, k);
    FollowPhase(t, k, Run(s, ops).1);
    TimedAccepted(k.p, last, cs, EventsOf(t, Run(s, ops).1));
    BucketsExact(st, k.p, q, last, cs);
  }

  // ---------------------------------------------------------------- the fields of the PCB

  /** The statistics of one PCB, updated in place. */
  class TaskStats {
    var user: U32
    var system: U32
    var blocked: U32
    var ready: U32
    var elapsed: U32
    var trans: U32
    var remaining: U32

    ghost function Value(): (r: Record)
      reads this
    {
      Record(user, system, blocked, ready, elapsed, trans, remaining)
    }

    constructor ()
      ensures Value() == ZERO
    {
      user, system, blocked, ready, elapsed, trans, remaining := 0, 0, 0, 0, 0, 0, 0;
    }

    /** `reset_stats`. */
    method Reset()
      modifies this
      ensures Value() == ZERO
    {
      user, system, blocked, ready, elapsed, trans, remaining := 0, 0, 0, 0, 0, 0, 0;
    }

    /** A new task: `reset_stats` when its PCB is taken, the first event when it becomes ready. */
    method Birth(now: nat, quantum: U32)
      modifies this
      ensures Value() == Update(ZERO, Call(FreeToReady, now, quantum, quantum))
      ensures Total(Value()) == 0 && Same(elapsed, now) && trans == 0 && remaining == quantum
    {
      Reset();
      UpdateStats(Call(FreeToReady, now, quantum, quantum));
    }

    /** `update_stats`, with `ticks` the reading of `get_ticks`. */
    method UpdateStats(c: Call)
      requires !Hangs(c) && c.left < TWO32
      modifies this
      ensures Value() == Update(old(Value()), c)
    {
      if c.e == CurrentTicksUpdated {
        remaining := if c.left >= 0 then c.left else 0;
        return;
      }
      var current := Wrap(c.now);
      var incr := Wrap(current - elapsed);
      match c.e {
        case FreeToReady => remaining := c.quantum;
        case UserToSys => user := Wrap(user + incr);
        case SysToUser => system := Wrap(system + incr);
        case SysToReady =>
          system := Wrap(system + incr);
          remaining := c.quantum;
        case ReadyToSys =>
          ready := Wrap(ready + incr);
          trans := Wrap(trans + 1);
        case SysToBlocked => system := Wrap(system + incr);
        case BlockedToReady => blocked := Wrap(blocked + incr);
        case Refresh(state) =>
          if state == StReady {
            ready := Wrap(ready + incr);
          } else {
            blocked := Wrap(blocked + incr);
          }
        case CurrentTicksUpdated =>
      }
      elapsed := current;
    }
  }
}
