/**
 `sys_sbrk`: the heap window follows `heap_top`, failure leaves no trace, and growing is undone
 by shrinking.
 */
module SbrkProof {
  import opened Basics
  import opened Mm
  import opened Cow
  import opened CowLoops
  import opened AddressSpace
  import opened VmInvariant
  import opened Access
  import opened UserCode
  import opened ForkProof
  import opened ExitProof

  // ---------------------------------------------------------------- growing

  ghost predicate Grows(m: Mem, owned: set<Slot>, d: nat, act: nat, new_: nat) {
    && Wf(m) && d < NR_TASKS && act < new_ <= 512 && act <= MAX_HEAP_PAGES
    && (forall p: nat :: Slot(d, p) in owned <==> 264 <= p < 284 || 511 - act < p <= 511)
  }

  /** The check loop stops the heap before it reaches the data pages. */
  lemma GrowBounded(m: Mem, owned: set<Slot>, d: nat, act: nat, new_: nat)
    requires CowInv(m, owned, {}) && Grows(m, owned, d, act, new_)
    ensures new_ <= 512 && PagesFree(m, d, HeapPages(act, new_ - act)) ==> new_ <= MAX_HEAP_PAGES
  {
    if new_ > MAX_HEAP_PAGES {
      UsedOwned(m, owned);
      hide CowInv;
      assert m.pt[Slot(d, 283)].present;
      assert HeapPages(act, new_ - act)[228 - act] == 283;
    }
  }

  lemma GrowCow(m: Mem, owned: set<Slot>, d: nat, act: nat, new_: nat)
    requires CowInv(m, owned, {}) && Grows(m, owned, d, act, new_) && Grow(m, d, act, new_).Some?
    ensures new_ <= MAX_HEAP_PAGES
    ensures CowInv(Grow(m, d, act, new_).value, owned + Slots(d, HeapPages(act, new_ - act)), {})
  {
    hide CowInv, Reserve, AssignAll;
    GrowBounded(m, owned, d, act, new_);
    var ps := HeapPages(act, new_ - act);
    ReserveKeeps(m, owned, {}, |ps|);
    var (m1, fs) := Reserve(m, |ps|);
    assert CanAssign(owned, {} + FrameSet(fs), d, ps, fs);
    AssignAllKeeps(m1, owned, {} + FrameSet(fs), d, ps, fs);
    assert {} + FrameSet(fs) - FrameSet(fs) == {};
  }

  lemma GrowFrame(m: Mem, d: nat, act: nat, new_: nat)
    requires Wf(m) && d < NR_TASKS && act <= new_ <= 512 && Grow(m, d, act, new_).Some?
    ensures var m' := Grow(m, d, act, new_).value;
      && m'.ram == m.ram && m'.cr3 == m.cr3 && m'.tlb == m.tlb
      && forall k :: k in m.pt && (k.dir != d || k.page !in HeapPages(act, new_ - act)) ==> m'.pt[k] == m.pt[k]
  {
    hide Reserve, AssignAll;
    var ps := HeapPages(act, new_ - act);
    ReserveFrame(m, |ps|);
    var (m1, fs) := Reserve(m, |ps|);
    AssignAllFrame(m1, d, ps, fs);
  }

  /** A failing call gives every frame back. */
  lemma GrowFailedKeeps(m: Mem, owned: set<Slot>, d: nat, act: nat, new_: nat)
    requires CowInv(m, owned, {}) && d < NR_TASKS && act <= new_ <= 512
    ensures CowInv(GrowFailed(m, d, act, new_), owned, {})
    ensures var m' := GrowFailed(m, d, act, new_);
      m'.pt == m.pt && m'.ram == m.ram && m'.cr3 == m.cr3 && m'.tlb == m.tlb && m'.used == m.used
  {
    hide CowInv, Reserve, FreeFrames;
    var ps := HeapPages(act, new_ - act);
    if PagesFree(m, d, ps) {
      var (m1, fs) := Reserve(m, |ps|);
      ReserveKeeps(m, owned, {}, |ps|);
      ReserveFrame(m, |ps|);
      FreeFramesKeeps(m1, owned, {} + FrameSet(fs), fs);
      FreeFramesFrame(m1, fs);
      assert {} + FrameSet(fs) - FrameSet(fs) == {};
      UsedDetermined(m, GrowFailed(m, d, act, new_), owned, {});
    }
  }

  lemma GrowTables(m: Mem, m': Mem, owned': set<Slot>, dirs: set<nat>, d: nat, ps: seq<nat>)
    requires Wf(m) && TablesOk(m) && CodeInv(m, dirs) && d < NR_TASKS && TlbInv(m)
    requires CowInv(m', owned', {}) && Slots(d, ps) <= owned'
    requires m'.cr3 == m.cr3 && m'.tlb == m.tlb
    requires InTable(ps) && PagesFree(m, d, ps)
    requires forall k :: k in m.pt && (k.dir != d || k.page !in ps) ==> m'.pt[k] == m.pt[k]
    ensures MemInv(m', owned', dirs)
  {
    hide CowInv, Slots, CodeInv, TlbInv, PagesFree, TablesOk;
    GrowEntries(m, m', owned', d, ps);
    CodeUnchanged(m, m', dirs);
    GrowTlb(m, m', d, ps);
  }

  lemma GrowEntries(m: Mem, m': Mem, owned': set<Slot>, d: nat, ps: seq<nat>)
    requires Wf(m) && TablesOk(m) && d < NR_TASKS && InTable(ps)
    requires CowInv(m', owned', {}) && Slots(d, ps) <= owned'
    requires forall k :: k in m.pt && (k.dir != d || k.page !in ps) ==> m'.pt[k] == m.pt[k]
    ensures TablesOk(m') && forall k :: k in m.pt && k.page < 264 ==> m'.pt[k] == m.pt[k]
  {
    UsedOwned(m', owned');
    UserPagesOnly(m', owned', {});
    hide CowInv, Slots;
    assert forall k :: k in m.pt ==> k in Slots(d, ps) || m'.pt[k] == m.pt[k];
    assert forall k :: k in Slots(d, ps) ==> k.page >= 264;
  }

  lemma GrowTlb(m: Mem, m': Mem, d: nat, ps: seq<nat>)
    requires Wf(m) && Wf(m') && d < NR_TASKS && TlbInv(m)
    requires m'.cr3 == m.cr3 && m'.tlb == m.tlb
    requires InTable(ps) && PagesFree(m, d, ps)
    requires forall k :: k in m.pt && (k.dir != d || k.page !in ps) ==> m'.pt[k] == m.pt[k]
    ensures TlbInv(m')
  {
  }

  // ---------------------------------------------------------------- shrinking

  lemma ShrinkKeeps(m: Mem, owned: set<Slot>, dirs: set<nat>, d: nat, act: nat, new_: nat)
    requires MemInv(m, owned, dirs) && d < NR_TASKS && new_ <= act <= MAX_HEAP_PAGES
    requires Slots(d, HeapPages(new_, act - new_)) <= owned
    ensures MemInv(Shrink(m, d, act, new_), owned - Slots(d, HeapPages(new_, act - new_)), dirs)
    ensures var m' := Shrink(m, d, act, new_);
      m'.ram == m.ram && m'.cr3 == d && m'.tlb == map[]
    ensures forall k :: k in m.pt ==>
      Shrink(m, d, act, new_).pt[k] == if k in Slots(d, HeapPages(new_, act - new_)) then NULL_PTE else m.pt[k]
  {
    var ps := HeapPages(new_, act - new_);
    MemInvParts(m, owned, dirs);
    hide MemInv, CowInv, TablesOk, CodeInv, FreeAll;
    FreeAllKeeps(m, owned, {}, d, ps);
    FreeAllFrame(m, d, ps);
    FreePagesTables(m, FreeAll(m, d, ps), dirs, d);
    FlushKeeps(FreeAll(m, d, ps), owned - Slots(d, ps), dirs, d);
  }

  // ---------------------------------------------------------------- the system call

  ghost predicate CanSbrk(vm: Vm) {
    VmInv(vm) && UserTask(vm, vm.cur)
  }

  /** The heap can move: no other thread of the directory has one. */
  ghost predicate CanMove(vm: Vm) {
    VmInv(vm) && SoleHeap(vm, vm.cur)
  }

  lemma SbrkOwned(vm: Vm, vm': Vm, top': int)
    requires CanMove(vm) && VmWf(vm') && 0 <= top' <= HEAP_START
    requires vm'.dirOf == vm.dirOf && vm'.idle == vm.idle && vm'.heapTop == vm.heapTop[vm.cur := top']
    ensures forall k :: k in Owned(vm') <==>
      (k in Owned(vm) && k.dir != vm.m.cr3) || (k.dir == vm.m.cr3 && InWindow(top', k.page))
    ensures UserDirs(vm') == UserDirs(vm)
  {
    hide MemInv, Wf;
    assert forall t: nat :: UserTask(vm', t) <==> UserTask(vm, t);
    forall k: Slot
      ensures k in Owned(vm') <==>
        (k in Owned(vm) && k.dir != vm.m.cr3) || (k.dir == vm.m.cr3 && InWindow(top', k.page))
    {
      if k in Owned(vm) && k.dir != vm.m.cr3 {
        var t: nat :| Owns(vm, t, k);
        assert Owns(vm', t, k);
      }
      if k.dir == vm.m.cr3 && InWindow(top', k.page) {
        assert Owns(vm', vm.cur, k);
      }
      if k in Owned(vm') {
        var t: nat :| Owns(vm', t, k);
        if k.dir != vm.m.cr3 {
          assert Owns(vm, t, k);
        }
      }
    }
  }

  lemma SbrkBooks(vm: Vm, vm': Vm, top': int)
    requires CanMove(vm) && VmWf(vm') && 0 <= top' <= HEAP_START && HeapPageSize(top') <= MAX_HEAP_PAGES
    requires vm'.dirOf == vm.dirOf && vm'.idle == vm.idle && vm'.heapTop == vm.heapTop[vm.cur := top']
    requires vm'.dirCount == vm.dirCount && vm'.freeDirs == vm.freeDirs
    ensures DirInv(vm') && HeapInv(vm')
  {
    hide MemInv, Wf;
  }

  /** What a change of the heap may do to the contents: pages come and go, none is altered. */
  ghost predicate Resized(e: map<Slot, Page>, e': map<Slot, Page>, d: nat, top': int)
    requires 0 <= top' <= HEAP_START
  {
    && (forall k :: k in e' <==> (k in e && k.dir != d) || (k.dir == d && InWindow(top', k.page)))
    && (forall k :: k in e && k in e' ==> e'[k] == e[k])
  }

  lemma CanGrow(vm: Vm, new_: nat)
    requires CanMove(vm)
    requires HeapPageSize(vm.heapTop[vm.cur]) < new_ <= 512
    ensures Grows(vm.m, Owned(vm), vm.m.cr3, HeapPageSize(vm.heapTop[vm.cur]), new_)
  {
    hide MemInv;
    OwnedWindow(vm, vm.cur);
    hide Owned;
  }

  lemma GrowSlots(vm: Vm, vm': Vm, top': int)
    requires CanMove(vm) && VmWf(vm') && 0 <= top' <= HEAP_START
    requires HeapPageSize(vm.heapTop[vm.cur]) < HeapPageSize(top') <= MAX_HEAP_PAGES
    requires vm'.dirOf == vm.dirOf && vm'.idle == vm.idle && vm'.heapTop == vm.heapTop[vm.cur := top']
    ensures var act, new_ := HeapPageSize(vm.heapTop[vm.cur]), HeapPageSize(top');
      var s := Slots(vm.m.cr3, HeapPages(act, new_ - act));
      s !! Owned(vm) && Owned(vm') == Owned(vm) + s
  {
    hide MemInv, Owned, Wf, Slots;
    OwnedWindow(vm, vm.cur);
    SbrkOwned(vm, vm', top');
  }

  lemma ShrinkSlots(vm: Vm, vm': Vm, top': int)
    requires CanMove(vm) && VmWf(vm') && 0 <= top' <= HEAP_START
    requires HeapPageSize(top') <= HeapPageSize(vm.heapTop[vm.cur])
    requires vm'.dirOf == vm.dirOf && vm'.idle == vm.idle && vm'.heapTop == vm.heapTop[vm.cur := top']
    ensures var act, new_ := HeapPageSize(vm.heapTop[vm.cur]), HeapPageSize(top');
      var s := Slots(vm.m.cr3, HeapPages(new_, act - new_));
      act <= MAX_HEAP_PAGES && s <= Owned(vm) && Owned(vm') == Owned(vm) - s
  {
    hide MemInv, Owned, Wf, Slots;
    OwnedWindow(vm, vm.cur);
    SbrkOwned(vm, vm', top');
  }

  lemma GrowMem(m: Mem, m': Mem, owned: set<Slot>, dirs: set<nat>, d: nat, act: nat, new_: nat)
    requires MemInv(m, owned, dirs) && Grows(m, owned, d, act, new_) && Grow(m, d, act, new_) == Some(m')
    ensures new_ <= MAX_HEAP_PAGES
    ensures MemInv(m', owned + Slots(d, HeapPages(act, new_ - act)), dirs)
  {
    var ps := HeapPages(act, new_ - act);
    hide CowInv, TablesOk, CodeInv, TlbInv, Slots, AssignAll, Reserve;
    assert PagesFree(m, d, ps);
    GrowCow(m, owned, d, act, new_);
    GrowFrame(m, d, act, new_);
    GrowTables(m, m', owned + Slots(d, ps), dirs, d, ps);
  }

  /** Resizing from the owned entries and the contents of those that stay. */
  lemma ResizedFrom(m: Mem, m': Mem, owned: set<Slot>, owned': set<Slot>, d: nat, top': int)
    requires Wf(m) && Wf(m') && owned <= m.pt.Keys && owned' <= m'.pt.Keys && 0 <= top' <= HEAP_START
    requires forall k :: k in owned' <==> (k in owned && k.dir != d) || (k.dir == d && InWindow(top', k.page))
    requires m'.ram == m.ram && forall k :: k in owned && k in owned' ==> m'.pt[k] == m.pt[k]
    ensures Resized(Spaces(m, owned), Spaces(m', owned'), d, top')
  {
  }

  lemma SbrkGrow(vm: Vm, m': Mem, top': int)
    requires CanMove(vm) && 0 <= top' <= HEAP_START
    requires HeapPageSize(vm.heapTop[vm.cur]) < HeapPageSize(top')
    requires Grow(vm.m, vm.m.cr3, HeapPageSize(vm.heapTop[vm.cur]), HeapPageSize(top')) == Some(m')
    ensures var vm' := vm.(m := m', heapTop := vm.heapTop[vm.cur := top']);
      VmInv(vm') && Resized(View(vm), View(vm'), vm.m.cr3, top')
  {
    hide MemInv, Owned, UserDirs, DirInv, HeapInv, Grow, Grows, Slots, HeapPageSize, Resized, Wf, UserTask;
    var d, act, new_ := vm.m.cr3, HeapPageSize(vm.heapTop[vm.cur]), HeapPageSize(top');
    var vm' := vm.(m := m', heapTop := vm.heapTop[vm.cur := top']);
    CanGrow(vm, new_);
    GrowMem(vm.m, m', Owned(vm), UserDirs(vm), d, act, new_);
    GrowFrame(vm.m, d, act, new_);
    GrowSlots(vm, vm', top');
    SbrkOwned(vm, vm', top');
    SbrkBooks(vm, vm', top');
    ResizedFrom(vm.m, m', Owned(vm), Owned(vm'), d, top');
  }

  lemma SbrkShrink(vm: Vm, top': int)
    requires CanMove(vm) && 0 <= top' <= HEAP_START
    requires HeapPageSize(top') <= HeapPageSize(vm.heapTop[vm.cur])
    ensures var m' := Shrink(vm.m, vm.m.cr3, HeapPageSize(vm.heapTop[vm.cur]), HeapPageSize(top'));
      var vm' := vm.(m := m', heapTop := vm.heapTop[vm.cur := top']);
      VmInv(vm') && Resized(View(vm), View(vm'), vm.m.cr3, top')
  {
    hide MemInv, Owned, UserDirs, DirInv, HeapInv, Shrink, Slots, HeapPageSize, Resized, Wf, UserTask;
    var d, act, new_ := vm.m.cr3, HeapPageSize(vm.heapTop[vm.cur]), HeapPageSize(top');
    var m' := Shrink(vm.m, d, act, new_);
    var vm' := vm.(m := m', heapTop := vm.heapTop[vm.cur := top']);
    ShrinkSlots(vm, vm', top');
    ShrinkKeeps(vm.m, Owned(vm), UserDirs(vm), d, act, new_);
    SbrkOwned(vm, vm', top');
    SbrkBooks(vm, vm', top');
    ResizedFrom(vm.m, m', Owned(vm), Owned(vm'), d, top');
  }

  lemma MoveKeeps(vm: Vm, top': int)
    requires CanMove(vm) && 0 <= top' <= HEAP_START
    ensures VmInv(MoveHeap(vm, top').0)
    ensures Resized(View(vm), View(MoveHeap(vm, top').0), vm.m.cr3, MoveHeap(vm, top').0.heapTop[vm.cur])
  {
    hide MemInv, Owned, UserDirs, DirInv, HeapInv, Shrink, Grow, Resized, HeapPageSize, GrowFailed, Wf;
    var d, act, new_ := vm.m.cr3, HeapPageSize(vm.heapTop[vm.cur]), HeapPageSize(top');
    SbrkSame(vm);
    if act < new_ {
      if Grow(vm.m, d, act, new_).Some? {
        SbrkGrow(vm, Grow(vm.m, d, act, new_).value, top');
      } else {
        SbrkFailed(vm, act, new_);
      }
    } else {
      SbrkShrink(vm, top');
    }
  }

  /** Another thread of the directory has a heap, so the running one has none and page 511 is taken. */
  lemma HeapTaken(vm: Vm)
    requires CanSbrk(vm) && !SoleHeap(vm, vm.cur)
    ensures OnCpu(vm) && vm.heapTop[vm.cur] == HEAP_START && vm.m.pt[Slot(vm.m.cr3, PAG_LOG_INIT_HEAP)].present
  {
    var u: nat :| UserTask(vm, u) && u != vm.cur && vm.dirOf[u] == vm.dirOf[vm.cur] && vm.heapTop[u] != HEAP_START;
    assert Owns(vm, u, Slot(vm.m.cr3, PAG_LOG_INIT_HEAP));
    UsedOwned(vm.m, Owned(vm));
    hide MemInv, Owned;
  }

  lemma MoveRefused(vm: Vm, top': int)
    requires CanSbrk(vm) && !SoleHeap(vm, vm.cur) && 0 <= top' <= HEAP_START
    ensures MoveHeap(vm, top') ==
      if top' == HEAP_START then (vm.(m := SetCr3(vm.m, vm.m.cr3)), HEAP_START) else (vm, -ENOMEM)
  {
    HeapTaken(vm);
    hide MemInv, DirInv, HeapInv, Owned, UserDirs, Wf, SoleHeap, Reserve, AssignAll;
    if top' == HEAP_START {
      ShrinkNothing(vm.m, vm.m.cr3, 0);
      assert vm.heapTop[vm.cur := HEAP_START] == vm.heapTop;
    } else {
      assert HeapPages(0, HeapPageSize(top'))[0] == PAG_LOG_INIT_HEAP;
    }
  }

  lemma SbrkCases(vm: Vm, increment: I32)
    requires OnCpu(vm) && increment != 0
    ensures vm.cur < |vm.heapTop| && 0 <= vm.heapTop[vm.cur] <= HEAP_START
    ensures var to := NewHeapTop(vm.heapTop[vm.cur], increment);
      if to == None then Sbrk(vm, increment) == (vm, -ENOMEM) else Sbrk(vm, increment) == MoveHeap(vm, to.value)
  {
    hide MoveHeap, NewHeapTop, Wf;
  }

  /** While another thread of the directory has a heap, growing fails and changes nothing. */
  lemma GrowRefused(vm: Vm, increment: I32)
    requires CanSbrk(vm) && !SoleHeap(vm, vm.cur) && 0 < increment
    ensures Sbrk(vm, increment) == (vm, -ENOMEM)
  {
    hide *;
    HeapTaken(vm);
    SbrkCases(vm, increment);
    NewHeapTopExact(vm.heapTop[vm.cur], increment);
    if increment <= HEAP_START {
      MoveRefused(vm, HEAP_START - increment);
    }
  }

  /** What a call may do to the contents: nothing while the heap belongs to another thread. */
  ghost predicate HeapMoved(vm: Vm, vm': Vm)
    requires VmInv(vm) && VmInv(vm')
  {
    if SoleHeap(vm, vm.cur) then Resized(View(vm), View(vm'), vm.m.cr3, vm'.heapTop[vm.cur])
    else View(vm') == View(vm) && vm'.heapTop == vm.heapTop
  }

  lemma SharedKeeps(vm: Vm, top': int)
    requires CanSbrk(vm) && !SoleHeap(vm, vm.cur) && 0 <= top' <= HEAP_START
    ensures VmInv(MoveHeap(vm, top').0)
    ensures View(MoveHeap(vm, top').0) == View(vm) && MoveHeap(vm, top').0.heapTop == vm.heapTop
  {
    MoveRefused(vm, top');
    hide MemInv, DirInv, HeapInv, Owned, UserDirs, MoveHeap, Spaces, SoleHeap;
    if top' == HEAP_START {
      MemInvParts(vm.m, Owned(vm), UserDirs(vm));
      FlushKeeps(vm.m, Owned(vm), UserDirs(vm), vm.m.cr3);
      MemOnly(vm, SetCr3(vm.m, vm.m.cr3));
    }
  }

  /** Every call: the invariant, the window of the new `heap_top`, and untouched contents. */
  lemma SbrkKeeps(vm: Vm, increment: I32)
    requires CanSbrk(vm)
    ensures VmInv(Sbrk(vm, increment).0)
    ensures HeapMoved(vm, Sbrk(vm, increment).0)
  {
    hide MemInv, Owned, UserDirs, DirInv, HeapInv, Resized, NewHeapTop, MoveHeap, SoleHeap, Spaces;
    var r := NewHeapTop(vm.heapTop[vm.cur], increment);
    if SoleHeap(vm, vm.cur) {
      SbrkSame(vm);
      if increment != 0 && r.Some? {
        MoveKeeps(vm, r.value);
      }
    } else if increment != 0 && r.Some? {
      SharedKeeps(vm, r.value);
    }
  }

  /** The 32-bit arithmetic on `heap_top`, for every 32-bit increment. */
  lemma NewHeapTopExact(top: int, increment: I32)
    requires 0 <= top <= HEAP_START
    ensures NewHeapTop(top, increment) ==
      if increment > top then None
      else if top - increment > HEAP_START then Some(HEAP_START)
      else Some(top - increment)
  {
  }

  /** Where a successful call moves the top: down by the increment, but never above the start. */
  function NewBreak(top: int, increment: int): (r: int) {
    if top - increment > HEAP_START then HEAP_START else top - increment
  }

  /** The top after a call, for every task and every increment. */
  lemma TopMoves(vm: Vm, increment: I32)
    requires CanSbrk(vm)
    ensures var (vm', r) := Sbrk(vm, increment);
      var top := vm.heapTop[vm.cur];
      vm'.heapTop == vm.heapTop[vm.cur := if r == -ENOMEM then top else NewBreak(top, increment)]
  {
    hide MemInv, Owned, UserDirs, DirInv, HeapInv, NewHeapTop, HeapPageSize, Wf, Grow, GrowFailed, Shrink;
    NewHeapTopExact(vm.heapTop[vm.cur], increment);
  }

  lemma SbrkSame(vm: Vm)
    requires CanMove(vm)
    ensures Resized(View(vm), View(vm), vm.m.cr3, vm.heapTop[vm.cur])
  {
    hide MemInv;
    OwnedWindow(vm, vm.cur);
    hide Owned;
  }

  lemma SbrkFailed(vm: Vm, act: nat, new_: nat)
    requires CanSbrk(vm) && act <= new_ <= 512
    ensures var vm' := vm.(m := GrowFailed(vm.m, vm.m.cr3, act, new_));
      VmInv(vm') && View(vm') == View(vm)
  {
    var m' := GrowFailed(vm.m, vm.m.cr3, act, new_);
    MemInvParts(vm.m, Owned(vm), UserDirs(vm));
    hide Owned, UserDirs, DirInv, HeapInv, GrowFailed, CowInv;
    GrowFailedKeeps(vm.m, Owned(vm), vm.m.cr3, act, new_);
    CodeUnchanged(vm.m, m', UserDirs(vm));
    hide CodeInv;
    MemOnly(vm, m');
    SpacesFrame(vm.m, m', Owned(vm));
  }

  // ---------------------------------------------------------------- failure

  ghost function FreeFrameSet(m: Mem): (r: set<nat>)
    requires Wf(m)
  {
    set f: nat | f < TOTAL_PAGES && UserFrame(f) && !m.used[f]
  }

  /** The reservation loop gets all `n` frames exactly when `n` are free. */
  lemma {:induction false} ReserveExact(m: Mem, owned: set<Slot>, reserved: set<nat>, n: nat)
    requires CowInv(m, owned, reserved)
    ensures |Reserve(m, n).1| == n <==> n <= |FreeFrameSet(m)|
    ensures |Reserve(m, n).1| == n ==> |FreeFrameSet(Reserve(m, n).0)| == |FreeFrameSet(m)| - n
  {
    hide CowInv, AllocFrame, Wf, FreeFrameSet;
    if n != 0 {
      ReserveExact(m, owned, reserved, n - 1);
      ReserveKeeps(m, owned, reserved, n - 1);
      var (m1, fs) := Reserve(m, n - 1);
      AllocTakes(m1, owned, reserved + FrameSet(fs));
    }
  }

  lemma AllocTakes(m: Mem, owned: set<Slot>, reserved: set<nat>)
    requires CowInv(m, owned, reserved)
    ensures AllocFrame(m).1 == -1 <==> FreeFrameSet(m) == {}
    ensures AllocFrame(m).1 != -1 ==> |FreeFrameSet(AllocFrame(m).0)| == |FreeFrameSet(m)| - 1
  {
    hide CowInv;
    var (m', f) := AllocFrame(m);
    CodeFramesUsed(m, owned, reserved);
    if f != -1 {
      assert f in FreeFrameSet(m);
      assert FreeFrameSet(m') == FreeFrameSet(m) - {f};
    }
  }

  /** The pages or the frames that growing to `top'` needs are not there. */
  ghost predicate NoRoom(vm: Vm, top': int)
    requires OnCpu(vm) && 0 <= top' <= HEAP_START
  {
    var act, new_ := HeapPageSize(vm.heapTop[vm.cur]), HeapPageSize(top');
    act < new_ && (!PagesFree(vm.m, vm.m.cr3, HeapPages(act, new_ - act)) || |FreeFrameSet(vm.m)| < new_ - act)
  }

  lemma MoveFailsExactly(vm: Vm, top': int)
    requires CanSbrk(vm) && 0 <= top' <= HEAP_START
    ensures MoveHeap(vm, top').1 == -ENOMEM <==> NoRoom(vm, top')
  {
    hide MemInv, CowInv, Owned, UserDirs, DirInv, HeapInv, PagesFree, FreeFrameSet, Wf, Reserve, AssignAll, Shrink,
      GrowFailed, HeapPageSize;
    var act, new_ := HeapPageSize(vm.heapTop[vm.cur]), HeapPageSize(top');
    MemInvParts(vm.m, Owned(vm), UserDirs(vm));
    if act < new_ {
      ReserveExact(vm.m, Owned(vm), {}, new_ - act);
    }
  }

  /** The increment exceeds the top, or the pages or frames that a growth needs are missing. */
  ghost predicate Refused(vm: Vm, increment: int)
    requires OnCpu(vm)
  {
    var top := vm.heapTop[vm.cur];
    increment > top || (0 < increment && NoRoom(vm, top - increment))
  }

  /** Exactly when a call fails, for every 32-bit increment. */
  lemma SbrkFailsExactly(vm: Vm, increment: I32)
    requires CanSbrk(vm)
    ensures Sbrk(vm, increment).1 == -ENOMEM <==> Refused(vm, increment)
  {
    hide MemInv, Owned, UserDirs, DirInv, HeapInv, NewHeapTop, MoveHeap, HeapPageSize, PagesFree, FreeFrameSet, Wf,
      UserTask;
    var top := vm.heapTop[vm.cur];
    NewHeapTopExact(top, increment);
    var top' := if top - increment > HEAP_START then HEAP_START else top - increment;
    if increment < 0 {
      HeapSizeMonotone(top', top);
    }
    if increment != 0 && increment <= top {
      MoveFailsExactly(vm, top');
    }
  }

  /** A failing call leaves `heap_top`, the page tables, the contents and the set of free frames alone. */
  lemma SbrkFailureIsClean(vm: Vm, increment: I32)
    requires CanSbrk(vm) && Sbrk(vm, increment).1 == -ENOMEM
    ensures var vm' := Sbrk(vm, increment).0;
      && vm'.heapTop == vm.heapTop
      && vm'.m == vm.m.(cow := vm'.m.cow)
  {
    hide MemInv, CowInv, Owned, UserDirs, DirInv, HeapInv, Shrink, Grow, GrowFailed, HeapPageSize, NewHeapTop;
    var top, d := vm.heapTop[vm.cur], vm.m.cr3;
    MemInvParts(vm.m, Owned(vm), UserDirs(vm));
    if increment != 0 && NewHeapTop(top, increment).Some? {
      var act, new_ := HeapPageSize(top), HeapPageSize(NewHeapTop(top, increment).value);
      if act < new_ {
        GrowFailedKeeps(vm.m, Owned(vm), d, act, new_);
      }
    }
  }

  // ---------------------------------------------------------------- round trip

  lemma GrowShrinkTables(m: Mem, m1: Mem, m2: Mem, d: nat, ps: seq<nat>)
    requires Wf(m) && Wf(m1) && Wf(m2) && d < NR_TASKS && InTable(ps) && TablesOk(m) && PagesFree(m, d, ps)
    requires forall p :: p in ps ==> p >= 264
    requires forall k :: k in m.pt && (k.dir != d || k.page !in ps) ==> m1.pt[k] == m.pt[k]
    requires forall k :: k in m1.pt ==> m2.pt[k] == if k in Slots(d, ps) then NULL_PTE else m1.pt[k]
    ensures m2.pt == m.pt
  {
    hide Slots;
    forall k | k in m.pt
      ensures m2.pt[k] == m.pt[k]
    {
      if k in Slots(d, ps) {
        assert !m.pt[Slot(d, k.page)].present;
        assert k == Slot(d, k.page);
      }
    }
  }

  lemma GrowNeedsFree(m: Mem, d: nat, act: nat, new_: nat)
    requires Wf(m) && d < NR_TASKS && act <= new_ <= 512 && Grow(m, d, act, new_).Some?
    ensures PagesFree(m, d, HeapPages(act, new_ - act))
  {
  }

  lemma RoundTripPages(vm: Vm, m1: Mem, top': int)
    requires CanMove(vm) && 0 <= top' <= HEAP_START && HeapPageSize(vm.heapTop[vm.cur]) < HeapPageSize(top')
    requires Grow(vm.m, vm.m.cr3, HeapPageSize(vm.heapTop[vm.cur]), HeapPageSize(top')) == Some(m1)
    ensures Shrink(m1, vm.m.cr3, HeapPageSize(top'), HeapPageSize(vm.heapTop[vm.cur])).pt == vm.m.pt
  {
    hide MemInv, Owned, UserDirs, DirInv, HeapInv, Shrink, Grow, TablesOk, PagesFree, Wf, Grows, CowInv, CodeInv,
      HeapPageSize;
    var d, act, new_ := vm.m.cr3, HeapPageSize(vm.heapTop[vm.cur]), HeapPageSize(top');
    var ps := HeapPages(act, new_ - act);
    CanGrow(vm, new_);
    MemInvParts(vm.m, Owned(vm), UserDirs(vm));
    GrowNeedsFree(vm.m, d, act, new_);
    GrowMem(vm.m, m1, Owned(vm), UserDirs(vm), d, act, new_);
    GrowFrame(vm.m, d, act, new_);
    ShrinkKeeps(m1, Owned(vm) + Slots(d, ps), UserDirs(vm), d, new_, act);
    GrowShrinkTables(vm.m, m1, Shrink(m1, d, new_, act), d, ps);
  }

  lemma MoveSucceeds(vm: Vm, top': int)
    requires CanMove(vm) && 0 <= top' <= HEAP_START && MoveHeap(vm, top').1 != -ENOMEM
    ensures var vm1 := MoveHeap(vm, top').0;
      && vm1 == vm.(m := vm1.m, heapTop := vm.heapTop[vm.cur := top'])
      && vm1.m.cr3 == vm.m.cr3 && vm1.m.ram == vm.m.ram && CanMove(vm1)
  {
    hide MemInv, Owned, UserDirs, DirInv, HeapInv, Resized, Grow, GrowFailed, HeapPageSize, FreeAll;
    var act, new_ := HeapPageSize(vm.heapTop[vm.cur]), HeapPageSize(top');
    var d := vm.m.cr3;
    MoveKeeps(vm, top');
    if act < new_ {
      GrowFrame(vm.m, d, act, new_);
    } else {
      FreeAllFrame(vm.m, d, HeapPages(new_, act - new_));
    }
  }

  lemma MoveBack(vm: Vm, top': int)
    requires CanMove(vm) && 0 <= top' <= vm.heapTop[vm.cur] && MoveHeap(vm, top').1 != -ENOMEM
    requires CanMove(MoveHeap(vm, top').0)
    requires var vm1 := MoveHeap(vm, top').0;
      vm1 == vm.(m := vm1.m, heapTop := vm.heapTop[vm.cur := top']) && vm1.m.cr3 == vm.m.cr3
    ensures var (vm2, r) := MoveHeap(MoveHeap(vm, top').0, vm.heapTop[vm.cur]);
      r != -ENOMEM && vm2.m.pt == vm.m.pt
  {
    var top, d := vm.heapTop[vm.cur], vm.m.cr3;
    var act, new_ := HeapPageSize(top), HeapPageSize(top');
    var vm1 := MoveHeap(vm, top').0;
    HeapSizeMonotone(top, top');
    ShrinkNothing(vm.m, d, act);
    ShrinkNothing(vm1.m, d, act);
    hide MemInv, Owned, UserDirs, DirInv, HeapInv, Shrink, Grow, GrowFailed, HeapPageSize, Wf, UserTask;
    if act < new_ {
      RoundTripPages(vm, Grow(vm.m, d, act, new_).value, top');
    }
  }

  lemma GrownMeansSole(vm: Vm, n: I32)
    requires CanSbrk(vm) && 0 < n && Sbrk(vm, n).1 != -ENOMEM
    ensures CanMove(vm)
  {
    hide VmInv, SoleHeap, Sbrk;
    if !SoleHeap(vm, vm.cur) {
      GrowRefused(vm, n);
    }
  }

  /** A successful `sbrk(n)` undone by `sbrk(-n)`. */
  lemma HeapRoundTrip(vm: Vm, n: I32)
    requires CanSbrk(vm) && 0 < n && Sbrk(vm, n).1 != -ENOMEM
    ensures OnCpu(Sbrk(vm, n).0)
    ensures var vm2 := Sbrk(Sbrk(vm, n).0, -n).0;
      && vm2.heapTop == vm.heapTop && vm2.m.pt == vm.m.pt && vm2.m.used == vm.m.used
      && VmInv(vm2) && View(vm2) == View(vm)
  {
    hide MemInv, Owned, UserDirs, DirInv, HeapInv, NewHeapTop, MoveHeap, Wf, UserTask, Spaces, SoleHeap;
    GrownMeansSole(vm, n);
    var top := vm.heapTop[vm.cur];
    NewHeapTopExact(top, n);
    MoveSucceeds(vm, top - n);
    NewHeapTopExact(top - n, -n);
    var vm1 := MoveHeap(vm, top - n).0;
    MoveBack(vm, top - n);
    MoveSucceeds(vm1, top);
    RoundTripRest(vm, MoveHeap(vm1, top).0);
  }

  lemma HeapSizeMonotone(a: int, b: int)
    requires 0 <= b <= a <= HEAP_START
    ensures HeapPageSize(a) <= HeapPageSize(b)
  {
  }

  lemma ShrinkNothing(m: Mem, d: nat, act: nat)
    requires Wf(m) && d < NR_TASKS && act <= 512
    ensures Shrink(m, d, act, act) == SetCr3(m, d)
  {
  }

  lemma RoundTripRest(vm: Vm, vm2: Vm)
    requires VmInv(vm) && VmInv(vm2) && vm2.heapTop == vm.heapTop && vm2.m.pt == vm.m.pt && vm2.m.cr3 == vm.m.cr3
    requires vm2.dirOf == vm.dirOf && vm2.idle == vm.idle && vm2.dirCount == vm.dirCount && vm2.freeDirs == vm.freeDirs
    requires vm2.m.ram == vm.m.ram
    ensures vm2.m.used == vm.m.used && View(vm2) == View(vm)
  {
    SameBooks(vm, vm2);
    MemInvParts(vm.m, Owned(vm), UserDirs(vm));
    MemInvParts(vm2.m, Owned(vm2), UserDirs(vm2));
    hide MemInv, Owned, UserDirs, DirInv, HeapInv, CowInv;
    UsedDetermined(vm.m, vm2.m, Owned(vm), {});
    SpacesFrame(vm.m, vm2.m, Owned(vm));
  }
}
