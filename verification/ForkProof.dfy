/**
 `sys_fork` and `sys_clone`: sharing every page read-only is as good as copying it.
 */
module ForkProof {
  import opened Basics
  import opened Mm
  import opened Cow
  import opened CowLoops
  import opened AddressSpace
  import opened VmInvariant
  import opened Access
  import opened UserCode

  // ---------------------------------------------------------------- pages

  /** The first `n` code entries of `dst` are those of `src`; nothing else has changed. */
  ghost predicate CodeCopied(m: Mem, m': Mem, src: nat, dst: nat, n: nat)
    requires Wf(m) && Wf(m') && src < NR_TASKS && dst < NR_TASKS && n <= NUM_PAG_CODE
  {
    && m' == m.(pt := m'.pt)
    && (forall k :: k in m.pt && !(k.dir == dst && 256 <= k.page < 256 + n) ==> m'.pt[k] == m.pt[k])
    && (forall p :: 256 <= p < 256 + n ==> m'.pt[Slot(dst, p)] == m.pt[Slot(src, p)])
  }

  lemma CopyCodeStep(m: Mem, m1: Mem, src: nat, dst: nat, i: nat)
    requires Wf(m) && Wf(m1) && src < NR_TASKS && dst < NR_TASKS && src != dst && i < NUM_PAG_CODE
    requires CodeCopied(m, m1, src, dst, i)
    ensures CodeCopied(m, CopyCodePage(m1, src, dst, i), src, dst, i + 1)
  {
    CodePageCopied(m1, src, dst, i);
    assert Slot(src, 256 + i) in m.pt;
    hide CopyCodePage, Wf;
  }

  lemma CodePageCopied(m: Mem, src: nat, dst: nat, i: nat)
    requires Wf(m) && src < NR_TASKS && dst < NR_TASKS && i < NUM_PAG_CODE
    ensures CopyCodePage(m, src, dst, i) == m.(pt := m.pt[Slot(dst, 256 + i) := m.pt[Slot(src, 256 + i)]])
  {
  }

  /** The child's code entries become the parent's; nothing else changes. */
  lemma {:induction false} CopyCodeEffect(m: Mem, src: nat, dst: nat, n: nat)
    requires Wf(m) && src < NR_TASKS && dst < NR_TASKS && src != dst && n <= NUM_PAG_CODE
    ensures CodeCopied(m, CopyCode(m, src, dst, n), src, dst, n)
  {
    hide CopyCodePage, CodeCopied, Wf;
    if n == 0 {
      NothingCopied(m, src, dst);
    } else {
      CopyCodeEffect(m, src, dst, n - 1);
      CopyCodeStep(m, CopyCode(m, src, dst, n - 1), src, dst, n - 1);
    }
  }

  lemma NothingCopied(m: Mem, src: nat, dst: nat)
    requires Wf(m) && src < NR_TASKS && dst < NR_TASKS
    ensures CodeCopied(m, m, src, dst, 0)
  {
  }

  /** The window of a heap top, as two runs of pages. */
  ghost function WindowSlots(d: nat, top: int): (r: set<Slot>)
    requires 0 <= top <= HEAP_START
    ensures forall k: Slot :: k in r <==> k.dir == d && InWindow(top, k.page)
  {
    Slots(d, DataPages()) + Slots(d, HeapPages(0, HeapPageSize(top)))
  }

  ghost predicate CanFork(owned: set<Slot>, src: nat, dst: nat, top: int) {
    && src < NR_TASKS && dst < NR_TASKS && src != dst
    && 0 <= top <= HEAP_START && HeapPageSize(top) <= MAX_HEAP_PAGES
    && WindowSlots(src, top) <= owned
    && (forall k :: k in owned ==> k.dir != dst)
  }

  lemma CanShareWindow(owned: set<Slot>, src: nat, dst: nat, top: int)
    requires CanFork(owned, src, dst, top)
    ensures CanShare(owned, src, dst, DataPages())
    ensures CanShare(owned + Slots(dst, DataPages()), src, dst, HeapPages(0, HeapPageSize(top)))
    ensures owned + Slots(dst, DataPages()) + Slots(dst, HeapPages(0, HeapPageSize(top))) ==
      owned + WindowSlots(dst, top)
  {
    forall p | p in DataPages()
      ensures Slot(src, p) in WindowSlots(src, top)
    {
    }
    forall p | p in HeapPages(0, HeapPageSize(top))
      ensures Slot(src, p) in WindowSlots(src, top)
    {
    }
    hide WindowSlots;
  }

  /** Everything `sys_fork` does to the frames and tables, except for the final flush. */
  function Shares(m: Mem, src: nat, dst: nat, top: int): (r: Mem)
    requires Wf(m) && src < NR_TASKS && dst < NR_TASKS && 0 <= top <= HEAP_START
    ensures Wf(r)
  {
    ShareAll(ShareAll(CopyCode(m, src, dst, NUM_PAG_CODE), src, dst, DataPages()), src, dst,
      HeapPages(0, HeapPageSize(top)))
  }

  lemma SharesCow(m: Mem, owned: set<Slot>, src: nat, dst: nat, top: int)
    requires CowInv(m, owned, {}) && CanFork(owned, src, dst, top)
    ensures CowInv(Shares(m, src, dst, top), owned + WindowSlots(dst, top), {})
  {
    CopyCodeEffect(m, src, dst, NUM_PAG_CODE);
    UserPagesOnly(m, owned, {});
    CanShareWindow(owned, src, dst, top);
    hide CowInv, CopyCode, CanShare, WindowSlots, ShareAll, Slots;
    var m1 := CopyCode(m, src, dst, NUM_PAG_CODE);
    UnownedIrrelevant(m, m1, owned, {});
    ShareAllKeeps(m1, owned, {}, src, dst, DataPages());
    var m2 := ShareAll(m1, src, dst, DataPages());
    ShareAllKeeps(m2, owned + Slots(dst, DataPages()), {}, src, dst, HeapPages(0, HeapPageSize(top)));
  }

  /** Only code entries of the child and window entries of both change. */
  ghost predicate ForkChanges(m: Mem, m': Mem, src: nat, dst: nat, top: int)
    requires Wf(m) && Wf(m') && src < NR_TASKS && dst < NR_TASKS && 0 <= top <= HEAP_START
  {
    && m'.used == m.used && m'.ram == m.ram && m'.cr3 == m.cr3
    && (forall k :: k in m.pt && !ForkTouches(k, src, dst, top) ==> m'.pt[k] == m.pt[k])
    && (forall p :: 256 <= p < 264 ==> m'.pt[Slot(dst, p)] == m.pt[Slot(src, p)])
  }

  predicate ForkTouches(k: Slot, src: nat, dst: nat, top: int)
    requires 0 <= top <= HEAP_START
  {
    || (InWindow(top, k.page) && (k.dir == src || k.dir == dst))
    || (256 <= k.page < 264 && k.dir == dst)
  }

  lemma SharesFrame(m: Mem, src: nat, dst: nat, top: int)
    requires Wf(m) && src < NR_TASKS && dst < NR_TASKS && src != dst && 0 <= top <= HEAP_START
    requires HeapPageSize(top) <= MAX_HEAP_PAGES
    ensures ForkChanges(m, Shares(m, src, dst, top), src, dst, top)
  {
    hide CopyCode, ShareAll;
    CopyCodeEffect(m, src, dst, NUM_PAG_CODE);
    var m1 := CopyCode(m, src, dst, NUM_PAG_CODE);
    ShareAllFrame(m1, src, dst, DataPages());
    var m2 := ShareAll(m1, src, dst, DataPages());
    ShareAllFrame(m2, src, dst, HeapPages(0, HeapPageSize(top)));
  }

  ghost function Children(e: set<Slot>, src: nat, dst: nat, top: int): (r: set<Slot>)
    requires 0 <= top <= HEAP_START
    ensures forall k: Slot :: k in r <==> k.dir == dst && InWindow(top, k.page) && Slot(src, k.page) in e
  {
    var r := set j | j in e && j.dir == src && InWindow(top, j.page) :: Slot(dst, j.page);
    forall k: Slot | k.dir == dst && InWindow(top, k.page) && Slot(src, k.page) in e
      ensures k in r
    {
      var j := Slot(src, k.page);
      assert j in e && j.dir == src && k == Slot(dst, j.page);
    }
    r
  }

  /** What eager copying does at fork: the child gets the pages in the window of the task that forks. */
  ghost function EagerCopy(e: map<Slot, Page>, src: nat, dst: nat, top: int): (r: map<Slot, Page>)
    requires 0 <= top <= HEAP_START
  {
    e + map k | k in Children(e.Keys, src, dst, top) :: e[Slot(src, k.page)]
  }

  lemma SpacesWindow(m: Mem, owned: set<Slot>, src: nat, top: int)
    requires Wf(m) && owned <= m.pt.Keys && 0 <= top <= HEAP_START && WindowSlots(src, top) <= owned
    ensures forall p: nat :: InWindow(top, p) ==> Slot(src, p) in Spaces(m, owned)
  {
    assert forall p: nat :: InWindow(top, p) ==> Slot(src, p) in WindowSlots(src, top);
  }

  lemma SharesCopies(m: Mem, owned: set<Slot>, src: nat, dst: nat, top: int)
    requires Wf(m) && owned <= m.pt.Keys && CanFork(owned, src, dst, top)
    requires forall k :: k in owned ==> UserPage(k.page)
    ensures owned + WindowSlots(dst, top) <= m.pt.Keys
    ensures Spaces(Shares(m, src, dst, top), owned + WindowSlots(dst, top)) ==
      EagerCopy(Spaces(m, owned), src, dst, top)
  {
    hide Spaces, CopyCode, CanShare, ShareAll, WindowSlots, Slots, Copied, EagerCopy;
    CopyCodeEffect(m, src, dst, NUM_PAG_CODE);
    CanShareWindow(owned, src, dst, top);
    var m1 := CopyCode(m, src, dst, NUM_PAG_CODE);
    SpacesFrame(m, m1, owned);
    SpacesWindow(m, owned, src, top);
    CopiedTwice(Spaces(m, owned), src, dst, top);
    ShareAllCopies(m1, owned, src, dst, DataPages());
    var m2 := ShareAll(m1, src, dst, DataPages());
    ShareAllCopies(m2, owned + Slots(dst, DataPages()), src, dst, HeapPages(0, HeapPageSize(top)));
  }

  lemma CopiedTwice(e: map<Slot, Page>, src: nat, dst: nat, top: int)
    requires src != dst && 0 <= top <= HEAP_START && HeapPageSize(top) <= MAX_HEAP_PAGES
    requires forall p: nat :: InWindow(top, p) ==> Slot(src, p) in e
    ensures forall p :: p in DataPages() ==> Slot(src, p) in e
    ensures forall p :: p in HeapPages(0, HeapPageSize(top)) ==> Slot(src, p) in Copied(e, src, dst, DataPages())
    ensures Copied(Copied(e, src, dst, DataPages()), src, dst, HeapPages(0, HeapPageSize(top)))
         == EagerCopy(e, src, dst, top)
  {
    hide Slots;
    var data, heap := DataPages(), HeapPages(0, HeapPageSize(top));
    assert forall p: nat :: InWindow(top, p) <==> p in data || p in heap;
    assert forall p :: p in data ==> Slot(src, p) in e;
    var e1 := Copied(e, src, dst, data);
    assert forall p :: p in heap ==> Slot(src, p) in e1 && e1[Slot(src, p)] == e[Slot(src, p)];
    CopiedUnion(e, src, dst, data, heap, top);
  }

  lemma CopiedUnion(e: map<Slot, Page>, src: nat, dst: nat, ps: seq<nat>, qs: seq<nat>, top: int)
    requires src != dst && 0 <= top <= HEAP_START
    requires forall p: nat :: InWindow(top, p) <==> p in ps || p in qs
    requires forall p: nat :: InWindow(top, p) ==> Slot(src, p) in e
    requires forall q :: q in qs ==> Slot(src, q) in Copied(e, src, dst, ps)
    ensures Copied(Copied(e, src, dst, ps), src, dst, qs) == EagerCopy(e, src, dst, top)
  {
    hide Copied, Children, Slots, InWindow;
  }

  /** What the table invariant asks of the entry for page `p`. */
  ghost predicate EntryOk(e: Pte, p: nat) {
    && (p < NUM_PAG_KERNEL ==> !e.user)
    && (p >= NUM_PAG_KERNEL && !e.present ==> e == NULL_PTE)
    && (p >= TEMP_PAGE ==> e == NULL_PTE)
    && (p >= PAG_LOG_INIT_DATA && e.present ==> e.user && UserFrame(e.frame))
  }

  lemma ForkTables(m: Mem, m': Mem, owned: set<Slot>, dirs: set<nat>, src: nat, dst: nat, top: int)
    requires Wf(m) && Wf(m') && CanFork(owned, src, dst, top) && src in dirs
    requires TablesOk(m) && CodeInv(m, dirs)
    requires ForkChanges(m, m', src, dst, top)
    requires forall k :: k in owned + WindowSlots(dst, top) ==> k in m'.pt && UserPage(k.page) && OwnedEntry(m'.pt[k])
    ensures TablesOk(m') && CodeInv(m', dirs + {dst})
  {
    ForkCode(m, m', dirs, src, dst, top);
    forall k | k in m.pt
      ensures EntryOk(m'.pt[k], k.page)
    {
      if InWindow(top, k.page) && (k.dir == src || k.dir == dst) {
        assert k in owned + WindowSlots(dst, top);
      } else if 256 <= k.page < 264 && k.dir == dst {
        assert k == Slot(dst, k.page);
        assert CodeMapped(m, src);
      } else {
        assert !ForkTouches(k, src, dst, top);
      }
    }
    hide CodeInv, ForkChanges, CanFork;
  }

  predicate OwnedEntry(e: Pte) {
    e.present && e.user && UserFrame(e.frame)
  }

  lemma ForkCode(m: Mem, m': Mem, dirs: set<nat>, src: nat, dst: nat, top: int)
    requires Wf(m) && Wf(m') && src < NR_TASKS && dst < NR_TASKS && 0 <= top <= HEAP_START && src in dirs
    requires HeapPageSize(top) <= MAX_HEAP_PAGES
    requires CodeInv(m, dirs) && ForkChanges(m, m', src, dst, top)
    ensures CodeInv(m', dirs + {dst})
  {
    forall d | d in dirs + {dst}
      ensures d < NR_TASKS && CodeMapped(m', d)
    {
      if d != dst {
        forall p | PAG_LOG_INIT_CODE <= p < PAG_LOG_INIT_CODE + NUM_PAG_CODE
          ensures m'.pt[Slot(d, p)] == CodePte(p)
        {
          assert CodeMapped(m, d);
          assert !ForkTouches(Slot(d, p), src, dst, top);
        }
      } else {
        assert CodeMapped(m, src);
      }
    }
  }

  lemma ForkMem(m: Mem, owned: set<Slot>, dirs: set<nat>, src: nat, dst: nat, top: int)
    requires MemInv(m, owned, dirs) && CanFork(owned, src, dst, top) && src in dirs
    ensures MemInv(ForkPages(m, src, dst, top), owned + WindowSlots(dst, top), dirs + {dst})
    ensures Spaces(ForkPages(m, src, dst, top), owned + WindowSlots(dst, top))
         == EagerCopy(Spaces(m, owned), src, dst, top)
  {
    var owned' := owned + WindowSlots(dst, top);
    var m' := Shares(m, src, dst, top);
    hide Shares, CowInv, WindowSlots, TablesOk, CodeInv, Spaces, CanFork, EagerCopy, ForkChanges, ShareAll, CopyCode;
    SharesCow(m, owned, src, dst, top);
    assert m'.cr3 < NR_TASKS && src < NR_TASKS && dst < NR_TASKS && src != dst &&
      HeapPageSize(top) <= MAX_HEAP_PAGES by {
      CanForkFacts(owned, src, dst, top);
    }
    SharesFrame(m, src, dst, top);
    UsedOwned(m', owned');
    UserPagesOnly(m', owned', {});
    UserPagesOnly(m, owned, {});
    ForkTables(m, m', owned, dirs, src, dst, top);
    SharesCopies(m, owned, src, dst, top);
    FlushKeeps(m', owned', dirs + {dst}, src);
  }

  lemma CanForkFacts(owned: set<Slot>, src: nat, dst: nat, top: int)
    requires CanFork(owned, src, dst, top)
    ensures src < NR_TASKS && dst < NR_TASKS && src != dst && 0 <= top <= HEAP_START
    ensures HeapPageSize(top) <= MAX_HEAP_PAGES
  {
  }

  /** Reloading CR3 makes any TLB coherent again. */
  lemma FlushKeeps(m: Mem, owned: set<Slot>, dirs: set<nat>, d: nat)
    requires CowInv(m, owned, {}) && TablesOk(m) && CodeInv(m, dirs) && d < NR_TASKS
    ensures MemInv(SetCr3(m, d), owned, dirs)
    ensures Spaces(SetCr3(m, d), owned) == Spaces(m, owned)
  {
    hide CowInv;
    UnownedIrrelevant(m, SetCr3(m, d), owned, {});
  }

  // ---------------------------------------------------------------- bookkeeping

  lemma HoldersSet(dirOf: seq<Option<nat>>, t: nat, v: Option<nat>, d: nat)
    requires t < |dirOf| && dirOf[t] != v
    ensures v == Some(d) ==> |Holders(dirOf[t := v], d)| == |Holders(dirOf, d)| + 1
    ensures dirOf[t] == Some(d) ==> |Holders(dirOf[t := v], d)| == |Holders(dirOf, d)| - 1
    ensures v != Some(d) && dirOf[t] != Some(d) ==> Holders(dirOf[t := v], d) == Holders(dirOf, d)
  {
    var a, b := Holders(dirOf, d), Holders(dirOf[t := v], d);
    assert forall u :: u in b <==> if u == t then v == Some(d) else u in a;
    assert t in a <==> dirOf[t] == Some(d);
    hide Holders;
    if v == Some(d) {
      assert b == a + {t} && t !in a;
    } else if dirOf[t] == Some(d) {
      assert b == a - {t} && t in a;
    } else {
      assert b == a;
    }
  }

  /** A directory on the free list has no holder. */
  lemma FreeDirUnheld(vm: Vm, d: nat, t: nat)
    requires DirInv(vm) && d in vm.freeDirs && t < NR_TASKS && d < NR_TASKS
    ensures vm.dirOf[t] != Some(d)
  {
    assert Holders(vm.dirOf, d) == {};
    assert t !in Holders(vm.dirOf, d);
  }

  /** The state after `sys_fork` has taken a PCB and a directory. */
  lemma ForkBooks(vm: Vm, child: nat)
    requires VmInv(vm) && child < NR_TASKS && vm.dirOf[child].None?
    ensures child != vm.cur && child != vm.idle && vm.freeDirs != []
    ensures Fork(vm, child).Some? && DirInv(Fork(vm, child).value)
    ensures var d, top := vm.freeDirs[0], vm.heapTop[vm.cur];
      var vm' := Fork(vm, child).value;
      && d < NR_TASKS
      && vm'.m == ForkPages(vm.m, vm.m.cr3, d, top)
      && vm'.dirOf == vm.dirOf[child := Some(d)] && vm'.heapTop == vm.heapTop[child := top]
      && vm'.idle == vm.idle && vm'.cur == vm.cur
      && (forall t :: 0 <= t < NR_TASKS ==> vm.dirOf[t] != Some(d))
  {
    hide MemInv, HeapInv, ForkPages, Wf;
    FreePcbMeansFreeDir(vm, child);
    var d := vm.freeDirs[0];
    FreeDirUnheld(vm, d, child);
    var vm' := Fork(vm, child).value;
    assert vm'.dirOf == vm.dirOf[child := Some(d)] && vm'.dirCount == vm.dirCount[d := 1] &&
      vm'.freeDirs == vm.freeDirs[1..];
    forall e | 0 <= e < NR_TASKS
      ensures vm'.dirCount[e] == |Holders(vm'.dirOf, e)|
    {
      HoldersSet(vm.dirOf, child, Some(d), e);
    }
    ForkFree(vm, vm');
    forall t | 0 <= t < NR_TASKS
      ensures vm.dirOf[t] != Some(d)
    {
      FreeDirUnheld(vm, d, t);
    }
  }

  lemma ForkFree(vm: Vm, vm': Vm)
    requires VmWf(vm) && VmWf(vm') && FreeDirsExact(vm) && vm.freeDirs != []
    requires vm'.dirCount == vm.dirCount[vm.freeDirs[0] := 1] && vm'.freeDirs == vm.freeDirs[1..]
    ensures FreeDirsExact(vm')
  {
    assert vm.freeDirs == [vm.freeDirs[0]] + vm.freeDirs[1..];
  }

  /** A task owns its window. */
  lemma WindowOwned(vm: Vm, t: nat)
    requires VmWf(vm) && UserTask(vm, t)
    ensures WindowSlots(vm.dirOf[t].value, vm.heapTop[t]) <= Owned(vm)
  {
    forall k: Slot | k in WindowSlots(vm.dirOf[t].value, vm.heapTop[t])
      ensures k in Owned(vm)
    {
      assert Owns(vm, t, k);
    }
  }

  /** The owned entries of one directory are the window of the one task that may have a heap. */
  lemma OwnedWindow(vm: Vm, t: nat)
    requires VmWf(vm) && SoleHeap(vm, t)
    ensures forall k :: k in Owned(vm) && k.dir == vm.dirOf[t].value <==>
      k in WindowSlots(vm.dirOf[t].value, vm.heapTop[t])
  {
    var d, top := vm.dirOf[t].value, vm.heapTop[t];
    forall k | k in Owned(vm) && k.dir == d
      ensures InWindow(top, k.page)
    {
      var u :| Owns(vm, u, k);
    }
    forall k: Slot | k.dir == d && InWindow(top, k.page)
      ensures k in Owned(vm)
    {
      assert Owns(vm, t, k);
    }
  }

  lemma ForkOwned(vm: Vm, vm': Vm, child: nat, d: nat, top: int)
    requires VmWf(vm) && VmWf(vm') && child < NR_TASKS && child != vm.idle && vm.dirOf[child].None? && d < NR_TASKS
    requires 0 <= top <= HEAP_START
    requires vm'.dirOf == vm.dirOf[child := Some(d)] && vm'.heapTop == vm.heapTop[child := top]
    requires vm'.idle == vm.idle
    ensures Owned(vm') == Owned(vm) + WindowSlots(d, top)
    ensures UserDirs(vm') == UserDirs(vm) + {d}
  {
    assert forall t: nat :: t != child ==> (UserTask(vm', t) <==> UserTask(vm, t));
    assert UserTask(vm', child);
    forall t: nat, k: Slot
      ensures Owns(vm', t, k) <==> Owns(vm, t, k) || (t == child && k in WindowSlots(d, top))
    {
    }
    ForkOwnedSets(vm, vm', child, d, top);
    ForkDirs(vm, vm', child, d);
  }

  lemma ForkOwnedSets(vm: Vm, vm': Vm, child: nat, d: nat, top: int)
    requires VmWf(vm) && VmWf(vm') && 0 <= top <= HEAP_START
    requires forall t: nat, k: Slot :: Owns(vm', t, k) <==> Owns(vm, t, k) || (t == child && k in WindowSlots(d, top))
    ensures Owned(vm') == Owned(vm) + WindowSlots(d, top)
  {
    hide Owned, Owns, WindowSlots;
    forall k: Slot
      ensures k in Owned(vm') <==> k in Owned(vm) || k in WindowSlots(d, top)
    {
      if k in Owned(vm) {
        var t: nat :| Owns(vm, t, k);
        assert Owns(vm', t, k);
      }
      if k in WindowSlots(d, top) {
        assert Owns(vm', child, k);
      }
      if k in Owned(vm') {
        var t: nat :| Owns(vm', t, k);
      }
    }
  }

  lemma ForkDirs(vm: Vm, vm': Vm, child: nat, d: nat)
    requires VmWf(vm) && VmWf(vm') && child < NR_TASKS && !UserTask(vm, child) && UserTask(vm', child)
    requires vm'.dirOf == vm.dirOf[child := Some(d)]
    requires forall t: nat :: t != child ==> (UserTask(vm', t) <==> UserTask(vm, t))
    ensures UserDirs(vm') == UserDirs(vm) + {d}
  {
    hide Wf;
    forall e
      ensures e in UserDirs(vm') <==> e in UserDirs(vm) || e == d
    {
      if e in UserDirs(vm) {
        var t: nat :| t < NR_TASKS && UserTask(vm, t) && vm.dirOf[t].value == e;
        assert UserTask(vm', t) && vm'.dirOf[t].value == e;
      }
      if e == d {
        assert vm'.dirOf[child].value == e;
      }
    }
  }

  lemma ForkHeap(vm: Vm, vm': Vm, child: nat, d: nat, top: int)
    requires VmWf(vm) && VmWf(vm') && HeapInv(vm) && child < NR_TASKS && vm.dirOf[child].None? && d < NR_TASKS
    requires 0 <= top <= HEAP_START && HeapPageSize(top) <= MAX_HEAP_PAGES
    requires vm'.dirOf == vm.dirOf[child := Some(d)] && vm'.heapTop == vm.heapTop[child := top]
    requires vm'.idle == vm.idle
    requires forall t :: 0 <= t < NR_TASKS && vm.dirOf[t] == Some(d) ==> top == HEAP_START
    ensures HeapInv(vm')
  {
    hide Wf;
  }

  /**
   `sys_fork` by a user task never fails for lack of a directory, keeps the invariant, and gives
   the child the parent's contents as an eager copy would.
   */
  lemma ForkKeeps(vm: Vm, child: nat)
    requires VmInv(vm) && UserTask(vm, vm.cur) && child < NR_TASKS && vm.dirOf[child].None?
    ensures child != vm.cur && vm.freeDirs != []
    ensures Fork(vm, child).Some? && VmInv(Fork(vm, child).value)
    ensures View(Fork(vm, child).value) == EagerCopy(View(vm), vm.m.cr3, vm.freeDirs[0], vm.heapTop[vm.cur])
  {
    hide Fork, MemInv, Owned, UserDirs, DirInv, ForkPages, Spaces, Wf, EagerCopy, CanFork, WindowSlots;
    ForkBooks(vm, child);
    var src, d, top := vm.m.cr3, vm.freeDirs[0], vm.heapTop[vm.cur];
    var vm' := Fork(vm, child).value;
    assert vm'.m.cr3 == src by {
      ForkCr3(vm.m, src, d, top);
    }
    ForkOwned(vm, vm', child, d, top);
    ForkHeap(vm, vm', child, d, top);
    ForkEnabled(vm, d);
    ForkMem(vm.m, Owned(vm), UserDirs(vm), src, d, top);
  }

  lemma ForkCr3(m: Mem, src: nat, dst: nat, top: int)
    requires Wf(m) && src < NR_TASKS && dst < NR_TASKS && 0 <= top <= HEAP_START
    ensures ForkPages(m, src, dst, top).cr3 == src
  {
  }

  lemma ForkEnabled(vm: Vm, d: nat)
    requires VmInv(vm) && UserTask(vm, vm.cur) && d < NR_TASKS
    requires forall t :: 0 <= t < NR_TASKS ==> vm.dirOf[t] != Some(d)
    ensures CanFork(Owned(vm), vm.m.cr3, d, vm.heapTop[vm.cur])
    ensures vm.m.cr3 in UserDirs(vm)
  {
    WindowOwned(vm, vm.cur);
    hide MemInv;
    forall k | k in Owned(vm)
      ensures k.dir != d
    {
      var t :| Owns(vm, t, k);
    }
    assert vm.dirOf[vm.cur].value == vm.m.cr3;
  }

  // ---------------------------------------------------------------- clone

  lemma CloneBooks(vm: Vm, child: nat)
    requires VmInv(vm) && UserTask(vm, vm.cur) && child < NR_TASKS && vm.dirOf[child].None?
    ensures DirInv(Clone(vm, child))
  {
    hide MemInv, HeapInv, Wf;
    var d := vm.m.cr3;
    var vm' := Clone(vm, child);
    forall e | 0 <= e < NR_TASKS
      ensures vm'.dirCount[e] == |Holders(vm'.dirOf, e)|
    {
      HoldersSet(vm.dirOf, child, Some(d), e);
    }
    assert vm.cur in Holders(vm.dirOf, d);
  }

  /** A clone shares the address space: nothing observable changes. */
  lemma CloneKeeps(vm: Vm, child: nat)
    requires VmInv(vm) && UserTask(vm, vm.cur) && child < NR_TASKS && vm.dirOf[child].None?
    ensures VmInv(Clone(vm, child)) && View(Clone(vm, child)) == View(vm) && Owned(Clone(vm, child)) == Owned(vm)
  {
    CloneBooks(vm, child);
    var d := vm.m.cr3;
    var vm' := Clone(vm, child);
    hide MemInv, Owned, UserDirs, DirInv, Spaces;
    ForkOwned(vm, vm', child, d, HEAP_START);
    ForkHeap(vm, vm', child, d, HEAP_START);
    WindowOwned(vm, vm.cur);
    assert Owned(vm') == Owned(vm);
    CurDir(vm);
    assert UserDirs(vm') == UserDirs(vm);
  }

  lemma CurDir(vm: Vm)
    requires OnCpu(vm) && UserTask(vm, vm.cur)
    ensures vm.m.cr3 in UserDirs(vm)
  {
    assert vm.dirOf[vm.cur].value == vm.m.cr3;
  }
}
