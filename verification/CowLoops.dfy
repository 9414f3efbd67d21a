/**
 The loops of mm.c and sys.c over several pages or frames: each is the repetition of one
 primitive, and each keeps the copy-on-write invariant.
 */
module CowLoops {
  import opened Basics
  import opened Mm
  import opened Cow

  /** The entries of directory `d` for the pages `ps`. */
  ghost function Slots(d: nat, ps: seq<nat>): (r: set<Slot>)
    ensures forall k: Slot :: k in r <==> k.dir == d && k.page in ps
  {
    var r := set p | p in ps :: Slot(d, p);
    assert forall k: Slot :: k.dir == d && k.page in ps ==> k == Slot(d, k.page);
    r
  }

  lemma SlotsSnoc(d: nat, ps: seq<nat>)
    requires ps != [] && Distinct(ps)
    ensures Slots(d, ps) == Slots(d, ps[..|ps| - 1]) + {Slot(d, ps[|ps| - 1])}
    ensures Slot(d, ps[|ps| - 1]) !in Slots(d, ps[..|ps| - 1])
    ensures Distinct(ps[..|ps| - 1])
  {
    var n := |ps| - 1;
    assert ps == ps[..n] + [ps[n]];
  }

  // ---------------------------------------------------------------- sharing

  ghost predicate CanShare(owned: set<Slot>, src: nat, dst: nat, ps: seq<nat>) {
    && src != dst && src < NR_TASKS && dst < NR_TASKS && Distinct(ps)
    && forall p :: p in ps ==> p < TOTAL_PAGES && Slot(src, p) in owned && Slot(dst, p) !in owned
  }

  lemma CanShareInit(owned: set<Slot>, src: nat, dst: nat, ps: seq<nat>)
    requires ps != [] && CanShare(owned, src, dst, ps)
    ensures CanShare(owned, src, dst, ps[..|ps| - 1])
    ensures InTable(ps) && InTable(ps[..|ps| - 1])
    ensures src < NR_TASKS && dst < NR_TASKS && src != dst
    ensures Slot(src, ps[|ps| - 1]) in owned
    ensures Slot(dst, ps[|ps| - 1]) !in owned + Slots(dst, ps[..|ps| - 1])
    ensures owned + Slots(dst, ps) == owned + Slots(dst, ps[..|ps| - 1]) + {Slot(dst, ps[|ps| - 1])}
  {
    SlotsSnoc(dst, ps);
    assert ps[|ps| - 1] in ps;
    assert forall i :: 0 <= i < |ps| ==> ps[i] in ps;
    assert forall p :: p in ps[..|ps| - 1] ==> p in ps;
  }

  lemma {:induction false} ShareAllFrame(m: Mem, src: nat, dst: nat, ps: seq<nat>)
    requires Wf(m) && src < NR_TASKS && dst < NR_TASKS && InTable(ps)
    ensures var m' := ShareAll(m, src, dst, ps);
      && m'.used == m.used && m'.ram == m.ram && m'.cr3 == m.cr3 && m'.tlb == m.tlb
      && forall k :: k in m.pt && (k.page !in ps || (k.dir != src && k.dir != dst)) ==> m'.pt[k] == m.pt[k]
  {
    if ps != [] {
      var n := |ps| - 1;
      ShareAllFrame(m, src, dst, ps[..n]);
      assert forall p :: p in ps[..n] ==> p in ps;
    }
  }

  lemma {:induction false} ShareAllKeeps(m: Mem, owned: set<Slot>, reserved: set<nat>, src: nat, dst: nat, ps: seq<nat>)
    requires CowInv(m, owned, reserved) && CanShare(owned, src, dst, ps)
    ensures InTable(ps)
    ensures CowInv(ShareAll(m, src, dst, ps), owned + Slots(dst, ps), reserved)
  {
    hide CowInv, CanShare, Slots, Wf, ShareCowPage;
    if ps == [] {
      assert owned + Slots(dst, ps) == owned;
    } else {
      var n := |ps| - 1;
      CanShareInit(owned, src, dst, ps);
      ShareAllKeeps(m, owned, reserved, src, dst, ps[..n]);
      ShareKeeps(ShareAll(m, src, dst, ps[..n]), owned + Slots(dst, ps[..n]), reserved, src, dst, ps[n]);
    }
  }

  /** What fork promises: the shared pages of `dst` read like those of `src`. */
  ghost function Copied(e: map<Slot, Page>, src: nat, dst: nat, ps: seq<nat>): (r: map<Slot, Page>)
    requires forall p :: p in ps ==> Slot(src, p) in e
    ensures forall k :: k in r <==> k in e || (k.dir == dst && k.page in ps)
    ensures forall k :: k in r ==> r[k] == if k.dir == dst && k.page in ps then e[Slot(src, k.page)] else e[k]
  {
    e + map k | k in Slots(dst, ps) :: e[Slot(src, k.page)]
  }

  lemma {:induction false} ShareAllCopies(m: Mem, owned: set<Slot>, src: nat, dst: nat, ps: seq<nat>)
    requires Wf(m) && owned <= m.pt.Keys && CanShare(owned, src, dst, ps)
    ensures InTable(ps) && owned + Slots(dst, ps) <= m.pt.Keys
    ensures owned + Slots(dst, ps) <= ShareAll(m, src, dst, ps).pt.Keys
    ensures Spaces(ShareAll(m, src, dst, ps), owned + Slots(dst, ps)) == Copied(Spaces(m, owned), src, dst, ps)
  {
    if ps == [] {
      assert owned + Slots(dst, ps) == owned;
    } else {
      var n := |ps| - 1;
      CanShareInit(owned, src, dst, ps);
      ShareAllCopies(m, owned, src, dst, ps[..n]);
      ShareStepCopies(m, owned, src, dst, ps);
    }
  }

  lemma ShareStepCopies(m: Mem, owned: set<Slot>, src: nat, dst: nat, ps: seq<nat>)
    requires Wf(m) && owned <= m.pt.Keys && CanShare(owned, src, dst, ps) && ps != [] && InTable(ps)
    requires InTable(ps[..|ps| - 1])
    requires owned + Slots(dst, ps[..|ps| - 1]) <= ShareAll(m, src, dst, ps[..|ps| - 1]).pt.Keys
    requires forall p :: p in ps[..|ps| - 1] ==> p in ps
    requires Spaces(ShareAll(m, src, dst, ps[..|ps| - 1]), owned + Slots(dst, ps[..|ps| - 1]))
          == Copied(Spaces(m, owned), src, dst, ps[..|ps| - 1])
    ensures owned + Slots(dst, ps) <= ShareAll(m, src, dst, ps).pt.Keys
    ensures Spaces(ShareAll(m, src, dst, ps), owned + Slots(dst, ps)) == Copied(Spaces(m, owned), src, dst, ps)
  {
    var n := |ps| - 1;
    CopiedSnoc(Spaces(m, owned), src, dst, ps);
    CanShareInit(owned, src, dst, ps);
    hide CanShare, Slots, Spaces, Copied, ShareCowPage;
    ShareCopies(ShareAll(m, src, dst, ps[..n]), owned + Slots(dst, ps[..n]), src, dst, ps[n]);
  }

  lemma CopiedSnoc(e: map<Slot, Page>, src: nat, dst: nat, ps: seq<nat>)
    requires ps != [] && Distinct(ps) && src != dst
    requires forall p :: p in ps ==> Slot(src, p) in e
    ensures var n := |ps| - 1;
      && (forall p :: p in ps[..n] ==> Slot(src, p) in e)
      && ps[n] in ps
      && Copied(e, src, dst, ps) ==
        Copied(e, src, dst, ps[..n])[Slot(dst, ps[n]) := Copied(e, src, dst, ps[..n])[Slot(src, ps[n])]]
  {
    SlotsSnoc(dst, ps);
    assert forall p :: p in ps[..|ps| - 1] ==> p in ps;
  }

  // ---------------------------------------------------------------- freeing

  lemma {:induction false} FreeAllFrame(m: Mem, d: nat, ps: seq<nat>)
    requires Wf(m) && d < NR_TASKS && InTable(ps)
    ensures var m' := FreeAll(m, d, ps);
      && m'.ram == m.ram && m'.cr3 == m.cr3 && m'.tlb == m.tlb
      && forall k :: k in m.pt ==> m'.pt[k] == if k.dir == d && k.page in ps then NULL_PTE else m.pt[k]
  {
    if ps != [] {
      var n := |ps| - 1;
      FreeAllFrame(m, d, ps[..n]);
      assert ps == ps[..n] + [ps[n]];
    }
  }

  lemma {:induction false} FreeAllKeeps(m: Mem, owned: set<Slot>, reserved: set<nat>, d: nat, ps: seq<nat>)
    requires CowInv(m, owned, reserved) && d < NR_TASKS && Distinct(ps) && InTable(ps)
    requires Slots(d, ps) <= owned
    ensures CowInv(FreeAll(m, d, ps), owned - Slots(d, ps), reserved)
  {
    hide CowInv, Slots, Distinct, Wf, FreeFrame, SetPte;
    if ps == [] {
      assert owned - Slots(d, ps) == owned;
    } else {
      var n := |ps| - 1;
      SlotsSnoc(d, ps);
      var o := owned - Slots(d, ps[..n]);
      var k := Slot(d, ps[n]);
      assert k in o;
      FreeAllKeeps(m, owned, reserved, d, ps[..n]);
      var m1 := FreeAll(m, d, ps[..n]);
      FreeOwnedKeeps(m1, o, reserved, k);
      var m2 := FreeFrame(m1, m1.pt[k].frame);
      ClearKeeps(m2, o - {k}, reserved, k);
      assert owned - Slots(d, ps) == o - {k};
    }
  }

  lemma FreeFrameFrame(m: Mem, f: FrameNo)
    requires Wf(m)
    ensures var m' := FreeFrame(m, f);
      m'.pt == m.pt && m'.ram == m.ram && m'.cr3 == m.cr3 && m'.tlb == m.tlb
  {
  }

  lemma FreeHeapPageFrame(m: Mem, d: nat, i: nat)
    requires Wf(m) && d < NR_TASKS && i < 512
    ensures var m' := FreeHeapPage(m, d, i);
      && m'.ram == m.ram && m'.cr3 == m.cr3 && m'.tlb == m.tlb
      && m'.pt == m.pt[Slot(d, 511 + i) := NULL_PTE]
  {
    FreeFrameFrame(m, m.pt[Slot(d, 511 - i)].frame);
  }

  lemma {:induction false} FreeHeapFrame(m: Mem, d: nat, n: nat)
    requires Wf(m) && d < NR_TASKS && n <= 512
    ensures var m' := FreeHeap(m, d, n);
      && m'.ram == m.ram && m'.cr3 == m.cr3 && m'.tlb == m.tlb
      && forall k :: k in m.pt ==> m'.pt[k] == if k.dir == d && 511 <= k.page < 511 + n then NULL_PTE else m.pt[k]
  {
    hide FreeHeapPage;
    if n != 0 {
      FreeHeapFrame(m, d, n - 1);
      FreeHeapPageFrame(FreeHeap(m, d, n - 1), d, n - 1);
    }
  }

  lemma HeapPagesSnoc(owned: set<Slot>, d: nat, n: nat)
    requires 0 < n <= 512
    requires Slots(d, HeapPages(0, n)) <= owned
    ensures Slots(d, HeapPages(0, n - 1)) <= owned
    ensures Slot(d, 511 - (n - 1)) in owned - Slots(d, HeapPages(0, n - 1))
    ensures owned - Slots(d, HeapPages(0, n)) == owned - Slots(d, HeapPages(0, n - 1)) - {Slot(d, 511 - (n - 1))}
    ensures Slot(d, 511) in Slots(d, HeapPages(0, n))
  {
    var ps := HeapPages(0, n);
    SlotsSnoc(d, ps);
    assert ps[..n - 1] == HeapPages(0, n - 1);
    assert ps[0] in ps;
  }

  lemma {:induction false} FreeHeapKeeps(m: Mem, owned: set<Slot>, reserved: set<nat>, d: nat, n: nat)
    requires CowInv(m, owned, reserved) && d < NR_TASKS && n <= 512
    requires Slots(d, HeapPages(0, n)) <= owned
    ensures CowInv(FreeHeap(m, d, n), owned - Slots(d, HeapPages(0, n)), reserved)
  {
    hide CowInv, Slots, HeapPages, Wf, FreeFrame, SetPte;
    if n == 0 {
      assert owned - Slots(d, HeapPages(0, n)) == owned;
    } else {
      HeapPagesSnoc(owned, d, n);
      UserPagesOnly(m, owned, reserved);
      FreeHeapKeeps(m, owned, reserved, d, n - 1);
      var o := owned - Slots(d, HeapPages(0, n - 1));
      var m1 := FreeHeap(m, d, n - 1);
      var k := Slot(d, 511 - (n - 1));
      FreeOwnedKeeps(m1, o, reserved, k);
      ClearKeeps(FreeFrame(m1, m1.pt[k].frame), o - {k}, reserved, Slot(d, 511 + (n - 1)));
    }
  }

  lemma UserPagesOnly(m: Mem, owned: set<Slot>, reserved: set<nat>)
    requires CowInv(m, owned, reserved)
    ensures forall k :: k in owned ==> ValidSlot(k) && UserPage(k.page)
  {
  }

  lemma ClearKeeps(m: Mem, owned: set<Slot>, reserved: set<nat>, k: Slot)
    requires CowInv(m, owned, reserved) && ValidSlot(k) && k !in owned
    ensures CowInv(SetPte(m, k, NULL_PTE), owned, reserved)
  {
    hide CowInv;
    UnownedIrrelevant(m, SetPte(m, k, NULL_PTE), owned, reserved);
  }

  // ---------------------------------------------------------------- reserving and assigning

  ghost function FrameSet(fs: seq<FrameNo>): (r: set<nat>) {
    set f: FrameNo | f in fs :: f
  }

  lemma FrameSetSnoc(fs: seq<FrameNo>, f: FrameNo)
    ensures FrameSet(fs + [f]) == FrameSet(fs) + {f}
    ensures Distinct(fs) && f !in FrameSet(fs) ==> Distinct(fs + [f])
  {
    assert f in fs + [f];
    assert forall g :: g in fs ==> g in fs + [f];
  }

  lemma {:induction false} ReserveFrame(m: Mem, n: nat)
    requires Wf(m)
    ensures var (m', fs) := Reserve(m, n);
      && m'.pt == m.pt && m'.ram == m.ram && m'.cr3 == m.cr3 && m'.tlb == m.tlb
      && (|fs| < n ==> AllocFrame(m').1 == -1)
  {
    hide FirstFree, Wf;
    if n != 0 {
      ReserveFrame(m, n - 1);
    }
  }

  lemma {:induction false} ReserveKeeps(m: Mem, owned: set<Slot>, reserved: set<nat>, n: nat)
    requires CowInv(m, owned, reserved)
    ensures var (m', fs) := Reserve(m, n);
      && Distinct(fs)
      && FrameSet(fs) !! reserved
      && CowInv(m', owned, reserved + FrameSet(fs))
  {
    hide CowInv, AllocFrame, Wf;
    if n == 0 {
      assert reserved + FrameSet([]) == reserved;
    } else {
      ReserveKeeps(m, owned, reserved, n - 1);
      var (m1, fs) := Reserve(m, n - 1);
      if |fs| == n - 1 && AllocFrame(m1).1 != -1 {
        var f := AllocFrame(m1).1;
        AllocKeeps(m1, owned, reserved + FrameSet(fs));
        FrameSetSnoc(fs, f);
        assert reserved + FrameSet(fs + [f]) == reserved + FrameSet(fs) + {f};
      }
    }
  }

  lemma {:induction false} FreeFramesFrame(m: Mem, fs: seq<FrameNo>)
    requires Wf(m)
    ensures var m' := FreeFrames(m, fs);
      m'.pt == m.pt && m'.ram == m.ram && m'.cr3 == m.cr3 && m'.tlb == m.tlb
  {
    if fs != [] {
      FreeFramesFrame(m, fs[..|fs| - 1]);
    }
  }

  lemma {:induction false} FreeFramesKeeps(m: Mem, owned: set<Slot>, reserved: set<nat>, fs: seq<FrameNo>)
    requires CowInv(m, owned, reserved) && Distinct(fs)
    requires FrameSet(fs) <= reserved
    ensures CowInv(FreeFrames(m, fs), owned, reserved - FrameSet(fs))
  {
    if fs == [] {
      assert reserved - FrameSet(fs) == reserved;
    } else {
      var n := |fs| - 1;
      assert fs == fs[..n] + [fs[n]];
      FrameSetSnoc(fs[..n], fs[n]);
      assert fs[n] !in FrameSet(fs[..n]);
      assert Distinct(fs[..n]);
      hide CowInv, FrameSet, FreeFrame, Distinct;
      FreeFramesKeeps(m, owned, reserved, fs[..n]);
      FreeReservedKeeps(FreeFrames(m, fs[..n]), owned, reserved - FrameSet(fs[..n]), fs[n]);
      assert reserved - FrameSet(fs) == reserved - FrameSet(fs[..n]) - {fs[n]};
    }
  }

  lemma {:induction false} AssignAllFrame(m: Mem, d: nat, ps: seq<nat>, fs: seq<FrameNo>)
    requires Wf(m) && d < NR_TASKS && InTable(ps) && |ps| == |fs|
    ensures var m' := AssignAll(m, d, ps, fs);
      && m'.used == m.used && m'.cow == m.cow && m'.ram == m.ram && m'.cr3 == m.cr3 && m'.tlb == m.tlb
      && forall k :: k in m.pt && (k.dir != d || k.page !in ps) ==> m'.pt[k] == m.pt[k]
  {
    if ps != [] {
      var n := |ps| - 1;
      AssignAllFrame(m, d, ps[..n], fs[..n]);
      assert ps == ps[..n] + [ps[n]];
    }
  }

  ghost predicate CanAssign(owned: set<Slot>, reserved: set<nat>, d: nat, ps: seq<nat>, fs: seq<FrameNo>) {
    && d < NR_TASKS && |ps| == |fs|
    && Distinct(ps) && Distinct(fs) && InTable(ps)
    && (forall p :: p in ps ==> UserPage(p) && Slot(d, p) !in owned)
    && (forall f :: f in fs ==> f in reserved)
  }

  lemma CanAssignInit(owned: set<Slot>, reserved: set<nat>, d: nat, ps: seq<nat>, fs: seq<FrameNo>)
    requires ps != [] && CanAssign(owned, reserved, d, ps, fs)
    ensures var n := |ps| - 1;
      && |ps| == |fs| && InTable(ps) && InTable(ps[..n]) && d < NR_TASKS
      && CanAssign(owned, reserved, d, ps[..n], fs[..n])
      && UserPage(ps[n]) && Slot(d, ps[n]) !in owned + Slots(d, ps[..n])
      && fs[n] in reserved - FrameSet(fs[..n])
      && owned + Slots(d, ps) == owned + Slots(d, ps[..n]) + {Slot(d, ps[n])}
      && reserved - FrameSet(fs) == reserved - FrameSet(fs[..n]) - {fs[n]}
  {
    var n := |ps| - 1;
    SlotsSnoc(d, ps);
    assert fs == fs[..n] + [fs[n]];
    FrameSetSnoc(fs[..n], fs[n]);
    assert ps == ps[..n] + [ps[n]];
    assert ps[n] in ps && fs[n] in fs;
  }

  lemma {:induction false} AssignAllKeeps(m: Mem, owned: set<Slot>, reserved: set<nat>, d: nat, ps: seq<nat>,
    fs: seq<FrameNo>)
    requires CowInv(m, owned, reserved) && CanAssign(owned, reserved, d, ps, fs)
    ensures |ps| == |fs| && d < NR_TASKS && InTable(ps)
    ensures CowInv(AssignAll(m, d, ps, fs), owned + Slots(d, ps), reserved - FrameSet(fs))
  {
    if ps == [] {
      assert owned + Slots(d, ps) == owned;
      assert reserved - FrameSet(fs) == reserved;
    } else {
      var n := |ps| - 1;
      CanAssignInit(owned, reserved, d, ps, fs);
      hide CowInv, Slots, CanAssign, FrameSet, Wf, SetSsPag;
      AssignAllKeeps(m, owned, reserved, d, ps[..n], fs[..n]);
      AssignKeeps(AssignAll(m, d, ps[..n], fs[..n]), owned + Slots(d, ps[..n]), reserved - FrameSet(fs[..n]),
        Slot(d, ps[n]), fs[n]);
    }
  }

  /** Which frames are free is determined by what is mapped and reserved. */
  lemma UsedDetermined(m: Mem, m': Mem, owned: set<Slot>, reserved: set<nat>)
    requires CowInv(m, owned, reserved) && CowInv(m', owned, reserved)
    requires forall k :: k in owned ==> m'.pt[k].frame == m.pt[k].frame
    ensures m'.used == m.used
  {
    OwnersFrame(m.pt, m'.pt, owned);
    assert |m.used| == |m'.used| == TOTAL_PAGES;
    forall f | 0 <= f < TOTAL_PAGES
      ensures m'.used[f] == m.used[f]
    {
      assert Owners(m'.pt, owned, f) == Owners(m.pt, owned, f);
    }
  }
}
