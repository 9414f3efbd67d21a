/**
 What every change of the copy-on-write state keeps.

 `owned` is the set of table entries that belong to live address spaces and `reserved`
 the frames handed out by `alloc_frame` but not mapped yet. Each lemma takes one primitive
 of mm.c and shows which entries it adds to or takes from these sets, that the invariant
 survives, and how the contents seen through the owned entries change.
 */
module Cow {
  import opened Basics
  import opened Mm

  /** Frames that can back data and heap pages; 256..270 are the code frames. */
  predicate UserFrame(f: nat) {
    272 <= f < TOTAL_PAGES && f % 2 == 0
  }

  predicate UserPage(p: nat) {
    PAG_LOG_INIT_DATA <= p <= PAG_LOG_INIT_HEAP
  }

  ghost function Owners(pt: map<Slot, Pte>, owned: set<Slot>, f: nat): (r: set<Slot>)
    requires owned <= pt.Keys
  {
    set k | k in owned && pt[k].frame == f
  }

  ghost predicate OwnedMapped(m: Mem, owned: set<Slot>)
    requires Wf(m)
  {
    forall k :: k in owned ==>
      && ValidSlot(k) && UserPage(k.page)
      && m.pt[k].present && m.pt[k].user
      && UserFrame(m.pt[k].frame) && m.used[m.pt[k].frame]
  }

  /** A frame is only ever shared between entries for the same logical page. */
  ghost predicate SharedAtSamePage(pt: map<Slot, Pte>, owned: set<Slot>)
    requires owned <= pt.Keys
  {
    forall j, k :: j in owned && k in owned && pt[j].frame == pt[k].frame ==> j.page == k.page
  }

  /**
   The count law. Count 0: one owner, writable. Count n > 0: n owners, all read-only.
   */
  ghost predicate CountLaw(m: Mem, owned: set<Slot>)
    requires Wf(m) && owned <= m.pt.Keys
  {
    forall k :: k in owned ==>
      var c := m.cow[m.pt[k].frame];
      && (m.pt[k].rw <==> c == 0)
      && |Owners(m.pt, owned, m.pt[k].frame)| == if c == 0 then 1 else c
  }

  ghost predicate ReservedFree(m: Mem, owned: set<Slot>, reserved: set<nat>)
    requires Wf(m) && owned <= m.pt.Keys
  {
    && (forall f :: f in reserved ==> UserFrame(f) && m.used[f] && m.cow[f] == 0)
    && (forall k :: k in owned ==> m.pt[k].frame !in reserved)
  }

  predicate FixedFrame(f: nat) {
    f < NUM_PAG_KERNEL || (f < 272 && f % 2 == 0)
  }

  /** A frame is marked used exactly when something holds it. */
  ghost predicate Accounted(m: Mem, owned: set<Slot>, reserved: set<nat>)
    requires Wf(m) && owned <= m.pt.Keys
  {
    forall f :: 0 <= f < TOTAL_PAGES ==>
      (m.used[f] <==> (FixedFrame(f) || f in reserved || Owners(m.pt, owned, f) != {}))
  }

  /** Kernel and code frames never enter the copy-on-write scheme. */
  ghost predicate FixedCounts(m: Mem)
    requires Wf(m)
  {
    forall f :: 0 <= f < 272 ==> m.cow[f] == 0
  }

  ghost predicate CowInv(m: Mem, owned: set<Slot>, reserved: set<nat>)
    ensures CowInv(m, owned, reserved) ==> Wf(m) && owned <= m.pt.Keys
  {
    && Wf(m)
    && owned <= m.pt.Keys
    && OwnedMapped(m, owned)
    && SharedAtSamePage(m.pt, owned)
    && CountLaw(m, owned)
    && ReservedFree(m, owned, reserved)
    && Accounted(m, owned, reserved)
    && FixedCounts(m)
  }

  /** The contents of the owned pages: what user code can observe. */
  ghost function Spaces(m: Mem, owned: set<Slot>): (r: map<Slot, Page>)
    requires Wf(m) && owned <= m.pt.Keys
  {
    map k | k in owned :: m.ram[m.pt[k].frame]
  }

  // ---------------------------------------------------------------- counting owners

  ghost function Dirs(n: nat): (r: set<nat>)
    ensures |r| == n && forall d :: d in r <==> 0 <= d < n
  {
    if n == 0 then {} else Dirs(n - 1) + {n - 1}
  }

  lemma {:induction false} SetImageSize(s: set<Slot>, page: nat)
    requires forall k :: k in s ==> k.page == page
    ensures |s| == |set k | k in s :: k.dir|
  {
    var ds := set k | k in s :: k.dir;
    if s == {} {
      assert ds == {};
    } else {
      var k :| k in s;
      var s' := s - {k};
      SetImageSize(s', page);
      assert ds == (set j | j in s' :: j.dir) + {k.dir};
    }
  }

  lemma SubsetSize<T>(a: set<T>, b: set<T>)
    requires a <= b
    ensures |a| <= |b|
  {
    assert b == a + (b - a);
  }

  /** No frame has more owners than there are directories. */
  lemma OwnersBounded(pt: map<Slot, Pte>, owned: set<Slot>, f: nat, page: nat)
    requires owned <= pt.Keys && SharedAtSamePage(pt, owned)
    requires forall k :: k in owned ==> ValidSlot(k)
    requires forall k :: k in Owners(pt, owned, f) ==> k.page == page
    ensures |Owners(pt, owned, f)| <= NR_TASKS
    ensures forall d :: 0 <= d < NR_TASKS && Slot(d, page) !in owned ==> |Owners(pt, owned, f)| < NR_TASKS
  {
    hide Dirs;
    var s := Owners(pt, owned, f);
    var ds := set k | k in s :: k.dir;
    SetImageSize(s, page);
    SubsetSize(ds, Dirs(NR_TASKS));
    forall d | 0 <= d < NR_TASKS && Slot(d, page) !in owned
      ensures |s| < NR_TASKS
    {
      forall k | k in s
        ensures k.dir != d
      {
        assert k == Slot(k.dir, k.page);
      }
      SubsetSize(ds, Dirs(NR_TASKS) - {d});
    }
  }

  lemma CountBounded(m: Mem, owned: set<Slot>, k: Slot)
    requires Wf(m) && owned <= m.pt.Keys && OwnedMapped(m, owned)
    requires SharedAtSamePage(m.pt, owned) && CountLaw(m, owned)
    requires k in owned
    ensures m.cow[m.pt[k].frame] <= NR_TASKS
    ensures forall d :: 0 <= d < NR_TASKS && Slot(d, k.page) !in owned ==> m.cow[m.pt[k].frame] < NR_TASKS
  {
    var f := m.pt[k].frame;
    forall j | j in Owners(m.pt, owned, f)
      ensures j.page == k.page
    {
    }
    OwnersBounded(m.pt, owned, f, k.page);
  }

  lemma OwnersInsert(pt: map<Slot, Pte>, pt': map<Slot, Pte>, owned: set<Slot>, k: Slot, f: nat)
    requires owned <= pt.Keys && owned + {k} <= pt'.Keys && k !in owned
    requires forall j :: j in owned ==> pt'[j].frame == pt[j].frame
    ensures Owners(pt', owned + {k}, f) == Owners(pt, owned, f) + if pt'[k].frame == f then {k} else {}
  {
  }

  lemma OwnersRemove(pt: map<Slot, Pte>, pt': map<Slot, Pte>, owned: set<Slot>, k: Slot, f: nat)
    requires owned <= pt.Keys && owned - {k} <= pt'.Keys && k in owned
    requires forall j :: j in owned - {k} ==> pt'[j].frame == pt[j].frame
    ensures Owners(pt', owned - {k}, f) == Owners(pt, owned, f) - {k}
    ensures pt[k].frame != f ==> Owners(pt', owned - {k}, f) == Owners(pt, owned, f)
    ensures pt[k].frame == f ==> |Owners(pt', owned - {k}, f)| == |Owners(pt, owned, f)| - 1
  {
    assert pt[k].frame == f ==> k in Owners(pt, owned, f);
  }

  // ---------------------------------------------------------------- one primitive at a time

  /** With count 0 the mapped entry is the only owner. */
  lemma SoleOwner(m: Mem, owned: set<Slot>, s: Slot, k: Slot)
    requires Wf(m) && owned <= m.pt.Keys && CountLaw(m, owned)
    requires s in owned && m.cow[m.pt[s].frame] == 0
    ensures k in owned && m.pt[k].frame == m.pt[s].frame ==> k == s
  {
    var o := Owners(m.pt, owned, m.pt[s].frame);
    if k in owned && m.pt[k].frame == m.pt[s].frame && k != s {
      SubsetSize({s, k}, o);
    }
  }

  // ---- share_cow_page

  ghost predicate Shared(m: Mem, m': Mem, s: Slot, d: Slot)
    requires Wf(m) && ValidSlot(s) && ValidSlot(d)
  {
    var f := m.pt[s].frame;
    && m.cow[f] < 255
    && m' == m.(cow := m.cow[f := if m.cow[f] == 0 then 2 else m.cow[f] + 1],
                pt := m.pt[s := m.pt[s].(rw := false)][d := Pte(true, false, true, f)])
  }

  lemma ShareOwners(m: Mem, m': Mem, owned: set<Slot>, s: Slot, d: Slot, g: nat)
    requires Wf(m) && owned <= m.pt.Keys && s in owned && d !in owned && ValidSlot(s) && ValidSlot(d)
    requires Shared(m, m', s, d)
    ensures Owners(m'.pt, owned + {d}, g) == Owners(m.pt, owned, g) + if g == m.pt[s].frame then {d} else {}
    ensures |Owners(m'.pt, owned + {d}, g)| == |Owners(m.pt, owned, g)| + if g == m.pt[s].frame then 1 else 0
  {
    OwnersInsert(m.pt, m'.pt, owned, d, g);
    assert d !in Owners(m.pt, owned, g);
  }

  lemma ShareMapped(m: Mem, m': Mem, owned: set<Slot>, s: Slot, d: Slot)
    requires Wf(m) && owned <= m.pt.Keys && OwnedMapped(m, owned)
    requires s in owned && ValidSlot(s) && ValidSlot(d) && s.page == d.page
    requires Shared(m, m', s, d)
    ensures Wf(m') && owned + {d} <= m'.pt.Keys
    ensures OwnedMapped(m', owned + {d})
  {
  }

  lemma ShareSamePage(m: Mem, m': Mem, owned: set<Slot>, s: Slot, d: Slot)
    requires Wf(m) && Wf(m') && owned <= m.pt.Keys && owned + {d} <= m'.pt.Keys
    requires SharedAtSamePage(m.pt, owned)
    requires s in owned && ValidSlot(s) && ValidSlot(d) && s.page == d.page
    requires Shared(m, m', s, d)
    ensures SharedAtSamePage(m'.pt, owned + {d})
  {
  }

  lemma ShareReserved(m: Mem, m': Mem, owned: set<Slot>, reserved: set<nat>, s: Slot, d: Slot)
    requires Wf(m) && Wf(m') && owned <= m.pt.Keys && owned + {d} <= m'.pt.Keys
    requires ReservedFree(m, owned, reserved)
    requires s in owned && ValidSlot(s) && ValidSlot(d)
    requires Shared(m, m', s, d)
    ensures ReservedFree(m', owned + {d}, reserved)
  {
  }

  lemma ShareCount(m: Mem, m': Mem, owned: set<Slot>, s: Slot, d: Slot)
    requires Wf(m) && Wf(m') && owned <= m.pt.Keys && owned + {d} <= m'.pt.Keys && CountLaw(m, owned)
    requires s in owned && d !in owned && ValidSlot(d) && ValidSlot(s)
    requires Shared(m, m', s, d)
    ensures CountLaw(m', owned + {d})
  {
    forall k | k in owned + {d}
      ensures var c := m'.cow[m'.pt[k].frame];
        && (m'.pt[k].rw <==> c == 0)
        && |Owners(m'.pt, owned + {d}, m'.pt[k].frame)| == if c == 0 then 1 else c
    {
      ShareCountAt(m, m', owned, s, d, k);
    }
  }

  lemma ShareCountAt(m: Mem, m': Mem, owned: set<Slot>, s: Slot, d: Slot, k: Slot)
    requires Wf(m) && Wf(m') && owned <= m.pt.Keys && owned + {d} <= m'.pt.Keys && CountLaw(m, owned)
    requires s in owned && d !in owned && ValidSlot(d) && ValidSlot(s) && k in owned + {d}
    requires Shared(m, m', s, d)
    ensures var c := m'.cow[m'.pt[k].frame];
      && (m'.pt[k].rw <==> c == 0)
      && |Owners(m'.pt, owned + {d}, m'.pt[k].frame)| == if c == 0 then 1 else c
  {
    hide Owners, AllSlots;
    var f := m.pt[s].frame;
    var g := m'.pt[k].frame;
    ShareOwners(m, m', owned, s, d, g);
    if g == f {
      if m.cow[f] == 0 {
        SoleOwner(m, owned, s, k);
      }
    } else {
      assert m'.pt[k] == m.pt[k];
    }
  }

  lemma ShareAccounted(m: Mem, m': Mem, owned: set<Slot>, reserved: set<nat>, s: Slot, d: Slot)
    requires Wf(m) && Wf(m') && owned <= m.pt.Keys && owned + {d} <= m'.pt.Keys
    requires Accounted(m, owned, reserved)
    requires s in owned && d !in owned && ValidSlot(d) && ValidSlot(s)
    requires Shared(m, m', s, d)
    ensures Accounted(m', owned + {d}, reserved)
  {
    forall g | 0 <= g < TOTAL_PAGES
      ensures Owners(m'.pt, owned + {d}, g) != {} <==> Owners(m.pt, owned, g) != {}
    {
      ShareOwners(m, m', owned, s, d, g);
      assert s in Owners(m.pt, owned, m.pt[s].frame);
    }
  }

  lemma ShareEffect(m: Mem, src: nat, dst: nat, p: nat)
    requires Wf(m) && ValidSlot(Slot(src, p)) && ValidSlot(Slot(dst, p)) && src != dst
    requires m.cow[m.pt[Slot(src, p)].frame] < 255
    ensures Shared(m, ShareCowPage(m, src, dst, p), Slot(src, p), Slot(dst, p))
  {
    var s, d := Slot(src, p), Slot(dst, p);
    assert ShareCowPage(m, src, dst, p).pt ==
      m.pt[s := m.pt[s].(rw := false)][d := Pte(true, false, true, m.pt[s].frame)];
  }

  lemma ShareKeeps(m: Mem, owned: set<Slot>, reserved: set<nat>, src: nat, dst: nat, p: nat)
    requires CowInv(m, owned, reserved)
    requires Slot(src, p) in owned && Slot(dst, p) !in owned && dst < NR_TASKS
    ensures ValidSlot(Slot(src, p))
    ensures CowInv(ShareCowPage(m, src, dst, p), owned + {Slot(dst, p)}, reserved)
  {
    var s, d := Slot(src, p), Slot(dst, p);
    CountBounded(m, owned, s);
    ShareEffect(m, src, dst, p);
    var m' := ShareCowPage(m, src, dst, p);
    ShareMapped(m, m', owned, s, d);
    ShareSamePage(m, m', owned, s, d);
    ShareReserved(m, m', owned, reserved, s, d);
    ShareCount(m, m', owned, s, d);
    ShareAccounted(m, m', owned, reserved, s, d);
  }

  lemma ShareCopies(m: Mem, owned: set<Slot>, src: nat, dst: nat, p: nat)
    requires Wf(m) && owned <= m.pt.Keys
    requires Slot(src, p) in owned && Slot(dst, p) !in owned && dst < NR_TASKS
    ensures ValidSlot(Slot(src, p)) && owned + {Slot(dst, p)} <= ShareCowPage(m, src, dst, p).pt.Keys
    ensures Spaces(ShareCowPage(m, src, dst, p), owned + {Slot(dst, p)})
         == Spaces(m, owned)[Slot(dst, p) := Spaces(m, owned)[Slot(src, p)]]
  {
  }

  // ---- alloc_frame

  lemma AllocKeeps(m: Mem, owned: set<Slot>, reserved: set<nat>)
    requires CowInv(m, owned, reserved)
    requires AllocFrame(m).1 != -1
    ensures AllocFrame(m).1 !in reserved
    ensures CowInv(AllocFrame(m).0, owned, reserved + {AllocFrame(m).1})
  {
    var (m', f) := AllocFrame(m);
    assert !m.used[f] && UserFrame(f) && Owners(m.pt, owned, f) == {};
    assert m' == m.(used := m.used[f := true], cow := m.cow[f := 0]);
    forall k | k in owned
      ensures m.pt[k].frame != f
    {
      assert k in Owners(m.pt, owned, m.pt[k].frame);
    }
  }

  /** `alloc_frame` fails only when all 384 even frames are held. */
  lemma AllocFailsOnlyWhenFull(m: Mem, owned: set<Slot>, reserved: set<nat>)
    requires CowInv(m, owned, reserved)
    ensures AllocFrame(m).1 == -1 <==>
      forall f :: UserFrame(f) ==> f in reserved || Owners(m.pt, owned, f) != {}
  {
  }

  // ---- set_ss_pag of a reserved frame

  lemma AssignOwners(m: Mem, owned: set<Slot>, reserved: set<nat>, k: Slot, f: FrameNo, g: nat)
    requires Wf(m) && owned <= m.pt.Keys && ReservedFree(m, owned, reserved)
    requires f in reserved && k !in owned && ValidSlot(k)
    ensures Owners(SetSsPag(m, k, f).pt, owned + {k}, g) == if g == f then {k} else Owners(m.pt, owned, g)
  {
    OwnersInsert(m.pt, SetSsPag(m, k, f).pt, owned, k, g);
  }

  lemma AssignMapped(m: Mem, owned: set<Slot>, reserved: set<nat>, k: Slot, f: FrameNo)
    requires Wf(m) && owned <= m.pt.Keys && OwnedMapped(m, owned) && ReservedFree(m, owned, reserved)
    requires f in reserved && k !in owned && ValidSlot(k) && UserPage(k.page)
    ensures OwnedMapped(SetSsPag(m, k, f), owned + {k})
    ensures ReservedFree(SetSsPag(m, k, f), owned + {k}, reserved - {f})
  {
  }

  lemma AssignSamePage(m: Mem, owned: set<Slot>, reserved: set<nat>, k: Slot, f: FrameNo)
    requires Wf(m) && owned <= m.pt.Keys && SharedAtSamePage(m.pt, owned) && ReservedFree(m, owned, reserved)
    requires f in reserved && k !in owned && ValidSlot(k)
    ensures SharedAtSamePage(SetSsPag(m, k, f).pt, owned + {k})
  {
  }

  lemma AssignCount(m: Mem, owned: set<Slot>, reserved: set<nat>, k: Slot, f: FrameNo)
    requires Wf(m) && owned <= m.pt.Keys && CountLaw(m, owned) && ReservedFree(m, owned, reserved)
    requires f in reserved && k !in owned && ValidSlot(k)
    ensures CountLaw(SetSsPag(m, k, f), owned + {k})
  {
    var m' := SetSsPag(m, k, f);
    forall j | j in owned + {k}
      ensures |Owners(m'.pt, owned + {k}, m'.pt[j].frame)| ==
        if m'.cow[m'.pt[j].frame] == 0 then 1 else m'.cow[m'.pt[j].frame]
    {
      AssignOwners(m, owned, reserved, k, f, m'.pt[j].frame);
    }
  }

  lemma AssignAccounted(m: Mem, owned: set<Slot>, reserved: set<nat>, k: Slot, f: FrameNo)
    requires Wf(m) && owned <= m.pt.Keys && Accounted(m, owned, reserved) && ReservedFree(m, owned, reserved)
    requires f in reserved && k !in owned && ValidSlot(k)
    ensures Accounted(SetSsPag(m, k, f), owned + {k}, reserved - {f})
  {
    forall g | 0 <= g < TOTAL_PAGES
      ensures Owners(SetSsPag(m, k, f).pt, owned + {k}, g) == if g == f then {k} else Owners(m.pt, owned, g)
    {
      AssignOwners(m, owned, reserved, k, f, g);
    }
  }

  lemma AssignKeeps(m: Mem, owned: set<Slot>, reserved: set<nat>, k: Slot, f: FrameNo)
    requires CowInv(m, owned, reserved)
    requires f in reserved && k !in owned && ValidSlot(k) && UserPage(k.page)
    ensures CowInv(SetSsPag(m, k, f), owned + {k}, reserved - {f})
  {
    AssignMapped(m, owned, reserved, k, f);
    AssignSamePage(m, owned, reserved, k, f);
    AssignCount(m, owned, reserved, k, f);
    AssignAccounted(m, owned, reserved, k, f);
  }

  // ---- free_frame

  lemma FreeReservedKeeps(m: Mem, owned: set<Slot>, reserved: set<nat>, f: FrameNo)
    requires CowInv(m, owned, reserved) && f in reserved
    ensures CowInv(FreeFrame(m, f), owned, reserved - {f})
    ensures FreeFrame(m, f).used == m.used[f := false]
  {
    var m' := FreeFrame(m, f);
    assert m' == m.(used := m.used[f := false], cow := m.cow[f := 255]);
  }

  ghost predicate Released(m: Mem, m': Mem, k: Slot)
    requires Wf(m) && ValidSlot(k)
  {
    var f := m.pt[k].frame;
    && m.cow[f] <= NR_TASKS
    && m' == m.(cow := m.cow[f := if m.cow[f] == 0 then 255 else m.cow[f] - 1],
                used := if m.cow[f] <= 1 then m.used[f := false] else m.used)
  }

  lemma ReleaseOwners(m: Mem, owned: set<Slot>, k: Slot, g: nat)
    requires Wf(m) && owned <= m.pt.Keys && CountLaw(m, owned) && k in owned && ValidSlot(k)
    ensures g != m.pt[k].frame ==> Owners(m.pt, owned - {k}, g) == Owners(m.pt, owned, g)
    ensures g == m.pt[k].frame && m.cow[g] <= 1 ==> Owners(m.pt, owned - {k}, g) == {}
    ensures g == m.pt[k].frame && m.cow[g] >= 2 ==> |Owners(m.pt, owned - {k}, g)| == m.cow[g] - 1
    ensures g == m.pt[k].frame && m.cow[g] >= 2 ==> Owners(m.pt, owned - {k}, g) != {}
  {
    OwnersRemove(m.pt, m.pt, owned, k, g);
  }

  lemma ReleaseMapped(m: Mem, m': Mem, owned: set<Slot>, k: Slot)
    requires Wf(m) && owned <= m.pt.Keys && OwnedMapped(m, owned) && CountLaw(m, owned) && k in owned && ValidSlot(k)
    requires Released(m, m', k)
    ensures Wf(m') && OwnedMapped(m', owned - {k})
  {
    forall j | j in owned - {k}
      ensures m'.used[m.pt[j].frame]
    {
      ReleaseOwners(m, owned, k, m.pt[j].frame);
      assert j in Owners(m.pt, owned - {k}, m.pt[j].frame);
    }
  }

  lemma ReleaseReserved(m: Mem, m': Mem, owned: set<Slot>, reserved: set<nat>, k: Slot)
    requires Wf(m) && Wf(m') && owned <= m.pt.Keys && ReservedFree(m, owned, reserved) && k in owned && ValidSlot(k)
    requires Released(m, m', k)
    ensures ReservedFree(m', owned - {k}, reserved)
  {
  }

  lemma ReleaseCount(m: Mem, m': Mem, owned: set<Slot>, k: Slot)
    requires Wf(m) && Wf(m') && owned <= m.pt.Keys && CountLaw(m, owned) && k in owned && ValidSlot(k)
    requires Released(m, m', k)
    ensures CountLaw(m', owned - {k})
  {
    forall j | j in owned - {k}
      ensures var c := m'.cow[m'.pt[j].frame];
        && (m'.pt[j].rw <==> c == 0)
        && |Owners(m'.pt, owned - {k}, m'.pt[j].frame)| == if c == 0 then 1 else c
    {
      ReleaseOwners(m, owned, k, m.pt[j].frame);
      assert j in Owners(m.pt, owned - {k}, m.pt[j].frame);
    }
  }

  lemma ReleaseAccounted(m: Mem, m': Mem, owned: set<Slot>, reserved: set<nat>, k: Slot)
    requires Wf(m) && Wf(m') && owned <= m.pt.Keys && CountLaw(m, owned) && k in owned && ValidSlot(k)
    requires UserFrame(m.pt[k].frame) && m.pt[k].frame !in reserved
    requires Accounted(m, owned, reserved)
    requires Released(m, m', k)
    ensures Accounted(m', owned - {k}, reserved)
  {
    var f := m.pt[k].frame;
    assert k in Owners(m.pt, owned, f);
    forall g | 0 <= g < TOTAL_PAGES
      ensures m'.used[g] <==> (FixedFrame(g) || g in reserved || Owners(m'.pt, owned - {k}, g) != {})
    {
      ReleaseOwners(m, owned, k, g);
    }
  }

  lemma FreeOwnedKeeps(m: Mem, owned: set<Slot>, reserved: set<nat>, k: Slot)
    requires CowInv(m, owned, reserved) && k in owned
    ensures Released(m, FreeFrame(m, m.pt[k].frame), k)
    ensures CowInv(FreeFrame(m, m.pt[k].frame), owned - {k}, reserved)
  {
    CountBounded(m, owned, k);
    var m' := FreeFrame(m, m.pt[k].frame);
    ReleaseMapped(m, m', owned, k);
    ReleaseReserved(m, m', owned, reserved, k);
    ReleaseCount(m, m', owned, k);
    ReleaseAccounted(m, m', owned, reserved, k);
  }

  // ---- entries nobody owns, and changes the invariant does not see

  lemma OwnersFrame(pt: map<Slot, Pte>, pt': map<Slot, Pte>, owned: set<Slot>)
    requires owned <= pt.Keys && owned <= pt'.Keys
    requires forall j :: j in owned ==> pt'[j].frame == pt[j].frame
    ensures forall f: nat :: Owners(pt', owned, f) == Owners(pt, owned, f)
  {
  }

  /** The invariant looks at the page tables through the owned entries only. */
  lemma UnownedIrrelevant(m: Mem, m': Mem, owned: set<Slot>, reserved: set<nat>)
    requires CowInv(m, owned, reserved) && Wf(m')
    requires m'.used == m.used && m'.cow == m.cow
    requires forall k :: k in owned ==> m'.pt[k] == m.pt[k]
    ensures CowInv(m', owned, reserved)
  {
    OwnersFrame(m.pt, m'.pt, owned);
    assert SharedAtSamePage(m'.pt, owned);
  }

  lemma SpacesFrame(m: Mem, m': Mem, owned: set<Slot>)
    requires Wf(m) && Wf(m') && owned <= m.pt.Keys && m'.ram == m.ram
    requires forall k :: k in owned ==> m'.pt[k].frame == m.pt[k].frame
    ensures Spaces(m', owned) == Spaces(m, owned)
  {
  }
}
