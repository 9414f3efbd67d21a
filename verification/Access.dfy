/**
 User-mode loads and stores through the TLB, with the copy-on-write page fault:
 an access to an owned page behaves as if every address space had its own copy.
 */
module Access {
  import opened Basics
  import opened Mm
  import opened Cow
  import opened CowLoops
  import opened AddressSpace
  import opened VmInvariant

  // ---------------------------------------------------------------- count 1: the last sharer

  lemma UpgradeCount(m: Mem, owned: set<Slot>, k: Slot)
    requires Wf(m) && owned <= m.pt.Keys && CountLaw(m, owned)
    requires k in owned && m.cow[m.pt[k].frame] == 1
    ensures var m' := SetSsPag(m.(cow := m.cow[m.pt[k].frame := 0]), k, m.pt[k].frame);
      owned <= m'.pt.Keys && CountLaw(m', owned)
  {
    var f := m.pt[k].frame;
    var m' := SetSsPag(m.(cow := m.cow[f := 0]), k, f);
    OwnersFrame(m.pt, m'.pt, owned);
    forall j | j in owned && j != k
      ensures m.pt[j].frame != f
    {
      if m.pt[j].frame == f {
        SubsetSize({j, k}, Owners(m.pt, owned, f));
      }
    }
  }

  lemma UpgradeKeeps(m: Mem, owned: set<Slot>, k: Slot)
    requires CowInv(m, owned, {}) && k in owned && m.cow[m.pt[k].frame] == 1
    ensures CowInv(SetSsPag(m.(cow := m.cow[m.pt[k].frame := 0]), k, m.pt[k].frame), owned, {})
  {
    UpgradeCount(m, owned, k);
    var m' := SetSsPag(m.(cow := m.cow[m.pt[k].frame := 0]), k, m.pt[k].frame);
    OwnersFrame(m.pt, m'.pt, owned);
    hide CountLaw, Owners;
  }

  // ---------------------------------------------------------------- count >= 2: a private copy

  lemma CopyFrameEffect(m: Mem, d: nat, page: nat, g: FrameNo)
    requires Wf(m) && d < NR_TASKS && page < TEMP_PAGE
    requires m.cr3 == d && page !in m.tlb && TEMP_PAGE !in m.tlb
    requires m.pt[Slot(d, TEMP_PAGE)] == NULL_PTE
    ensures CopyFrame(m, d, page, g)
         == m.(ram := m.ram[g := m.ram[m.pt[Slot(d, page)].frame]], tlb := map[])
  {
    assert CopyFrame(m, d, page, g).pt == m.pt;
  }

  /** Giving up one share without releasing the frame. */
  lemma DropShareKeeps(m: Mem, owned: set<Slot>, k: Slot)
    requires CowInv(m, owned, {}) && k in owned && m.cow[m.pt[k].frame] >= 2
    ensures CowInv(m.(cow := m.cow[m.pt[k].frame := Wrap8(m.cow[m.pt[k].frame] as int - 1)]), owned - {k}, {})
  {
    FreeOwnedKeeps(m, owned, {}, k);
    hide CowInv;
    assert FreeFrame(m, m.pt[k].frame) == m.(cow := m.cow[m.pt[k].frame := Wrap8(m.cow[m.pt[k].frame] as int - 1)]);
  }

  lemma PrivateCopyKeeps(m: Mem, owned: set<Slot>, k: Slot, m1: Mem, g: int)
    requires CowInv(m, owned, {}) && k in owned && m.cow[m.pt[k].frame] >= 2
    requires ValidSlot(k) && UserPage(k.page)
    requires m.cr3 == k.dir && k.page !in m.tlb && TEMP_PAGE !in m.tlb && m.pt[Slot(k.dir, TEMP_PAGE)] == NULL_PTE
    requires (m1, g) == AllocFrame(m.(cow := m.cow[m.pt[k].frame := Wrap8(m.cow[m.pt[k].frame] as int - 1)])) && g != -1
    ensures CowInv(SetSsPag(CopyFrame(m1, k.dir, k.page, g), k, g), owned, {})
  {
    hide CowInv, CopyFrame, SetSsPag;
    var f := m.pt[k].frame;
    DropShareKeeps(m, owned, k);
    var m0 := m.(cow := m.cow[f := Wrap8(m.cow[f] as int - 1)]);
    AllocKeeps(m0, owned - {k}, {});
    CopyFrameEffect(m1, k.dir, k.page, g);
    UnownedIrrelevant(m1, CopyFrame(m1, k.dir, k.page, g), owned - {k}, {} + {g});
    AssignKeeps(CopyFrame(m1, k.dir, k.page, g), owned - {k}, {} + {g}, k, g);
    assert owned - {k} + {k} == owned;
    assert {} + {g} - {g} == {};
  }

  // ---------------------------------------------------------------- the handler

  /** A write fault on an owned page, as `pf_rsi` meets it. */
  ghost predicate WriteFault(m: Mem, owned: set<Slot>, dirs: set<nat>, page: nat) {
    && MemInv(m, owned, dirs)
    && Slot(m.cr3, page) in owned && !m.pt[Slot(m.cr3, page)].rw
    && page !in m.tlb
  }

  ghost predicate OutOfFrames(m: Mem) {
    |m.used| == TOTAL_PAGES && forall f: nat :: UserFrame(f) ==> m.used[f]
  }

  lemma WriteFaultFacts(m: Mem, owned: set<Slot>, dirs: set<nat>, page: nat)
    requires WriteFault(m, owned, dirs, page)
    ensures m.cr3 < NR_TASKS && UserPage(page)
    ensures TEMP_PAGE !in m.tlb && m.pt[Slot(m.cr3, TEMP_PAGE)] == NULL_PTE
    ensures m.cow[m.pt[Slot(m.cr3, page)].frame] >= 1
  {
    assert ValidSlot(Slot(m.cr3, TEMP_PAGE));
    hide Owners, Accounted, SharedAtSamePage, AllSlots;
  }

  lemma CodeFramesUsed(m: Mem, owned: set<Slot>, reserved: set<nat>)
    requires CowInv(m, owned, reserved)
    ensures forall g :: NUM_PAG_KERNEL <= g < 272 && g % 2 == 0 ==> m.used[g]
  {
    assert Accounted(m, owned, reserved);
    hide Owners, CountLaw, OwnedMapped;
  }

  /** The only way out of memory: the frame is shared and every frame is taken. */
  lemma FaultHaltsOnlyWhenFull(m: Mem, owned: set<Slot>, dirs: set<nat>, page: nat)
    requires WriteFault(m, owned, dirs, page)
    ensures UserPage(page) && m.cr3 < NR_TASKS
    ensures FaultFix(m, m.cr3, page).None? <==> m.cow[m.pt[Slot(m.cr3, page)].frame] >= 2 && OutOfFrames(m)
  {
    hide CowInv, CodeInv, TablesOk, TlbInv, CopyFrame, SetSsPag;
    WriteFaultFacts(m, owned, dirs, page);
    CodeFramesUsed(m, owned, {});
  }

  /** The handler changes one table entry, and contents only in a frame that was free. */
  lemma FaultEffect(m: Mem, owned: set<Slot>, dirs: set<nat>, page: nat)
    requires WriteFault(m, owned, dirs, page)
    ensures UserPage(page) && m.cr3 < NR_TASKS
    ensures var r := FaultFix(m, m.cr3, page);
      r.Some? ==>
        var m' := r.value;
        var f, g := m.pt[Slot(m.cr3, page)].frame, m'.pt[Slot(m.cr3, page)].frame;
        && m'.cr3 == m.cr3
        && m'.pt == m.pt[Slot(m.cr3, page) := Pte(true, true, true, g)]
        && m'.ram == m.ram[g := m.ram[f]]
        && (m'.tlb == map[] || m'.tlb == m.tlb)
        && (g == f || (!m.used[g] && UserFrame(g)))
  {
    hide CowInv, CodeInv, TablesOk, TlbInv, CopyFrame, FirstFree;
    WriteFaultFacts(m, owned, dirs, page);
    var k := Slot(m.cr3, page);
    var f := m.pt[k].frame;
    CodeFramesUsed(m, owned, {});
    if m.cow[f] >= 2 {
      var (m1, g) := AllocFrame(m.(cow := m.cow[f := Wrap8(m.cow[f] as int - 1)]));
      if g != -1 {
        CopyFrameEffect(m1, m.cr3, page, g);
      }
    }
  }

  lemma FaultCow(m: Mem, owned: set<Slot>, dirs: set<nat>, page: nat)
    requires WriteFault(m, owned, dirs, page)
    ensures UserPage(page) && m.cr3 < NR_TASKS
    ensures FaultFix(m, m.cr3, page).Some? ==> CowInv(FaultFix(m, m.cr3, page).value, owned, {})
  {
    WriteFaultFacts(m, owned, dirs, page);
    var k := Slot(m.cr3, page);
    hide CowInv, CopyFrame, SetSsPag, AllocFrame, CodeInv, TablesOk, TlbInv;
    if m.cow[m.pt[k].frame] == 1 {
      UpgradeKeeps(m, owned, k);
    } else {
      var (m1, g) := AllocFrame(m.(cow := m.cow[m.pt[k].frame := Wrap8(m.cow[m.pt[k].frame] as int - 1)]));
      if g != -1 {
        PrivateCopyKeeps(m, owned, k, m1, g);
      }
    }
  }

  lemma EntryChange(m: Mem, m': Mem, dirs: set<nat>, k: Slot, e: Pte)
    requires Wf(m) && Wf(m') && TablesOk(m) && CodeInv(m, dirs)
    requires ValidSlot(k) && UserPage(k.page) && e.present && e.user && UserFrame(e.frame) && m'.pt == m.pt[k := e]
    ensures TablesOk(m') && CodeInv(m', dirs)
  {
  }

  lemma FaultTlb(m: Mem, m': Mem, page: nat, e: Pte)
    requires Wf(m) && Wf(m') && TlbInv(m) && page !in m.tlb && page < TOTAL_PAGES
    requires m'.cr3 == m.cr3 && m'.pt == m.pt[Slot(m.cr3, page) := e]
    requires m'.tlb == map[] || m'.tlb == m.tlb
    ensures TlbInv(m')
  {
  }

  lemma FaultSpaces(m: Mem, m': Mem, owned: set<Slot>, k: Slot, g: FrameNo)
    requires CowInv(m, owned, {}) && Wf(m') && k in owned
    requires m'.pt == m.pt[k := Pte(true, true, true, g)] && m'.ram == m.ram[g := m.ram[m.pt[k].frame]]
    requires g == m.pt[k].frame || !m.used[g]
    ensures owned <= m'.pt.Keys
    ensures Spaces(m', owned) == Spaces(m, owned)
  {
    UsedOwned(m, owned);
    hide CowInv;
  }

  /** The handler keeps the invariant and nobody sees any contents change. */
  lemma FaultKeeps(m: Mem, owned: set<Slot>, dirs: set<nat>, page: nat)
    requires WriteFault(m, owned, dirs, page)
    ensures UserPage(page) && m.cr3 < NR_TASKS
    ensures FaultFix(m, m.cr3, page).Some? ==>
      && MemInv(FaultFix(m, m.cr3, page).value, owned, dirs)
      && Spaces(FaultFix(m, m.cr3, page).value, owned) == Spaces(m, owned)
  {
    FaultCow(m, owned, dirs, page);
    FaultEffect(m, owned, dirs, page);
    UsedOwned(m, owned);
    hide FaultFix, CowInv, TablesOk, CodeInv, TlbInv, Spaces;
    if FaultFix(m, m.cr3, page).Some? {
      var m' := FaultFix(m, m.cr3, page).value;
      var k := Slot(m.cr3, page);
      EntryChange(m, m', dirs, k, m'.pt[k]);
      FaultTlb(m, m', page, m'.pt[k]);
      FaultSpaces(m, m', owned, k, m'.pt[k].frame);
    }
  }

  lemma UsedOwned(m: Mem, owned: set<Slot>)
    requires CowInv(m, owned, {})
    ensures forall j :: j in owned ==>
      m.used[m.pt[j].frame] && m.pt[j].present && m.pt[j].user && UserFrame(m.pt[j].frame)
  {
    hide CountLaw, Accounted, SharedAtSamePage, ReservedFree;
  }

  // ---------------------------------------------------------------- loads and stores

  lemma CacheKeeps(m: Mem, owned: set<Slot>, dirs: set<nat>, page: nat)
    requires MemInv(m, owned, dirs) && page < TOTAL_PAGES && Translate(m, page).present
    ensures MemInv(Cache(m, page), owned, dirs)
    ensures Spaces(Cache(m, page), owned) == Spaces(m, owned)
    ensures Translate(Cache(m, page), page) == m.pt[Slot(m.cr3, page)]
  {
    UnownedIrrelevant(m, Cache(m, page), owned, {});
    hide CowInv;
  }

  lemma EvictKeeps(m: Mem, owned: set<Slot>, dirs: set<nat>, page: nat)
    requires MemInv(m, owned, dirs)
    ensures MemInv(m.(tlb := m.tlb - {page}), owned, dirs)
  {
    UnownedIrrelevant(m, m.(tlb := m.tlb - {page}), owned, {});
    hide CowInv;
  }

  /** The translation used for an owned page is the table's entry. */
  lemma FixedCountsHold(m: Mem, owned: set<Slot>, dirs: set<nat>)
    requires MemInv(m, owned, dirs)
    ensures FixedCounts(m) && TablesOk(m) && TlbInv(m)
  {
  }

  lemma TranslateAny(m: Mem, owned: set<Slot>, dirs: set<nat>, page: nat)
    requires MemInv(m, owned, dirs) && page < TOTAL_PAGES
    ensures Translate(m, page) == m.pt[Slot(m.cr3, page)]
  {
    FixedCountsHold(m, owned, dirs);
    hide MemInv;
  }

  lemma TranslateOwned(m: Mem, owned: set<Slot>, dirs: set<nat>, page: nat)
    requires MemInv(m, owned, dirs) && Slot(m.cr3, page) in owned
    ensures UserPage(page) && Translate(m, page) == m.pt[Slot(m.cr3, page)]
    ensures Translate(m, page).present && Translate(m, page).user
  {
    UsedOwned(m, owned);
    UserPagesOnly(m, owned, {});
    hide CowInv;
  }

  ghost function WriteByte(e: map<Slot, Page>, k: Slot, off: nat, v: Byte): map<Slot, Page>
    requires k in e && off < PAGE_SIZE
  {
    e[k := e[k][off := v]]
  }

  /** A store through a writable entry changes that page of that address space and no other. */
  lemma PokeKeeps(m: Mem, owned: set<Slot>, dirs: set<nat>, k: Slot, off: nat, v: Byte)
    requires MemInv(m, owned, dirs) && k in owned && m.pt[k].rw && off < PAGE_SIZE
    ensures var f := m.pt[k].frame;
      var m' := m.(ram := m.ram[f := m.ram[f][off := v]]);
      && MemInv(m', owned, dirs)
      && Spaces(m', owned) == WriteByte(Spaces(m, owned), k, off, v)
  {
    var f := m.pt[k].frame;
    var m' := m.(ram := m.ram[f := m.ram[f][off := v]]);
    UnownedIrrelevant(m, m', owned, {});
    forall j | j in owned && j != k
      ensures m.pt[j].frame != f
    {
      SoleOwner(m, owned, k, j);
    }
    hide CowInv;
  }
}
