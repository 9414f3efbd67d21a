/**
 The memory of the machine as mutable state: the arrays of mm.c, the frames and the MMU.
 Every method is proved to compute the corresponding function of module `Mm`.
 */
module Memory {
  import opened Basics
  import opened Mm
  import opened AddressSpace
  import Utils

  class Memory {
    const physMem: array<bool>
    const cowCount: array<Byte>
    const tables: array2<Pte>
    const ram: array<Byte>
    var cr3: nat
    var tlb: map<nat, Pte>

    ghost predicate Valid()
      reads this
    {
      && physMem.Length == cowCount.Length == TOTAL_PAGES
      && tables.Length0 == NR_TASKS && tables.Length1 == TOTAL_PAGES
      && ram.Length == TOTAL_PAGES * PAGE_SIZE
      && cowCount != ram
      && cr3 < NR_TASKS
    }

    ghost function Frame(f: nat): (p: Page)
      reads this, ram
      requires Valid() && f < TOTAL_PAGES
    {
      ram[f * PAGE_SIZE..f * PAGE_SIZE + PAGE_SIZE]
    }

    ghost function Tables(): (pt: map<Slot, Pte>)
      reads this, tables
      requires Valid()
      ensures pt.Keys == AllSlots()
    {
      map k | k in AllSlots() :: tables[k.dir, k.page]
    }

    ghost function Frames(): (r: seq<Page>)
      reads this, ram
      requires Valid()
      ensures |r| == TOTAL_PAGES && forall f :: 0 <= f < TOTAL_PAGES ==> r[f] == Frame(f)
    {
      seq(TOTAL_PAGES, f requires 0 <= f < TOTAL_PAGES && Valid() reads this, ram => Frame(f))
    }

    ghost function Value(): (m: Mem)
      reads this, physMem, cowCount, tables, ram
      requires Valid()
      ensures Wf(m)
    {
      Mem(physMem[..], cowCount[..], Tables(), Frames(), cr3, tlb)
    }

    /** The kernel's zero-initialised data; `contents` is whatever the frames hold. */
    constructor (contents: nat -> Byte)
      ensures Valid() && fresh(physMem) && fresh(cowCount) && fresh(tables) && fresh(ram)
      ensures forall f :: 0 <= f < TOTAL_PAGES ==> !physMem[f] && cowCount[f] == 0
    {
      physMem := new bool[TOTAL_PAGES](i => false);
      cowCount := new Byte[TOTAL_PAGES](i => 0);
      tables := new Pte[NR_TASKS, TOTAL_PAGES]((d, p) => NULL_PTE);
      ram := new Byte[TOTAL_PAGES * PAGE_SIZE](contents);
      cr3 := 0;
      tlb := map[];
    }

    // -------------------------------------------------------------- single cells

    method SetPte(d: nat, page: nat, e: Pte)
      requires Valid() && d < NR_TASKS && page < TOTAL_PAGES
      modifies tables
      ensures Value() == Mm.SetPte(old(Value()), Slot(d, page), e)
    {
      tables[d, page] := e;
      assert Tables() == old(Tables())[Slot(d, page) := e];
      assert Frames() == old(Frames());
    }

    method SetCow(f: nat, c: Byte)
      requires Valid() && f < TOTAL_PAGES
      modifies cowCount
      ensures Value() == old(Value()).(cow := old(Value()).cow[f := c])
    {
      cowCount[f] := c;
      assert Tables() == old(Tables());
      assert Frames() == old(Frames());
    }

    method SetUsed(f: nat, used: bool)
      requires Valid() && f < TOTAL_PAGES
      modifies physMem
      ensures Value() == old(Value()).(used := old(Value()).used[f := used])
    {
      physMem[f] := used;
      assert Tables() == old(Tables());
      assert Frames() == old(Frames());
    }

    method LoadCr3(d: nat)
      requires Valid() && d < NR_TASKS
      modifies this
      ensures Valid() && Value() == SetCr3(old(Value()), d)
    {
      cr3 := d;
      tlb := map[];
      assert Tables() == old(Tables());
      assert Frames() == old(Frames());
    }

    method GetPte(d: nat, page: nat) returns (e: Pte)
      requires Valid() && d < NR_TASKS && page < TOTAL_PAGES
      ensures e == Value().pt[Slot(d, page)]
    {
      e := tables[d, page];
    }

    method GetCow(f: FrameNo) returns (c: Byte)
      requires Valid()
      ensures c == Value().cow[f]
    {
      c := cowCount[f];
    }

    // -------------------------------------------------------------- frames

    method AllocFrame() returns (r: int)
      requires Valid()
      modifies physMem, cowCount
      ensures (Value(), r) == Mm.AllocFrame(old(Value()))
    {
      var i := NUM_PAG_KERNEL;
      while i < TOTAL_PAGES
        invariant NUM_PAG_KERNEL <= i
        invariant Value() == old(Value())
        invariant FirstFree(physMem[..], NUM_PAG_KERNEL) == FirstFree(physMem[..], i)
      {
        if !physMem[i] {
          SetUsed(i, true);
          SetCow(i, 0);
          return i;
        }
        i := i + 2;
      }
      return -1;
    }

    method FreeFrame(f: FrameNo)
      requires Valid()
      modifies physMem, cowCount
      ensures Value() == Mm.FreeFrame(old(Value()), f)
    {
      if f > NUM_PAG_KERNEL && f < TOTAL_PAGES {
        SetCow(f, Wrap8(cowCount[f] as int - 1));
      }
      if SignedChar(cowCount[f]) <= 0 {
        SetUsed(f, false);
      }
    }

    // -------------------------------------------------------------- page tables

    method SetSsPag(d: nat, page: nat, f: FrameNo)
      requires Valid() && d < NR_TASKS && page < TOTAL_PAGES
      modifies tables
      ensures Value() == Mm.SetSsPag(old(Value()), Slot(d, page), f)
    {
      SetPte(d, page, Pte(true, true, true, f));
    }

    method SetRoPage(d: nat, page: nat)
      requires Valid() && d < NR_TASKS && page < TOTAL_PAGES
      modifies tables
      ensures Value() == Mm.SetRoPage(old(Value()), Slot(d, page))
    {
      SetPte(d, page, tables[d, page].(rw := false));
    }

    method DelSsPag(d: nat, page: nat)
      requires Valid() && d < NR_TASKS && page < TOTAL_PAGES
      modifies tables
      ensures Value() == Mm.SetPte(old(Value()), Slot(d, page), NULL_PTE)
    {
      SetPte(d, page, NULL_PTE);
    }

    /** One more sharer: the count skips 1 on the way up. */
    method CountSharer(f: FrameNo)
      requires Valid()
      modifies cowCount
      ensures var c := Wrap8(old(Value()).cow[f] as int + 1);
        Value() == old(Value()).(cow := old(Value()).cow[f := if c == 1 then 2 else c])
    {
      SetCow(f, Wrap8(cowCount[f] as int + 1));
      if cowCount[f] == 1 {
        SetCow(f, Wrap8(cowCount[f] as int + 1));
      }
    }

    method ShareCowPage(src: nat, dst: nat, page: nat)
      requires Valid() && src < NR_TASKS && dst < NR_TASKS && page < TOTAL_PAGES
      modifies cowCount, tables
      ensures Value() == Mm.ShareCowPage(old(Value()), src, dst, page)
    {
      hide Value, Mm.SetPte, Mm.SetSsPag, Mm.SetRoPage;
      var e := GetPte(src, page);
      CountSharer(e.frame);
      SetSsPag(dst, page, e.frame);
      SetRoPage(src, page);
      SetRoPage(dst, page);
    }

    // -------------------------------------------------------------- copying a frame

    method TranslatePage(page: nat) returns (e: Pte)
      requires Valid() && page < TOTAL_PAGES
      ensures e == Translate(Value(), page)
    {
      if page in tlb {
        e := tlb[page];
      } else {
        e := tables[cr3, page];
      }
    }

    /** `copy_data` on whole frames. */
    method CopyRam(from: FrameNo, to: FrameNo)
      requires Valid()
      modifies ram
      ensures Value() == old(Value()).(ram := old(Value()).ram[to := old(Value()).ram[from]])
    {
      hide Utils.Copied;
      ghost var was := ram[..];
      Utils.CopyData(ram, from * PAGE_SIZE, to * PAGE_SIZE, PAGE_SIZE);
      Utils.CopiedExactly(was, ram[..], from * PAGE_SIZE, to * PAGE_SIZE, PAGE_SIZE);
      assert forall j :: 0 <= j < ram.Length ==> ram[..][j] == ram[j] && was[j] == old(ram[j]);
      assert Tables() == old(Tables());
      forall f: nat | f < TOTAL_PAGES
        ensures Frame(f) == if f == to then old(Frame(from)) else old(Frame(f))
      {
      }
      assert Frames() == old(Frames())[to := old(Frames())[from]];
    }

    method CopyFrame(d: nat, page: nat, f: FrameNo)
      requires Valid() && d < NR_TASKS && page < TOTAL_PAGES
      modifies this, tables, ram
      ensures Valid() && Value() == Mm.CopyFrame(old(Value()), d, page, f)
    {
      hide Value;
      SetSsPag(d, TEMP_PAGE, f);
      var from := TranslatePage(page);
      var to := TranslatePage(TEMP_PAGE);
      CopyRam(from.frame, to.frame);
      DelSsPag(d, TEMP_PAGE);
      LoadCr3(d);
    }

    // -------------------------------------------------------------- the loops of fork and exit

    method CopyCode(src: nat, dst: nat)
      requires Valid() && src < NR_TASKS && dst < NR_TASKS
      modifies tables
      ensures Value() == Mm.CopyCode(old(Value()), src, dst, NUM_PAG_CODE)
    {
      hide Value;
      ghost var m0 := Value();
      for i := 0 to NUM_PAG_CODE
        invariant Value() == Mm.CopyCode(m0, src, dst, i)
      {
        var e := GetPte(src, PAG_LOG_INIT_CODE + i);
        SetPte(dst, PAG_LOG_INIT_CODE + i, e);
      }
    }

    lemma ShareNext(m: Mem, src: nat, dst: nat, ps: seq<nat>, i: nat)
      requires Wf(m) && src < NR_TASKS && dst < NR_TASKS && InTable(ps) && i < |ps|
      ensures InTable(ps[..i]) && InTable(ps[..i + 1])
      ensures ShareAll(m, src, dst, ps[..i + 1]) == Mm.ShareCowPage(ShareAll(m, src, dst, ps[..i]), src, dst, ps[i])
    {
      assert ps[..i + 1][..i] == ps[..i];
    }

    method ShareDataPages(src: nat, dst: nat)
      requires Valid() && src < NR_TASKS && dst < NR_TASKS
      modifies cowCount, tables
      ensures Value() == ShareAll(old(Value()), src, dst, DataPages())
    {
      hide Value, Mm.ShareCowPage, ShareAll;
      ghost var m0, ps := Value(), DataPages();
      assert Value() == ShareAll(m0, src, dst, ps[..0]) by {
        NoneShared(m0, src, dst, ps);
      }
      for i := 0 to NUM_PAG_DATA
        invariant Value() == ShareAll(m0, src, dst, ps[..i])
      {
        ShareNext(m0, src, dst, ps, i);
        ShareCowPage(src, dst, PAG_LOG_INIT_DATA + i);
      }
      assert ps[..NUM_PAG_DATA] == ps;
    }

    lemma NoneShared(m: Mem, src: nat, dst: nat, ps: seq<nat>)
      requires Wf(m) && src < NR_TASKS && dst < NR_TASKS
      ensures ShareAll(m, src, dst, ps[..0]) == m
    {
    }

    method ShareHeapPages(src: nat, dst: nat, n: nat)
      requires Valid() && src < NR_TASKS && dst < NR_TASKS && n <= 512
      modifies cowCount, tables
      ensures Value() == ShareAll(old(Value()), src, dst, HeapPages(0, n))
    {
      hide Value, Mm.ShareCowPage, ShareAll;
      ghost var m0, ps := Value(), HeapPages(0, n);
      assert Value() == ShareAll(m0, src, dst, ps[..0]) by {
        NoneShared(m0, src, dst, ps);
      }
      for i := 0 to n
        invariant Value() == ShareAll(m0, src, dst, ps[..i])
      {
        ShareNext(m0, src, dst, ps, i);
        ShareCowPage(src, dst, PAG_LOG_INIT_HEAP - i);
      }
      assert ps[..n] == ps;
    }

    /** The memory side of `sys_fork`. */
    method ForkPages(src: nat, dst: nat, top: int)
      requires Valid() && src < NR_TASKS && dst < NR_TASKS && 0 <= top <= HEAP_START
      modifies this, cowCount, tables
      ensures Valid() && Value() == AddressSpace.ForkPages(old(Value()), src, dst, top)
    {
      hide Value, ShareAll, Mm.CopyCode;
      CopyCode(src, dst);
      ShareDataPages(src, dst);
      ShareHeapPages(src, dst, HeapPageSize(top));
      LoadCr3(src);
    }

    method FreePage(d: nat, page: nat)
      requires Valid() && d < NR_TASKS && page < TOTAL_PAGES
      modifies physMem, cowCount, tables
      ensures Value() == Mm.SetPte(Mm.FreeFrame(old(Value()), old(Value()).pt[Slot(d, page)].frame), Slot(d, page),
        NULL_PTE)
    {
      hide Value, Mm.FreeFrame, Mm.SetPte;
      var e := GetPte(d, page);
      FreeFrame(e.frame);
      DelSsPag(d, page);
    }

    lemma FreeNext(m: Mem, d: nat, ps: seq<nat>, i: nat)
      requires Wf(m) && d < NR_TASKS && InTable(ps) && i < |ps|
      ensures InTable(ps[..i]) && InTable(ps[..i + 1])
      ensures var m1 := FreeAll(m, d, ps[..i]);
        FreeAll(m, d, ps[..i + 1]) == Mm.SetPte(Mm.FreeFrame(m1, m1.pt[Slot(d, ps[i])].frame), Slot(d, ps[i]), NULL_PTE)
    {
      assert ps[..i + 1][..i] == ps[..i];
    }

    lemma NoneFreed(m: Mem, d: nat, ps: seq<nat>)
      requires Wf(m) && d < NR_TASKS
      ensures FreeAll(m, d, ps[..0]) == m
    {
    }

    method FreeDataPages(d: nat)
      requires Valid() && d < NR_TASKS
      modifies physMem, cowCount, tables
      ensures Value() == FreeAll(old(Value()), d, DataPages())
    {
      hide Value, Mm.FreeFrame, Mm.SetPte, FreeAll;
      ghost var m0, ps := Value(), DataPages();
      NoneFreed(m0, d, ps);
      for i := 0 to NUM_PAG_DATA
        invariant Value() == FreeAll(m0, d, ps[..i])
      {
        FreeNext(m0, d, ps, i);
        FreePage(d, PAG_LOG_INIT_DATA + i);
      }
      assert ps[..NUM_PAG_DATA] == ps;
    }

    method FreeHeapPage(d: nat, i: nat)
      requires Valid() && d < NR_TASKS && i < 512
      modifies physMem, cowCount, tables
      ensures Value() == Mm.FreeHeapPage(old(Value()), d, i)
    {
      hide Value, Mm.FreeFrame, Mm.SetPte;
      var e := GetPte(d, PAG_LOG_INIT_HEAP - i);
      FreeFrame(e.frame);
      DelSsPag(d, PAG_LOG_INIT_HEAP + i);
    }

    method FreeUserPages(d: nat, top: int)
      requires Valid() && d < NR_TASKS && 0 <= top <= HEAP_START
      modifies physMem, cowCount, tables
      ensures Value() == AddressSpace.FreeUserPages(old(Value()), d, top)
    {
      hide Value, Mm.FreeHeapPage, FreeAll;
      FreeDataPages(d);
      ghost var m1 := Value();
      var n := HeapPageSize(top);
      for i := 0 to n
        invariant Value() == FreeHeap(m1, d, i)
      {
        FreeHeapPage(d, i);
      }
    }

    // -------------------------------------------------------------- the loops of sbrk

    method PagesAreFree(d: nat, act: nat, new_: nat) returns (free: bool)
      requires Valid() && d < NR_TASKS && act <= new_ <= 512
      ensures free == PagesFree(Value(), d, HeapPages(act, new_ - act))
    {
      ghost var ps := HeapPages(act, new_ - act);
      for i := 0 to new_ - act
        invariant forall j :: 0 <= j < i ==> !Value().pt[Slot(d, ps[j])].present
      {
        if tables[d, PAG_LOG_INIT_HEAP - act - i].present {
          assert Value().pt[Slot(d, ps[i])].present;
          return false;
        }
        assert !Value().pt[Slot(d, ps[i])].present;
      }
      return true;
    }

    lemma {:induction false} ReserveStops(m: Mem, i: nat, n: nat)
      requires Wf(m) && i <= n && |Reserve(m, i).1| < i
      ensures Reserve(m, n) == Reserve(m, i)
    {
      if i < n {
        ReserveStops(m, i, n - 1);
      }
    }

    lemma ReserveNext(m: Mem, i: nat)
      requires Wf(m) && |Reserve(m, i).1| == i
      ensures var (m1, fs) := Reserve(m, i);
        var (m2, f) := Mm.AllocFrame(m1);
        Reserve(m, i + 1) == if f == -1 then (m2, fs) else (m2, fs + [f])
    {
    }

    /** The reservation loop of `sys_sbrk`, which gives everything back when it fails. */
    method ReserveFrames(n: nat) returns (ok: bool, frames: seq<FrameNo>)
      requires Valid()
      modifies physMem, cowCount
      ensures ok == (|Reserve(old(Value()), n).1| == n)
      ensures ok ==> (Value(), frames) == Reserve(old(Value()), n)
      ensures !ok ==> Value() == FreeFrames(Reserve(old(Value()), n).0, Reserve(old(Value()), n).1)
    {
      hide Value, Mm.AllocFrame, Reserve;
      ghost var m0 := Value();
      frames := [];
      assert Reserve(m0, 0) == (m0, []) by {
        ReserveZero(m0);
      }
      for i := 0 to n
        invariant (Value(), frames) == Reserve(m0, i) && |frames| == i
      {
        ReserveNext(m0, i);
        ghost var m1 := Value();
        var f := AllocFrame();
        if f == -1 {
          assert Value() == m1;
          ReserveStops(m0, i + 1, n);
          GiveBack(frames);
          return false, frames;
        }
        frames := frames + [f];
      }
      return true, frames;
    }

    lemma ReserveZero(m: Mem)
      requires Wf(m)
      ensures Reserve(m, 0) == (m, [])
    {
    }

    method GiveBack(frames: seq<FrameNo>)
      requires Valid()
      modifies physMem, cowCount
      ensures Value() == FreeFrames(old(Value()), frames)
    {
      hide Value, Mm.FreeFrame;
      ghost var m0 := Value();
      for j := 0 to |frames|
        invariant Value() == FreeFrames(m0, frames[..j])
      {
        FreeFrame(frames[j]);
        assert frames[..j + 1][..j] == frames[..j];
      }
      assert frames[..|frames|] == frames;
    }

    method AssignFrames(d: nat, act: nat, frames: seq<FrameNo>)
      requires Valid() && d < NR_TASKS && act + |frames| <= 512
      modifies tables
      ensures Value() == AssignAll(old(Value()), d, HeapPages(act, |frames|), frames)
    {
      hide Value, Mm.SetSsPag;
      ghost var m0, ps := Value(), HeapPages(act, |frames|);
      for i := 0 to |frames|
        invariant Value() == AssignAll(m0, d, ps[..i], frames[..i])
      {
        SetSsPag(d, PAG_LOG_INIT_HEAP - act - i, frames[i]);
        assert frames[..i + 1][..i] == frames[..i] && ps[..i + 1][..i] == ps[..i];
      }
      assert frames[..|frames|] == frames && ps[..|frames|] == ps;
    }

    method Grow(d: nat, act: nat, new_: nat) returns (ok: bool)
      requires Valid() && d < NR_TASKS && act <= new_ <= 512
      modifies physMem, cowCount, tables
      ensures ok == AddressSpace.Grow(old(Value()), d, act, new_).Some?
      ensures ok ==> Value() == AddressSpace.Grow(old(Value()), d, act, new_).value
      ensures !ok ==> Value() == GrowFailed(old(Value()), d, act, new_)
    {
      hide Value, AssignAll, Reserve, FreeFrames, PagesFree;
      ok := PagesAreFree(d, act, new_);
      if !ok {
        return;
      }
      var frames;
      ok, frames := ReserveFrames(new_ - act);
      if ok {
        AssignFrames(d, act, frames);
      }
    }

    method Shrink(d: nat, act: nat, new_: nat)
      requires Valid() && d < NR_TASKS && new_ <= act <= 512
      modifies this, physMem, cowCount, tables
      ensures Valid() && Value() == AddressSpace.Shrink(old(Value()), d, act, new_)
    {
      hide Value, Mm.FreeFrame, Mm.SetPte, FreeAll;
      ghost var m0, ps := Value(), HeapPages(new_, act - new_);
      NoneFreed(m0, d, ps);
      for i := 0 to act - new_
        invariant Valid() && Value() == FreeAll(m0, d, ps[..i])
      {
        FreeNext(m0, d, ps, i);
        FreePage(d, PAG_LOG_INIT_HEAP - new_ - i);
      }
      assert ps[..act - new_] == ps;
      LoadCr3(d);
    }

    // -------------------------------------------------------------- page faults

    method FaultFix(d: nat, page: nat) returns (ok: bool)
      requires Valid() && d < NR_TASKS && page < TOTAL_PAGES
      modifies this, physMem, cowCount, tables, ram
      ensures Valid() && ok == AddressSpace.FaultFix(old(Value()), d, page).Some?
      ensures ok ==> Value() == AddressSpace.FaultFix(old(Value()), d, page).value
    {
      hide Value, Mm.AllocFrame, Mm.CopyFrame, Mm.SetSsPag;
      var e := GetPte(d, page);
      var c := GetCow(e.frame);
      if c == 1 {
        SetCow(e.frame, 0);
        SetSsPag(d, page, e.frame);
        return true;
      } else if c >= 2 {
        SetCow(e.frame, Wrap8(c as int - 1));
        var g := AllocFrame();
        if g == -1 {
          return false;
        }
        CopyFrame(d, page, g);
        SetSsPag(d, page, g);
        return true;
      } else {
        return false;
      }
    }
  }
}
