/**
 Frames, page-table entries and the primitives of mm.c that change them.
 A value of type `Mem` is everything those primitives touch: the two byte maps,
 all page tables, the contents of the frames, the CR3 register and the TLB.
 */
module Mm {
  import opened Basics

  const TOTAL_PAGES := 1024
  const NUM_PAG_KERNEL := 256
  const PAG_LOG_INIT_CODE := 256
  const NUM_PAG_CODE := 8
  const PAG_LOG_INIT_DATA := 264
  const NUM_PAG_DATA := 20
  const PAGE_SIZE := 4096
  const HEAP_START := 0x1F_FFFF
  const PAG_LOG_INIT_HEAP := 511
  /** The window used by `copy_frame`, one page above the heap. */
  const TEMP_PAGE := 512

  type Byte = x: int | 0 <= x < 256
  type FrameNo = f: nat | f < TOTAL_PAGES
  type Page = s: seq<Byte> | |s| == PAGE_SIZE witness seq(PAGE_SIZE, _ => 0)

  datatype Pte = Pte(present: bool, rw: bool, user: bool, frame: FrameNo)

  const NULL_PTE := Pte(false, false, false, 0)

  /** One entry of one page table: `pagusr_table[dir][page]`. */
  datatype Slot = Slot(dir: nat, page: nat)

  predicate ValidSlot(k: Slot) {
    k.dir < NR_TASKS && k.page < TOTAL_PAGES
  }

  ghost function AllSlots(): (r: set<Slot>)
    ensures forall k :: k in r <==> ValidSlot(k)
  {
    var r := set d: nat, p: nat | d < NR_TASKS && p < TOTAL_PAGES :: Slot(d, p);
    assert forall k: Slot :: k == Slot(k.dir, k.page);
    r
  }

  datatype Mem = Mem(
    used: seq<bool>,
    cow: seq<Byte>,
    pt: map<Slot, Pte>,
    ram: seq<Page>,
    cr3: nat,
    tlb: map<nat, Pte>)

  ghost predicate Wf(m: Mem) {
    && |m.used| == |m.cow| == |m.ram| == TOTAL_PAGES
    && m.pt.Keys == AllSlots()
    && m.cr3 < NR_TASKS
  }

  // ---------------------------------------------------------------- frames

  /** The search of `alloc_frame`: every other frame from `i` upwards, -1 if all are taken. */
  function FirstFree(used: seq<bool>, i: nat): (r: int)
    requires |used| == TOTAL_PAGES
    ensures r == -1 || (i <= r < TOTAL_PAGES && !used[r] && (r - i) % 2 == 0)
    ensures forall j :: i <= j < TOTAL_PAGES && (j - i) % 2 == 0 && (r == -1 || j < r) ==> used[j]
    decreases TOTAL_PAGES - i
  {
    if i >= TOTAL_PAGES then -1
    else if !used[i] then i
    else FirstFree(used, i + 2)
  }

  function AllocFrame(m: Mem): (r: (Mem, int))
    requires Wf(m)
    ensures Wf(r.0)
    ensures r.1 == -1 ==> r.0 == m
    ensures r.1 != -1 ==> NUM_PAG_KERNEL <= r.1 < TOTAL_PAGES && r.1 % 2 == 0 && !m.used[r.1]
  {
    var i := FirstFree(m.used, NUM_PAG_KERNEL);
    if i == -1 then (m, -1)
    else (m.(used := m.used[i := true], cow := m.cow[i := 0]), i)
  }

  /** Arithmetic on an `unsigned char`. */
  function Wrap8(x: int): Byte {
    x % 256
  }

  function SignedChar(b: Byte): int {
    if b < 128 then b else b - 256
  }

  /** `free_frame`: the decrement is guarded by a strict bound, the release is not. */
  function FreeFrame(m: Mem, f: FrameNo): (r: Mem)
    requires Wf(m)
    ensures Wf(r)
  {
    var cow := if NUM_PAG_KERNEL < f < TOTAL_PAGES then m.cow[f := Wrap8(m.cow[f] as int - 1)] else m.cow;
    var used := if SignedChar(cow[f]) <= 0 then m.used[f := false] else m.used;
    m.(cow := cow, used := used)
  }

  // ---------------------------------------------------------------- page tables

  function SetPte(m: Mem, k: Slot, e: Pte): (r: Mem)
    requires Wf(m) && ValidSlot(k)
    ensures Wf(r)
  {
    m.(pt := m.pt[k := e])
  }

  function SetSsPag(m: Mem, k: Slot, f: FrameNo): (r: Mem)
    requires Wf(m) && ValidSlot(k)
    ensures Wf(r)
  {
    SetPte(m, k, Pte(true, true, true, f))
  }

  function SetRoPage(m: Mem, k: Slot): (r: Mem)
    requires Wf(m) && ValidSlot(k)
    ensures Wf(r)
  {
    SetPte(m, k, m.pt[k].(rw := false))
  }

  /** `share_cow_page`: the first share takes the count from 0 straight to 2. */
  function ShareCowPage(m: Mem, src: nat, dst: nat, page: nat): (r: Mem)
    requires Wf(m) && ValidSlot(Slot(src, page)) && ValidSlot(Slot(dst, page))
    ensures Wf(r)
  {
    var f := m.pt[Slot(src, page)].frame;
    var c := Wrap8(m.cow[f] as int + 1);
    var m1 := m.(cow := m.cow[f := if c == 1 then 2 else c]);
    SetRoPage(SetRoPage(SetSsPag(m1, Slot(dst, page), f), Slot(src, page)), Slot(dst, page))
  }

  // ---------------------------------------------------------------- translation

  function SetCr3(m: Mem, dir: nat): (r: Mem)
    requires Wf(m) && dir < NR_TASKS
    ensures Wf(r)
  {
    m.(cr3 := dir, tlb := map[])
  }

  /** The translation the processor uses: the cached one if there is one, else the table's. */
  function Translate(m: Mem, page: nat): (e: Pte)
    requires Wf(m) && page < TOTAL_PAGES
  {
    if page in m.tlb then m.tlb[page] else m.pt[Slot(m.cr3, page)]
  }

  function Cache(m: Mem, page: nat): (r: Mem)
    requires Wf(m) && page < TOTAL_PAGES
    ensures Wf(r)
  {
    m.(tlb := m.tlb[page := Translate(m, page)])
  }

  /**
   `copy_frame`: kernel-mode copy of `page` into `f` through the temporary window.
   The copy runs on logical addresses, so it goes through the TLB like any access.
   */
  function CopyFrame(m: Mem, dir: nat, page: nat, f: FrameNo): (r: Mem)
    requires Wf(m) && dir < NR_TASKS && page < TOTAL_PAGES
    ensures Wf(r)
  {
    var m1 := SetSsPag(m, Slot(dir, TEMP_PAGE), f);
    var from := Translate(m1, page).frame;
    var to := Translate(m1, TEMP_PAGE).frame;
    var m2 := m1.(ram := m1.ram[to := m1.ram[from]]);
    SetCr3(SetPte(m2, Slot(dir, TEMP_PAGE), NULL_PTE), dir)
  }

  // ---------------------------------------------------------------- loops over pages

  function DataPages(): (ps: seq<nat>)
    ensures |ps| == NUM_PAG_DATA && forall i :: 0 <= i < |ps| ==> ps[i] == PAG_LOG_INIT_DATA + i
    ensures forall p :: p in ps <==> PAG_LOG_INIT_DATA <= p < PAG_LOG_INIT_DATA + NUM_PAG_DATA
  {
    var ps := seq(NUM_PAG_DATA, i requires 0 <= i => PAG_LOG_INIT_DATA + i);
    assert forall p {:trigger p in ps} :: PAG_LOG_INIT_DATA <= p < PAG_LOG_INIT_DATA + NUM_PAG_DATA ==>
      ps[p - PAG_LOG_INIT_DATA] == p;
    ps
  }

  /** The `n` heap pages below the first `skip` ones, from high to low. */
  function HeapPages(skip: nat, n: nat): (ps: seq<nat>)
    requires skip + n <= 512
    ensures |ps| == n && forall i :: 0 <= i < n ==> ps[i] == PAG_LOG_INIT_HEAP - skip - i
    ensures forall p :: p in ps <==> PAG_LOG_INIT_HEAP - skip - n < p <= PAG_LOG_INIT_HEAP - skip
  {
    var ps := seq(n, i requires 0 <= i < n => PAG_LOG_INIT_HEAP - skip - i);
    assert forall p {:trigger p in ps} :: PAG_LOG_INIT_HEAP - skip - n < p <= PAG_LOG_INIT_HEAP - skip ==>
      ps[PAG_LOG_INIT_HEAP - skip - p] == p;
    ps
  }

  predicate InTable(ps: seq<nat>) {
    forall i :: 0 <= i < |ps| ==> ps[i] < TOTAL_PAGES
  }

  function ShareAll(m: Mem, src: nat, dst: nat, ps: seq<nat>): (r: Mem)
    requires Wf(m) && src < NR_TASKS && dst < NR_TASKS && InTable(ps)
    ensures Wf(r)
  {
    if ps == [] then m
    else
      var n := |ps| - 1;
      ShareCowPage(ShareAll(m, src, dst, ps[..n]), src, dst, ps[n])
  }

  /** The frames of `ps` are released and the entries deleted (`sys_sbrk` shrinking, data pages at exit). */
  function FreeAll(m: Mem, dir: nat, ps: seq<nat>): (r: Mem)
    requires Wf(m) && dir < NR_TASKS && InTable(ps)
    ensures Wf(r)
  {
    if ps == [] then m
    else
      var n := |ps| - 1;
      var m1 := FreeAll(m, dir, ps[..n]);
      var k := Slot(dir, ps[n]);
      SetPte(FreeFrame(m1, m1.pt[k].frame), k, NULL_PTE)
  }

  /** One round of the heap loop of `free_user_pages`: frees entry 511-i but clears entry 511+i. */
  function FreeHeapPage(m: Mem, dir: nat, i: nat): (r: Mem)
    requires Wf(m) && dir < NR_TASKS && i < 512
    ensures Wf(r)
  {
    SetPte(FreeFrame(m, m.pt[Slot(dir, PAG_LOG_INIT_HEAP - i)].frame), Slot(dir, PAG_LOG_INIT_HEAP + i), NULL_PTE)
  }

  function FreeHeap(m: Mem, dir: nat, n: nat): (r: Mem)
    requires Wf(m) && dir < NR_TASKS && n <= 512
    ensures Wf(r)
  {
    if n == 0 then m else FreeHeapPage(FreeHeap(m, dir, n - 1), dir, n - 1)
  }

  /** Up to `n` frames taken one by one, stopping at the first failure. */
  function Reserve(m: Mem, n: nat): (r: (Mem, seq<FrameNo>))
    requires Wf(m)
    ensures Wf(r.0) && |r.1| <= n
  {
    if n == 0 then (m, [])
    else
      var (m1, fs) := Reserve(m, n - 1);
      if |fs| < n - 1 then (m1, fs)
      else
        var (m2, f) := AllocFrame(m1);
        if f == -1 then (m2, fs) else (m2, fs + [f])
  }

  function FreeFrames(m: Mem, fs: seq<FrameNo>): (r: Mem)
    requires Wf(m)
    ensures Wf(r)
  {
    if fs == [] then m
    else FreeFrame(FreeFrames(m, fs[..|fs| - 1]), fs[|fs| - 1])
  }

  function AssignAll(m: Mem, dir: nat, ps: seq<nat>, fs: seq<FrameNo>): (r: Mem)
    requires Wf(m) && dir < NR_TASKS && InTable(ps) && |ps| == |fs|
    ensures Wf(r)
  {
    if ps == [] then m
    else
      var n := |ps| - 1;
      SetSsPag(AssignAll(m, dir, ps[..n], fs[..n]), Slot(dir, ps[n]), fs[n])
  }

  function CopyCodePage(m: Mem, src: nat, dst: nat, i: nat): (r: Mem)
    requires Wf(m) && src < NR_TASKS && dst < NR_TASKS && i < NUM_PAG_CODE
    ensures Wf(r)
  {
    SetPte(m, Slot(dst, PAG_LOG_INIT_CODE + i), m.pt[Slot(src, PAG_LOG_INIT_CODE + i)])
  }

  function CopyCode(m: Mem, src: nat, dst: nat, n: nat): (r: Mem)
    requires Wf(m) && src < NR_TASKS && dst < NR_TASKS && n <= NUM_PAG_CODE
    ensures Wf(r)
  {
    if n == 0 then m else CopyCodePage(CopyCode(m, src, dst, n - 1), src, dst, n - 1)
  }
}
