/**
 The initialisation loops of mm.c, on the mutable memory.
 */
module BootCode {
  import opened Basics
  import opened Mm
  import opened Memory
  import Boot

  method InitFrames(mem: Memory)
    requires mem.Valid() && forall f :: 0 <= f < TOTAL_PAGES ==> mem.cowCount[f] == 0
    modifies mem.physMem, mem.cowCount
    ensures forall f :: 0 <= f < TOTAL_PAGES ==> mem.physMem[f] == (f < NUM_PAG_KERNEL) && mem.cowCount[f] == 0
  {
    for i := 0 to TOTAL_PAGES
      invariant forall f :: 0 <= f < i ==> !mem.physMem[f]
      invariant forall f :: 0 <= f < TOTAL_PAGES ==> mem.cowCount[f] == 0
    {
      mem.physMem[i] := false;
    }
    for i := 0 to NUM_PAG_KERNEL
      invariant forall f :: 0 <= f < TOTAL_PAGES ==> mem.physMem[f] == (f < i) && mem.cowCount[f] == 0
    {
      mem.physMem[i] := true;
      mem.cowCount[i] := 0;
    }
  }

  /** One table: everything cleared, then the kernel's identity mapping without page 0 and the guards. */
  method InitTable(mem: Memory, d: nat, g0: nat, g1: nat)
    requires mem.Valid() && d < NR_TASKS && g0 < TOTAL_PAGES && g1 < TOTAL_PAGES
    requires 1 <= g0 < NUM_PAG_KERNEL && 1 <= g1 < NUM_PAG_KERNEL
    modifies mem.tables
    ensures forall p :: 0 <= p < TOTAL_PAGES ==> mem.tables[d, p] == Boot.InitPte(p, g0, g1)
    ensures forall e, p :: 0 <= e < NR_TASKS && 0 <= p < TOTAL_PAGES && e != d ==>
      mem.tables[e, p] == old(mem.tables[e, p])
  {
    for i := 0 to TOTAL_PAGES
      invariant forall p :: 0 <= p < i ==> mem.tables[d, p] == NULL_PTE
      invariant forall e, p :: 0 <= e < NR_TASKS && 0 <= p < TOTAL_PAGES && e != d ==>
        mem.tables[e, p] == old(mem.tables[e, p])
    {
      mem.tables[d, i] := NULL_PTE;
    }
    for i := 1 to NUM_PAG_KERNEL
      invariant forall p :: 0 <= p < TOTAL_PAGES ==>
        mem.tables[d, p] == if 1 <= p < i then Pte(true, true, false, p) else NULL_PTE
      invariant forall e, p :: 0 <= e < NR_TASKS && 0 <= p < TOTAL_PAGES && e != d ==>
        mem.tables[e, p] == old(mem.tables[e, p])
    {
      mem.tables[d, i] := Pte(true, true, false, i);
    }
    mem.tables[d, g0] := mem.tables[d, g0].(present := false);
    mem.tables[d, g1] := mem.tables[d, g1].(present := false);
  }

  method InitTablePages(mem: Memory, g0: nat, g1: nat)
    requires mem.Valid() && 1 <= g0 < NUM_PAG_KERNEL && 1 <= g1 < NUM_PAG_KERNEL
    modifies mem.tables
    ensures forall d, p :: 0 <= d < NR_TASKS && 0 <= p < TOTAL_PAGES ==> mem.tables[d, p] == Boot.InitPte(p, g0, g1)
  {
    for j := 0 to NR_TASKS
      invariant forall d, p :: 0 <= d < j && 0 <= p < TOTAL_PAGES ==> mem.tables[d, p] == Boot.InitPte(p, g0, g1)
    {
      InitTable(mem, j, g0, g1);
    }
  }

  /** `init_mm`, up to the first directory. */
  method InitMm(mem: Memory, g0: nat, g1: nat)
    requires mem.Valid() && 1 <= g0 < NUM_PAG_KERNEL && 1 <= g1 < NUM_PAG_KERNEL
    requires forall f :: 0 <= f < TOTAL_PAGES ==> mem.cowCount[f] == 0
    modifies mem, mem.physMem, mem.cowCount, mem.tables
    ensures mem.Valid() && mem.Value() == Boot.InitMem(old(mem.Frames()), g0, g1)
  {
    InitTablePages(mem, g0, g1);
    InitFrames(mem);
    mem.LoadCr3(0);
    assert mem.Frames() == old(mem.Frames());
    assert mem.Tables() == Boot.InitMem(old(mem.Frames()), g0, g1).pt;
  }

  /** `set_user_pages`; at boot no allocation can fail. */
  method SetUserPages(mem: Memory, d: nat)
    requires mem.Valid() && d < NR_TASKS
    requires Boot.SetUserPages(mem.Value(), d, NUM_PAG_CODE, NUM_PAG_DATA).Some?
    modifies mem.physMem, mem.cowCount, mem.tables
    ensures mem.Value() == Boot.SetUserPages(old(mem.Value()), d, NUM_PAG_CODE, NUM_PAG_DATA).value
  {
    hide mem.Value, AllocFrame, Wf;
    ghost var m0 := mem.Value();
    var code, data := NUM_PAG_CODE, NUM_PAG_DATA;
    assert Boot.SetCodePages(m0, d, code).Some?;
    for pag := 0 to code
      invariant Boot.SetCodePages(m0, d, pag).Some? && mem.Value() == Boot.SetCodePages(m0, d, pag).value
    {
      CodePrefix(m0, d, pag + 1, code);
      var f := mem.AllocFrame();
      mem.SetPte(d, PAG_LOG_INIT_CODE + pag, Pte(true, false, true, f));
    }
    ghost var m1 := mem.Value();
    for pag := 0 to data
      invariant Boot.SetDataPages(m1, d, pag).Some? && mem.Value() == Boot.SetDataPages(m1, d, pag).value
    {
      DataPrefix(m1, d, pag + 1, data);
      var f := mem.AllocFrame();
      mem.SetPte(d, PAG_LOG_INIT_DATA + pag, Pte(true, true, true, f));
    }
  }

  lemma {:induction false} CodePrefix(m: Mem, d: nat, i: nat, n: nat)
    requires Wf(m) && d < NR_TASKS && i <= n <= NUM_PAG_CODE && Boot.SetCodePages(m, d, n).Some?
    ensures Boot.SetCodePages(m, d, i).Some?
  {
    if i < n {
      CodePrefix(m, d, i, n - 1);
    }
  }

  lemma {:induction false} DataPrefix(m: Mem, d: nat, i: nat, n: nat)
    requires Wf(m) && d < NR_TASKS && i <= n <= NUM_PAG_DATA && Boot.SetDataPages(m, d, n).Some?
    ensures Boot.SetDataPages(m, d, i).Some?
  {
    if i < n {
      DataPrefix(m, d, i, n - 1);
    }
  }
}
