/** Second-stage (G-stage) address translation. The walk to a leaf does not depend on
    what the access wants, so the specification is a pure search (`GReach`) followed by
    the checks and the accessed/dirty update at the leaf (`GFinish`). */
module SecondStage {
  import opened Bits
  import opened Common
  import opened PageTables

  datatype GFault = GstPageFault | GstAccessFault | GstDataCorruption

  /** What a walk is made for: `check` is clear for ATS translation requests, `implicit`
      is set for the walks that fetch first-stage entries. */
  datatype Access = Access(check: bool, read: bool, write: bool, exec: bool, implicit: bool)

  const IMPLICIT := Access(true, true, false, false, true)

  datatype GReached = GBareLeaf | GLeaf(addr: nat, pte: Pte, level: nat) | GStop(fault: GFault)

  datatype GResult = GOk(pa: nat, lg: nat, pte: Pte) | GErr(fault: GFault)

  /** The guest physical address has no bits outside the mode's width. */
  predicate GpaFits(sp: Space, gpa: nat)
    requires sp.gmode.Paged?
  {
    if sp.sxl then gpa < 0x4_0000_0000
    else match sp.gmode.format
         case Sv32 => true
         case Sv39 => gpa < 0x200_0000_0000
         case Sv48 => gpa < 0x4_0000_0000_0000
         case Sv57 => gpa < 0x800_0000_0000_0000
  }

  /** The search for a leaf from the table at `a`, level `i` (steps 2 to 4 of section 4.3.2). */
  function GReachFrom(sp: Space, vpn: seq<nat>, i: nat, a: nat, m: Store): GReached
    requires sp.gmode.Paged? && i < |vpn|
    decreases i
  {
    var s := EntrySlot(sp.gmode.format, vpn, i, a);
    if a >= Pow2(sp.pas) then GStop(GstAccessFault)
    else match LoadStatus(m, s.addr)
      case AccessFault => GStop(GstAccessFault)
      case DataCorruption => GStop(GstDataCorruption)
      case Okay =>
        var p := Fetch(m, s);
        if Malformed(sp, p) || (i != 0 && p.N) then GStop(GstPageFault)
        else if IsLeaf(p) then GLeaf(s.addr, p, i)
        else if BadPointer(p) || i == 0 then GStop(GstPageFault)
        else GReachFrom(sp, vpn, i - 1, p.PPN * PAGE_SIZE, m)
  }

  function GReach(sp: Space, gpa: nat, m: Store): GReached {
    if sp.gmode.Bare? then GBareLeaf
    else if !GpaFits(sp, gpa) then GStop(GstPageFault)
    else var f := sp.gmode.format;
         GReachFrom(sp, Indices(f, f.RootWidening(), gpa), f.Levels() - 1, sp.gppn * PAGE_SIZE, m)
  }

  predicate GPermits(acc: Access, p: Pte) {
    && p.U
    && (acc.check ==> (acc.exec ==> p.X) && (acc.read ==> p.R) && (acc.write ==> p.W))
  }

  /** The leaf's accessed and dirty bits already record this access. */
  predicate GSettled(sp: Space, acc: Access, p: Pte) {
    p.A && (p.D || !p.W || (!acc.write && (!acc.implicit || !sp.sade)))
  }

  function GBarePte(gpa: nat): Pte {
    ZERO_PTE.(PPN := gpa / PAGE_SIZE % 0x1000_0000_0000, D := true, A := true, U := true,
              X := true, W := true, R := true, V := true)
  }

  /** The entry a finished walk returns: the leaf as it was read, NAPOT bits filled in. */
  function GReturned(gpa: nat, r: GReached): Pte
    requires !r.GStop?
  {
    if r.GBareLeaf? then GBarePte(gpa) else r.pte.(PPN := NapotPpn(r.pte, gpa))
  }

  function GLg(sp: Space, r: GReached): nat
    requires r.GLeaf? ==> sp.gmode.Paged?
  {
    if r.GLeaf? then sp.gmode.format.Shift(r.level) else sp.gBareLg
  }

  function GTranslated(sp: Space, gpa: nat, r: GReached): (g: GResult)
    requires !r.GStop?
    requires r.GLeaf? ==> sp.gmode.Paged?
    ensures g.GOk?
  {
    var p := GReturned(gpa, r);
    GOk(Splice(p.PPN * PAGE_SIZE, gpa, GLg(sp, r)), GLg(sp, r), p)
  }

  /** Steps 5 to 8 at the leaf. */
  function GFinish(sp: Space, acc: Access, gpa: nat, r: GReached, m: Store): (GResult, Store)
    requires r.GLeaf? ==> sp.gmode.Paged?
  {
    match r
    case GStop(fault) => (GErr(fault), m)
    case GBareLeaf => (GTranslated(sp, gpa, r), m)
    case GLeaf(addr, p, i) =>
      var f := sp.gmode.format;
      if !GPermits(acc, p) || !WellAligned(f, i, p) then (GErr(GstPageFault), m)
      else if GSettled(sp, acc, p) then (GTranslated(sp, gpa, r), m)
      else if !sp.gade then (GErr(GstPageFault), m)
      else match StoreStatus(m, addr)
        case AccessFault => (GErr(GstAccessFault), m)
        case DataCorruption => (GErr(GstDataCorruption), m)
        case Okay => (GTranslated(sp, gpa, r),
                      Put(m, Slot(addr, f.PteSize()), SetAd(p, (acc.write || acc.implicit) && p.W)))
  }

  function GWalk(sp: Space, acc: Access, gpa: nat, m: Store): (GResult, Store) {
    GFinish(sp, acc, gpa, GReach(sp, gpa, m), m)
  }

  /** A Bare second stage leaves an address of the machine where it is. */
  lemma BareWalk(sp: Space, acc: Access, x: nat, m: Store)
    requires sp.gmode.Bare? && sp.gBareLg >= 12 && x < 0x100_0000_0000_0000
    ensures var (g, n) := GWalk(sp, acc, x, m); g.GOk? && g.pa == x && n == m
  {
    hide Splice, Shr, Low;
    var page := x / PAGE_SIZE * PAGE_SIZE;
    assert page / PAGE_SIZE == x / PAGE_SIZE;
    SmallPowers();
    LowIsRemainder(x, 12);
    LowIsRemainder(page, 12);
    ShrAgree(x, page, 12, sp.gBareLg);
    SpliceUnique(x, page, x, sp.gBareLg);
  }

  /** The widths tested by `gpa_upper_bits`, as the bits above them. */
  function GpaUpperBits(sp: Space, gpa: U64): nat
    requires sp.gmode.Paged?
  {
    if sp.sxl then GetBits(63, 34, gpa)
    else match sp.gmode.format
         case Sv32 => 0
         case Sv39 => GetBits(63, 41, gpa)
         case Sv48 => GetBits(63, 50, gpa)
         case Sv57 => GetBits(63, 59, gpa)
  }

  lemma UpperBitsZero(gpa: U64, k: nat)
    requires 1 <= k < 64
    ensures GetBits(63, k, gpa) == 0 <==> gpa < Pow2(k)
  {
    Pow2Of64();
    ShrShr(gpa, k, 64 - k);
    ShrZero(gpa, 64);
    ShrZero(Shr(gpa, k), 64 - k);
    ShrZero(gpa, k);
  }

  lemma WidthConstants()
    ensures Pow2(34) == 0x4_0000_0000 && Pow2(41) == 0x200_0000_0000
    ensures Pow2(50) == 0x4_0000_0000_0000 && Pow2(59) == 0x800_0000_0000_0000
  {
    Pow2Of64();
    assert Pow2(34) == 4 * Pow2(32);
    assert Pow2(50) == 4 * Pow2(48);
    assert Pow2(59) == 8 * Pow2(56);
  }

  lemma UpperBitsMeaning(sp: Space, gpa: U64)
    requires ValidSpace(sp) && sp.gmode.Paged?
    ensures GpaUpperBits(sp, gpa) == 0 <==> GpaFits(sp, gpa)
  {
    UpperBitsZero(gpa, 34);
    UpperBitsZero(gpa, 41);
    UpperBitsZero(gpa, 50);
    UpperBitsZero(gpa, 59);
    WidthConstants();
  }

  /** `vpn[]` as the code extracts it. */
  method ExtractVpn(f: Format, gpa: U64) returns (vpn: seq<nat>)
    ensures vpn == Indices(f, f.RootWidening(), gpa)
  {
    match f
    case Sv32 => vpn := [GetBits(21, 12, gpa), GetBits(34, 22, gpa)];
    case Sv39 => vpn := [GetBits(20, 12, gpa), GetBits(29, 21, gpa), GetBits(40, 30, gpa)];
    case Sv48 => vpn := [GetBits(20, 12, gpa), GetBits(29, 21, gpa), GetBits(38, 30, gpa), GetBits(49, 39, gpa)];
    case Sv57 => vpn := [GetBits(20, 12, gpa), GetBits(29, 21, gpa), GetBits(38, 30, gpa), GetBits(47, 39, gpa),
                         GetBits(58, 48, gpa)];
  }

  /** Step 6 and NAPOT: `ppn[]` below level `i` must be clear and each level passed multiplies the size. */
  method SuperpageCheck(f: Format, i: nat, p: Pte) returns (ok: bool, pageSize: nat)
    requires i < f.Levels()
    ensures ok <==> WellAligned(f, i, p)
    ensures ok ==> pageSize == Pow2(f.Shift(i))
  {
    var bits := f.IndexBits();
    ok, pageSize := false, PAGE_SIZE;
    var j: nat := i;
    assert pageSize == Pow2(12) by { SmallPowers(); }
    // The switch on i falls through its cases from i down to 1.
    while j > 0
      invariant j <= i
      invariant Low(p.PPN, bits * i) == 0 <==> Low(p.PPN, bits * j) == 0
      invariant pageSize == Pow2(12 + bits * (i - j))
    {
      var ppn := GetBits(bits * j - 1, bits * (j - 1), p.PPN);
      LowSplit(p.PPN, bits * (j - 1), bits);
      if ppn != 0 { return; }
      Pow2Plus8(12 + bits * (i - j));
      pageSize := pageSize * 512;
      if f.Sv32? { pageSize := pageSize * 2; }
      j := j - 1;
    }
    if i == 0 && p.N && p.PPN % 16 != 8 { return; }
    ok := true;
  }

  /** The goto loop over `i` and `a` of steps 2 to 4, leaving `a` at the table of the leaf. */
  method FindLeaf(mem: Memory, sp: Space, vpn: seq<nat>) returns (r: GReached, a: nat, loads: nat)
    requires ValidSpace(sp) && sp.gmode.Paged? && InTable(sp.gmode.format, vpn, 4 * PAGE_SIZE)
    ensures r == GReachFrom(sp, vpn, sp.gmode.format.Levels() - 1, sp.gppn * PAGE_SIZE, mem.store)
    ensures loads <= sp.gmode.format.Levels()
    ensures r.GLeaf? ==> LeafEntry(sp, vpn, r, a, mem.store)
  {
    var f := sp.gmode.format;
    var i: nat := f.Levels() - 1;
    loads := 0;
    a := sp.gppn * PAGE_SIZE;
    ghost var table: nat := sp.gppn;
    while true
      invariant i < f.Levels()
      invariant GReachFrom(sp, vpn, f.Levels() - 1, sp.gppn * PAGE_SIZE, mem.store) == GReachFrom(sp, vpn, i, a, mem.store)
      invariant a == table * PAGE_SIZE && (i == f.Levels() - 1 ==> table % 4 == 0)
      invariant loads == f.Levels() - 1 - i
      decreases i
    {
      // Step 2
      if a >= Pow2(sp.pas) { r := GStop(GstAccessFault); return; }
      loads := loads + 1;
      EntryAddress(table, vpn[i] * f.PteSize(), i == f.Levels() - 1);
      var status, gpte := mem.ReadMemory(Or(a, vpn[i] * f.PteSize()), f.PteSize());
      if status.AccessFault? { r := GStop(GstAccessFault); return; }
      if status.DataCorruption? { r := GStop(GstDataCorruption); return; }
      // Step 3
      if Malformed(sp, gpte) || (i != 0 && gpte.N) { r := GStop(GstPageFault); return; }
      // Step 4
      if gpte.R || gpte.X { r := GLeaf(a + vpn[i] * f.PteSize(), gpte, i); return; }
      if BadPointer(gpte) || i == 0 { r := GStop(GstPageFault); return; }
      i := i - 1;
      a, table := gpte.PPN * PAGE_SIZE, gpte.PPN;
    }
  }

  /** `r` is the entry of `vpn` in the table at `a`, readable and as memory holds it. */
  predicate LeafEntry(sp: Space, vpn: seq<nat>, r: GReached, a: nat, m: Store)
    requires sp.gmode.Paged? && r.GLeaf?
  {
    && r.level < sp.gmode.format.Levels() == |vpn|
    && var s := EntrySlot(sp.gmode.format, vpn, r.level, a);
       r.addr == s.addr && LoadStatus(m, s.addr).Okay? && Fetch(m, s) == r.pte
  }

  /** Steps 5 and 6: permissions, then superpage alignment and NAPOT encoding. */
  method CheckLeaf(f: Format, acc: Access, i: nat, gpte: Pte) returns (ok: bool, pageSize: nat)
    requires i < f.Levels()
    ensures ok <==> GPermits(acc, gpte) && WellAligned(f, i, gpte)
    ensures ok ==> pageSize == Pow2(f.Shift(i))
  {
    ok, pageSize := false, PAGE_SIZE;
    if acc.check {
      if acc.exec && !gpte.X { return; }
      if acc.read && !gpte.R { return; }
      if acc.write && !gpte.W { return; }
    }
    if !gpte.U { return; }
    ok, pageSize := SuperpageCheck(f, i, gpte);
  }

  /** Step 7: the atomic update of the leaf. The word read at `a | off` is the word updated at
      `a + off`, so in sequential memory the compare succeeds and the code's return to step 2 is
      never taken. */
  method UpdateLeaf(mem: Memory, sp: Space, acc: Access, vpn: seq<nat>, r: GReached, a: nat) returns (status: Status)
    requires sp.gmode.Paged? && r.GLeaf? && LeafEntry(sp, vpn, r, a, mem.store)
    modifies mem
    ensures status == StoreStatus(old(mem.store), r.addr)
    ensures mem.store == if !status.Okay? then old(mem.store) else
              Put(old(mem.store), Slot(r.addr, sp.gmode.format.PteSize()), SetAd(r.pte, (acc.write || acc.implicit) && r.pte.W))
  {
    var f := sp.gmode.format;
    var amo: Pte;
    status, amo := mem.ReadMemory(a + vpn[r.level] * f.PteSize(), f.PteSize());
    assert status.Okay? && amo == r.pte;
    amo := amo.(A := true);
    if (acc.write || acc.implicit) && amo.W { amo := amo.(D := true); }
    status := mem.WriteMemory(a + vpn[r.level] * f.PteSize(), f.PteSize(), amo);
  }

  /** `second_stage_address_translation`. */
  method SecondStageAddressTranslation(mem: Memory, sp: Space, gpa: U64, acc: Access)
    returns (fault: Result, pa: nat, pageSize: nat, gpte: Pte, loads: nat, atomics: nat)
    requires ValidSpace(sp)
    modifies mem
    ensures mem.store == GWalk(sp, acc, gpa, old(mem.store)).1
    ensures Reports(fault, pa, pageSize, gpte, GWalk(sp, acc, gpa, old(mem.store)).0)
    ensures loads <= (if sp.gmode.Paged? then sp.gmode.format.Levels() else 0) && atomics <= 1
  {
    pa, pageSize, gpte, loads, atomics := 0, PAGE_SIZE, ZERO_PTE, 0, 0;
    if sp.gmode.Bare? {
      gpte, pageSize := GBarePte(gpa), Pow2(sp.gBareLg);
      pa := MergePage(gpte.PPN, gpa, sp.gBareLg);
      fault := Translated;
      return;
    }
    fault := Fault(GstPageFault);
    UpperBitsMeaning(sp, gpa);
    if GpaUpperBits(sp, gpa) != 0 { return; }
    var r, a;
    var vpn := ExtractVpn(sp.gmode.format, gpa);
    SecondStageIndices(sp.gmode.format, gpa);
    r, a, loads := FindLeaf(mem, sp, vpn);
    if r.GStop? { fault := Fault(r.fault); return; }
    fault, pa, pageSize, gpte, atomics := CompleteLeaf(mem, sp, gpa, acc, vpn, r, a);
  }

  /** Steps 5 to 8 at the leaf `r` found in the table at `a`. */
  method CompleteLeaf(mem: Memory, sp: Space, gpa: U64, acc: Access, vpn: seq<nat>, r: GReached, a: nat)
    returns (fault: Result, pa: nat, pageSize: nat, gpte: Pte, atomics: nat)
    requires ValidSpace(sp) && sp.gmode.Paged? && r.GLeaf? && LeafEntry(sp, vpn, r, a, mem.store)
    modifies mem
    ensures mem.store == GFinish(sp, acc, gpa, r, old(mem.store)).1
    ensures Reports(fault, pa, pageSize, gpte, GFinish(sp, acc, gpa, r, old(mem.store)).0)
    ensures atomics <= 1
  {
    fault, pa, gpte, atomics := Fault(GstPageFault), 0, r.pte, 0;
    var ok;
    ok, pageSize := CheckLeaf(sp.gmode.format, acc, r.level, gpte);
    if !ok { return; }
    // Step 7
    if !(gpte.A && (gpte.D || !acc.write || !gpte.W) && (gpte.D || !acc.implicit || !gpte.W || !sp.sade)) {
      if !sp.gade { return; }
      atomics := 1;
      var status := UpdateLeaf(mem, sp, acc, vpn, r, a);
      if status.AccessFault? { fault := Fault(GstAccessFault); return; }
      if status.DataCorruption? { fault := Fault(GstDataCorruption); return; }
    }
    // Step 8
    gpte := gpte.(PPN := NapotPpn(gpte, gpa));
    ShiftBound(sp.gmode.format, r.level);
    pa := MergePage(gpte.PPN, gpa, sp.gmode.format.Shift(r.level));
    fault := Translated;
  }

  datatype Result = Translated | Fault(fault: GFault)

  /** The out-parameters of the C function say what the specification's result says. */
  predicate Reports(fault: Result, pa: nat, pageSize: nat, pte: Pte, r: GResult) {
    match r
    case GErr(e) => fault == Fault(e)
    case GOk(pa', lg, pte') => fault.Translated? && pa == pa' && pageSize == Pow2(lg) && pte == pte'
  }

  /** `((pte.PPN * PAGESIZE) & ~(page_sz - 1)) | (addr & (page_sz - 1))` */
  method MergePage(ppn: Ppn, addr: U64, lg: nat) returns (pa: nat)
    requires lg < 64
    ensures pa == Splice(ppn * PAGE_SIZE, addr, lg)
  {
    MaskMergeIsSplice(ppn * PAGE_SIZE, addr, lg);
    pa := MaskMerge(ppn * PAGE_SIZE, addr, Pow2(lg));
  }
}
