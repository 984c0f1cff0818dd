/** First-stage translation. Every first-stage entry is fetched through the second stage,
    whose accessed/dirty updates change memory on the way; so the search threads the memory. */
module TwoStage {
  import opened Bits
  import opened Common
  import opened PageTables
  import opened SecondStage

  /** The original request: `check` is clear for ATS translation requests; `supervisor` and `sum`
      are the privilege and the SUM bit it runs with. */
  datatype Request = Request(iova: U64, check: bool, read: bool, write: bool, exec: bool, supervisor: bool, sum: bool)

  datatype VFault = PageFault | WalkAccessFault | WalkCorruption | GuestPageFault(iotval2: nat)

  /** A first-stage leaf: where it is, what the non-leaf entries say about G, whether the
      second stage grants writes to its page, and the table's guest address. */
  datatype VReached =
    | VBareLeaf
    | VLeaf(addr: nat, pte: Pte, level: nat, nonLeafGlobal: bool, writable: bool, table: nat)
    | VStop(fault: VFault)

  datatype VResult = VOk(gpa: nat, lg: nat, pte: Pte) | VErr(fault: VFault)

  /** Bits above the mode's width repeat its top bit, or are clear for Sv32. */
  predicate Canonical(f: Format, iova: nat) {
    match f
    case Sv32 => iova < 0x1_0000_0000
    case Sv39 => iova < 0x40_0000_0000 || iova >= TWO_64 - 0x40_0000_0000
    case Sv48 => iova < 0x8000_0000_0000 || iova >= TWO_64 - 0x8000_0000_0000
    case Sv57 => iova < 0x100_0000_0000_0000 || iova >= TWO_64 - 0x100_0000_0000_0000
  }

  function OfGFault(e: GFault, table: nat): VFault {
    match e
    case GstPageFault => GuestPageFault(table + 1)
    case GstAccessFault => WalkAccessFault
    case GstDataCorruption => WalkCorruption
  }

  /** The search for a leaf from the table at guest address `a`, level `i`. */
  function VReachFrom(sp: Space, vpn: seq<nat>, i: nat, a: nat, global: bool, m: Store): (VReached, Store)
    requires sp.vmode.Paged? && i < |vpn|
    decreases i
  {
    var f := sp.vmode.format;
    var (g, m1) := GWalk(sp, IMPLICIT, EntrySlot(f, vpn, i, a).addr, m);
    if g.GErr? then (VStop(OfGFault(g.fault, a)), m1)
    else if g.pa >= Pow2(sp.pas) then (VStop(WalkAccessFault), m1)
    else match LoadStatus(m1, g.pa)
      case AccessFault => (VStop(WalkAccessFault), m1)
      case DataCorruption => (VStop(WalkCorruption), m1)
      case Okay =>
        var p := Fetch(m1, Slot(g.pa, f.PteSize()));
        if Malformed(sp, p) || (i != 0 && p.N) then (VStop(PageFault), m1)
        else if IsLeaf(p) then (VLeaf(g.pa, p, i, global, g.pte.W, a), m1)
        else if BadPointer(p) || i == 0 then (VStop(PageFault), m1)
        else VReachFrom(sp, vpn, i - 1, p.PPN * PAGE_SIZE, global || p.G, m1)
  }

  function VReach(sp: Space, iova: nat, m: Store): (VReached, Store) {
    if sp.vmode.Bare? then (VBareLeaf, m)
    else if !Canonical(sp.vmode.format, iova) then (VStop(PageFault), m)
    else var f := sp.vmode.format;
         VReachFrom(sp, Indices(f, 0, iova), f.Levels() - 1, sp.vppn * PAGE_SIZE, false, m)
  }

  predicate VPermits(req: Request, p: Pte) {
    && (req.check ==> (req.exec ==> p.X) && (req.read ==> p.R) && (req.write ==> p.W))
    && (!req.supervisor ==> p.U)
    && (req.supervisor && p.U ==> !req.exec && req.sum)
  }

  predicate VSettled(req: Request, p: Pte) {
    p.A && (p.D || !req.write || !p.W)
  }

  const V_BARE_PTE := ZERO_PTE.(D := true, A := true, G := true, U := true, X := true, W := true, R := true, V := true)

  function VReturned(iova: nat, r: VReached): Pte
    requires !r.VStop?
  {
    if r.VBareLeaf? then V_BARE_PTE
    else r.pte.(PPN := NapotPpn(r.pte, iova), G := r.nonLeafGlobal || r.pte.G)
  }

  function VLg(sp: Space, r: VReached): nat
    requires r.VLeaf? ==> sp.vmode.Paged?
  {
    if r.VLeaf? then sp.vmode.format.Shift(r.level) else sp.vBareLg
  }

  function VTranslated(sp: Space, iova: nat, r: VReached): (v: VResult)
    requires !r.VStop?
    requires r.VLeaf? ==> sp.vmode.Paged?
    ensures v.VOk?
  {
    var p := VReturned(iova, r);
    VOk(if r.VBareLeaf? then iova else Splice(p.PPN * PAGE_SIZE, iova, VLg(sp, r)), VLg(sp, r), p)
  }

  function VFinish(sp: Space, req: Request, r: VReached, m: Store): (VResult, Store)
    requires r.VLeaf? ==> sp.vmode.Paged?
  {
    match r
    case VStop(fault) => (VErr(fault), m)
    case VBareLeaf => (VTranslated(sp, req.iova, r), m)
    case VLeaf(addr, p, i, _, writable, table) =>
      var f := sp.vmode.format;
      if !VPermits(req, p) || !WellAligned(f, i, p) then (VErr(PageFault), m)
      else if VSettled(req, p) then (VTranslated(sp, req.iova, r), m)
      else if !sp.sade then (VErr(PageFault), m)
      else if !writable then (VErr(GuestPageFault(table + 3)), m)
      else match StoreStatus(m, addr)
        case AccessFault => (VErr(WalkAccessFault), m)
        case DataCorruption => (VErr(WalkCorruption), m)
        case Okay => (VTranslated(sp, req.iova, r), Put(m, Slot(addr, f.PteSize()), SetAd(p, req.write && p.W)))
  }

  function VWalk(sp: Space, req: Request, m: Store): (VResult, Store) {
    var (r, m1) := VReach(sp, req.iova, m);
    VFinish(sp, req, r, m1)
  }

  // ---------------------------------------------------------------- the goto loops

  datatype VOutcome = VTranslatedTo | VFaulted(fault: VFault)

  predicate VReports(out: VOutcome, gpa: nat, pageSize: nat, pte: Pte, r: VResult) {
    match r
    case VErr(e) => out == VFaulted(e)
    case VOk(gpa', lg, pte') => out.VTranslatedTo? && gpa == gpa' && pageSize == Pow2(lg) && pte == pte'
  }

  method ExtractVsVpn(f: Format, iova: U64) returns (vpn: seq<nat>)
    ensures vpn == Indices(f, 0, iova)
  {
    match f
    case Sv32 => vpn := [GetBits(21, 12, iova), GetBits(31, 22, iova)];
    case Sv39 => vpn := [GetBits(20, 12, iova), GetBits(29, 21, iova), GetBits(38, 30, iova)];
    case Sv48 => vpn := [GetBits(20, 12, iova), GetBits(29, 21, iova), GetBits(38, 30, iova), GetBits(47, 39, iova)];
    case Sv57 => vpn := [GetBits(20, 12, iova), GetBits(29, 21, iova), GetBits(38, 30, iova), GetBits(47, 39, iova),
                         GetBits(56, 48, iova)];
  }

  /** `masked_upper_bits` against 0 and `mask`: the shifted-out bits are all zeros or all ones. */
  function SignBits(f: Format): (k: nat)
    ensures 0 < k < 64
  {
    match f case Sv32 => 32 case Sv39 => 38 case Sv48 => 47 case Sv57 => 56
  }

  predicate CanonicalCheck(f: Format, iova: U64) {
    var mask := Pow2(64 - SignBits(f)) - 1;
    var masked := Low(Shr(iova, SignBits(f)), 64 - SignBits(f));
    masked == 0 || (!f.Sv32? && masked == mask)
  }

  lemma CanonicalMeaning(f: Format, iova: U64)
    ensures CanonicalCheck(f, iova) <==> Canonical(f, iova)
  {
    var k := SignBits(f);
    Pow2Of64();
    ShrShr(iova, k, 64 - k);
    ShrZero(iova, 64);
    ShrZero(Shr(iova, k), 64 - k);
    ShrZero(iova, k);
    TopBits(iova, k, 64);
    SignWidths();
  }

  /** All bits from `k` up to `n` are ones exactly for the top 2^k numbers. */
  lemma {:induction false} TopBits(x: nat, k: nat, n: nat)
    requires k <= n && x < Pow2(n)
    ensures Shr(x, k) == Pow2(n - k) - 1 <==> x >= Pow2(n) - Pow2(k)
  {
    if k > 0 { TopBits(x / 2, k - 1, n - 1); }
  }

  lemma SignWidths()
    ensures Pow2(38) == 0x40_0000_0000 && Pow2(47) == 0x8000_0000_0000
  {
    Pow2Of64();
    assert 4 * Pow2(38) == Pow2(40);
    assert 2 * Pow2(47) == Pow2(48);
  }

  /** Steps 2 to 4: `a` walks guest table addresses; each entry address goes through the second stage. */
  method FindVsLeaf(mem: Memory, sp: Space, vpn: seq<nat>)
    returns (r: VReached, loads: nat, atomics: nat)
    requires ValidSpace(sp) && sp.vmode.Paged? && InTable(sp.vmode.format, vpn, PAGE_SIZE)
    modifies mem
    ensures (r, mem.store) == VReachFrom(sp, vpn, sp.vmode.format.Levels() - 1, sp.vppn * PAGE_SIZE, false, old(mem.store))
    ensures !r.VBareLeaf? && (r.VLeaf? ==> VLeafEntry(sp, r, mem.store))
    ensures loads <= sp.vmode.format.Levels() * (GLevels(sp) + 1)
    ensures atomics <= sp.vmode.format.Levels()
  {
    hide GWalk;
    var f := sp.vmode.format;
    var i: nat := f.Levels() - 1;
    var a: nat, global := sp.vppn * PAGE_SIZE, false;
    loads, atomics := 0, 0;
    ghost var found := VReachFrom(sp, vpn, i, a, global, mem.store);
    while true
      invariant i < f.Levels() && a < 0x100_0000_0000_0000
      invariant found == VReachFrom(sp, vpn, i, a, global, mem.store)
      invariant loads <= (f.Levels() - 1 - i) * (GLevels(sp) + 1)
      invariant atomics <= f.Levels() - 1 - i
      decreases i
    {
      // Step 2
      var gst, pa, pageSize, gpte, l, n := SecondStageAddressTranslation(mem, sp, a + vpn[i] * f.PteSize(), IMPLICIT);
      loads, atomics := loads + l, atomics + n;
      LoadBudget(f.Levels(), i, GLevels(sp));
      if gst.Fault? { r := VStop(OfGFault(gst.fault, a)); return; }
      if pa >= Pow2(sp.pas) { r := VStop(WalkAccessFault); return; }
      loads := loads + 1;
      var status, pte := mem.ReadMemory(pa, f.PteSize());
      if status.AccessFault? { r := VStop(WalkAccessFault); return; }
      if status.DataCorruption? { r := VStop(WalkCorruption); return; }
      // Step 3
      if Malformed(sp, pte) || (i != 0 && pte.N) { r := VStop(PageFault); return; }
      // Step 4
      if pte.R || pte.X { r := VLeaf(pa, pte, i, global, gpte.W, a); return; }
      global := global || pte.G;
      if BadPointer(pte) || i == 0 { r := VStop(PageFault); return; }
      i := i - 1;
      a := pte.PPN * PAGE_SIZE;
    }
  }

  function GLevels(sp: Space): nat { if sp.gmode.Paged? then sp.gmode.format.Levels() else 0 }

  predicate VLeafEntry(sp: Space, r: VReached, m: Store)
    requires sp.vmode.Paged? && r.VLeaf?
  {
    r.level < sp.vmode.format.Levels() && LoadStatus(m, r.addr).Okay? &&
    Fetch(m, Slot(r.addr, sp.vmode.format.PteSize())) == r.pte
  }

  lemma LoadBudget(levels: nat, i: nat, g: nat)
    requires i < levels
    ensures (levels - 1 - i) * (g + 1) + g + 1 == (levels - i) * (g + 1)
    ensures (levels - i) * (g + 1) <= levels * (g + 1)
  {
    assert i * (g + 1) >= 0;
    assert (levels - i) * (g + 1) == levels * (g + 1) - i * (g + 1);
  }

  /** Step 7: the atomic update of the first-stage leaf, whose compare succeeds in sequential memory. */
  method UpdateVsLeaf(mem: Memory, sp: Space, req: Request, r: VReached) returns (status: Status)
    requires sp.vmode.Paged? && r.VLeaf? && VLeafEntry(sp, r, mem.store)
    modifies mem
    ensures status == StoreStatus(old(mem.store), r.addr)
    ensures mem.store == if !status.Okay? then old(mem.store) else
              Put(old(mem.store), Slot(r.addr, sp.vmode.format.PteSize()), SetAd(r.pte, req.write && r.pte.W))
  {
    var size := sp.vmode.format.PteSize();
    var amo: Pte;
    status, amo := mem.ReadMemory(r.addr, size);
    assert status.Okay? && amo == r.pte;
    amo := amo.(A := true);
    if req.write && amo.W { amo := amo.(D := true); }
    status := mem.WriteMemory(r.addr, size, amo);
  }

  /** Steps 5 to 8 of the first stage at the leaf `r`. */
  method CompleteVsLeaf(mem: Memory, sp: Space, req: Request, r: VReached)
    returns (out: VOutcome, gpa: nat, pageSize: nat, pte: Pte, atomics: nat)
    requires ValidSpace(sp) && sp.vmode.Paged? && r.VLeaf? && VLeafEntry(sp, r, mem.store)
    modifies mem
    ensures mem.store == VFinish(sp, req, r, old(mem.store)).1
    ensures VReports(out, gpa, pageSize, pte, VFinish(sp, req, r, old(mem.store)).0)
    ensures atomics <= 1
  {
    hide Splice, WellAligned, VPermits;
    var f := sp.vmode.format;
    out, gpa, pte, atomics := VFaulted(PageFault), 0, r.pte, 0;
    var ok;
    ok, pageSize := CheckVsLeaf(f, req, r.level, pte);
    if !ok { return; }
    // Step 7
    if !(pte.A && (pte.D || !req.write || !pte.W)) {
      if !sp.sade { return; }
      if !r.writable { out := VFaulted(GuestPageFault(r.table + 3)); return; }
      atomics := 1;
      var status := UpdateVsLeaf(mem, sp, req, r);
      if status.AccessFault? { out := VFaulted(WalkAccessFault); return; }
      if status.DataCorruption? { out := VFaulted(WalkCorruption); return; }
    }
    // Step 8
    pte := pte.(PPN := NapotPpn(pte, req.iova), G := r.nonLeafGlobal || pte.G);
    ShiftBound(f, r.level);
    gpa := MergePage(pte.PPN, req.iova, f.Shift(r.level));
    out := VTranslatedTo;
  }

  /** Steps 5 and 6: permissions and the U, SUM rules, then alignment and NAPOT encoding. */
  method CheckVsLeaf(f: Format, req: Request, i: nat, pte: Pte) returns (ok: bool, pageSize: nat)
    requires i < f.Levels()
    ensures ok <==> VPermits(req, pte) && WellAligned(f, i, pte)
    ensures ok ==> pageSize == Pow2(f.Shift(i))
  {
    ok, pageSize := false, PAGE_SIZE;
    if req.check {
      if req.exec && !pte.X { return; }
      if req.read && !pte.R { return; }
      if req.write && !pte.W { return; }
    }
    if !req.supervisor && !pte.U { return; }
    if req.exec && req.supervisor && pte.U { return; }
    if req.supervisor && !req.exec && !req.sum && pte.U { return; }
    ok, pageSize := SuperpageCheck(f, i, pte);
  }

  /** `two_stage_address_translation`. The counts are the plain loads and the atomic updates of the
      first-stage search, its nested second-stage walks and the first-stage leaf. */
  method TwoStageAddressTranslation(mem: Memory, sp: Space, req: Request)
    returns (out: VOutcome, gpa: nat, pageSize: nat, pte: Pte, loads: nat, atomics: nat)
    requires ValidSpace(sp)
    modifies mem
    ensures mem.store == VWalk(sp, req, old(mem.store)).1
    ensures VReports(out, gpa, pageSize, pte, VWalk(sp, req, old(mem.store)).0)
    ensures loads <= VLevels(sp) * (GLevels(sp) + 1)
    ensures atomics <= VLevels(sp) + 1
  {
    hide VReachFrom;
    loads, atomics := 0, 0;
    if sp.vmode.Bare? {
      out, gpa, pageSize, pte := VTranslatedTo, req.iova, Pow2(sp.vBareLg), V_BARE_PTE;
      return;
    }
    out, gpa, pageSize, pte := VFaulted(PageFault), 0, PAGE_SIZE, ZERO_PTE;
    CanonicalMeaning(sp.vmode.format, req.iova);
    if !CanonicalCheck(sp.vmode.format, req.iova) { return; }
    var vpn := ExtractVsVpn(sp.vmode.format, req.iova);
    FirstStageIndices(sp.vmode.format, req.iova);
    var r;
    r, loads, atomics := FindVsLeaf(mem, sp, vpn);
    if r.VStop? { out := VFaulted(r.fault); return; }
    var n;
    out, gpa, pageSize, pte, n := CompleteVsLeaf(mem, sp, req, r);
    atomics := atomics + n;
  }

  function VLevels(sp: Space): nat { if sp.vmode.Paged? then sp.vmode.format.Levels() else 0 }
}
