/** The translation of a request without the IOATC: first stage, then second stage on its
    result, then the merge of sizes and attributes (steps 17 to 19 of the translation process,
    with MSI page tables off). */
module Translate {
  import opened Bits
  import opened Common
  import opened PageTables
  import opened SecondStage
  import opened TwoStage

  datatype Outcome =
    | Faulted(cause: nat, iotval2: nat)
    | Done(pa: nat, lg: nat, vpte: Pte, gpte: Pte)

  function ByAccess(req: Request, exec: nat, read: nat, write: nat): nat {
    if req.exec then exec else if req.read then read else write
  }

  function VFaultOutcome(req: Request, f: VFault): Outcome {
    match f
    case PageFault => Faulted(ByAccess(req, 12, 13, 15), 0)
    case WalkAccessFault => Faulted(ByAccess(req, 1, 5, 7), 0)
    case WalkCorruption => Faulted(274, 0)
    case GuestPageFault(iotval2) => Faulted(ByAccess(req, 20, 21, 23), iotval2)
  }

  function GFaultOutcome(req: Request, f: GFault, gpa: nat): Outcome {
    match f
    case GstPageFault => Faulted(ByAccess(req, 20, 21, 23), gpa - gpa % 4)
    case GstAccessFault => Faulted(ByAccess(req, 1, 5, 7), 0)
    case GstDataCorruption => Faulted(274, 0)
  }

  function Explicit(req: Request): Access {
    Access(req.check, req.read, req.write, req.exec, false)
  }

  function Min(a: nat, b: nat): nat { if b < a then b else a }

  /** The first stage's memory type wins unless it is PMA. */
  function MergedPbmt(v: Pte, g: Pte): nat { if v.PBMT != 0 then v.PBMT else g.PBMT }

  function Merge(iova: nat, v: VResult, g: GResult): Outcome
    requires v.VOk? && g.GOk?
  {
    var lg := Min(v.lg, g.lg);
    Done(Splice(g.pa, iova, lg), lg, v.pte.(PBMT := MergedPbmt(v.pte, g.pte)), g.pte)
  }

  function Translation(sp: Space, req: Request, m: Store): (Outcome, Store) {
    var (v, m1) := VWalk(sp, req, m);
    if v.VErr? then (VFaultOutcome(req, v.fault), m1)
    else var (g, m2) := GWalk(sp, Explicit(req), v.gpa, m1);
         if g.GErr? then (GFaultOutcome(req, g.fault, v.gpa), m2)
         else (Merge(req.iova, v, g), m2)
  }

  /** The merge step rewrites the low bits of the second stage's address from the IOVA. They are
      already there: at every size both stages cover, the address is the second-stage image of the
      first-stage result. */
  lemma MergeKeepsAddress(sp: Space, req: Request, m: Store)
    requires ValidSpace(sp)
    ensures var (v, m1) := VWalk(sp, req, m);
            v.VOk? ==> var (g, m2) := GWalk(sp, Explicit(req), v.gpa, m1);
                       g.GOk? ==> Merge(req.iova, v, g).pa == g.pa
  {
    hide VReach, GReach;
    var (v, m1) := VWalk(sp, req, m);
    if v.VOk? {
      var (g, m2) := GWalk(sp, Explicit(req), v.gpa, m1);
      if g.GOk? {
        var lg := Min(v.lg, g.lg);
        VLowBits(sp, req, m);
        GLowBits(sp, Explicit(req), v.gpa, m1);
        LowLow(v.gpa, lg, v.lg);
        LowLow(req.iova, lg, v.lg);
        LowLow(g.pa, lg, g.lg);
        LowLow(v.gpa, lg, g.lg);
        SpliceUnique(g.pa, g.pa, req.iova, lg);
      }
    }
  }

  lemma VLowBits(sp: Space, req: Request, m: Store)
    ensures var v := VWalk(sp, req, m).0; v.VOk? ==> Low(v.gpa, v.lg) == Low(req.iova, v.lg)
  {
    hide VReach;
    var v := VWalk(sp, req, m).0;
    if v.VOk? { SpliceParts(v.pte.PPN * PAGE_SIZE, req.iova, v.lg); }
  }

  lemma GLowBits(sp: Space, acc: Access, gpa: nat, m: Store)
    ensures var g := GWalk(sp, acc, gpa, m).0; g.GOk? ==> Low(g.pa, g.lg) == Low(gpa, g.lg)
  {
    hide GReach;
    var g := GWalk(sp, acc, gpa, m).0;
    if g.GOk? { SpliceParts(g.pte.PPN * PAGE_SIZE, gpa, g.lg); }
  }

  /** Both stages' results are 64-bit addresses and their sizes fit. */
  lemma VResultFits(sp: Space, req: Request, m: Store)
    requires ValidSpace(sp)
    ensures var v := VWalk(sp, req, m).0; v.VOk? ==> v.gpa < TWO_64 && 12 <= v.lg <= 56
  {
    hide VReachFrom, VPermits, WellAligned, Malformed;
    var v := VWalk(sp, req, m).0;
    if v.VOk? && sp.vmode.Paged? {
      Pow2Of64();
      VLevelBound(sp, req.iova, m);
      SpliceBound(v.pte.PPN * PAGE_SIZE, req.iova, v.lg, 56);
    }
  }

  lemma GResultFits(sp: Space, acc: Access, gpa: nat, m: Store)
    requires ValidSpace(sp)
    ensures var g := GWalk(sp, acc, gpa, m).0; g.GOk? ==> g.pa < 0x100_0000_0000_0000 && 12 <= g.lg <= 56
  {
    hide GReachFrom, GPermits, WellAligned, Malformed;
    var g := GWalk(sp, acc, gpa, m).0;
    if g.GOk? {
      Pow2Of64();
      GLevelBound(sp, gpa, m);
      SpliceBound(g.pte.PPN * PAGE_SIZE, gpa, g.lg, 56);
    }
  }

  lemma GLevelBound(sp: Space, gpa: nat, m: Store)
    ensures var r := GReach(sp, gpa, m);
            && (sp.gmode.Paged? && r.GLeaf? ==> r.level < sp.gmode.format.Levels() && 12 <= GLg(sp, r) <= 48)
            && (r.GBareLeaf? <==> sp.gmode.Bare?)
  {
    if sp.gmode.Paged? && GpaFits(sp, gpa) {
      var f := sp.gmode.format;
      GReachLevel(sp, Indices(f, f.RootWidening(), gpa), f.Levels() - 1, sp.gppn * PAGE_SIZE, m);
    }
  }

  lemma {:induction false} GReachLevel(sp: Space, vpn: seq<nat>, i: nat, a: nat, m: Store)
    requires sp.gmode.Paged? && i < |vpn|
    ensures var r := GReachFrom(sp, vpn, i, a, m); !r.GBareLeaf? && (r.GLeaf? ==> r.level <= i)
  {
    hide Malformed;
    if i > 0 {
      GReachLevel(sp, vpn, i - 1, Fetch(m, EntrySlot(sp.gmode.format, vpn, i, a)).PPN * PAGE_SIZE, m);
    }
  }

  lemma VLevelBound(sp: Space, iova: nat, m: Store)
    ensures var r := VReach(sp, iova, m).0;
            sp.vmode.Paged? && r.VLeaf? ==> r.level < sp.vmode.format.Levels() && 12 <= VLg(sp, r) <= 48
  {
    hide VReachFrom, Canonical, Indices;
    if sp.vmode.Paged? && VReach(sp, iova, m).0.VLeaf? {
      var f := sp.vmode.format;
      VReachLevel(sp, Indices(f, 0, iova), f.Levels() - 1, sp.vppn * PAGE_SIZE, false, m);
    }
  }

  lemma {:induction false} VReachLevel(sp: Space, vpn: seq<nat>, i: nat, a: nat, global: bool, m: Store)
    requires sp.vmode.Paged? && i < |vpn|
    ensures var r := VReachFrom(sp, vpn, i, a, global, m).0; !r.VBareLeaf? && (r.VLeaf? ==> r.level <= i)
  {
    hide GWalk, Malformed;
    var (g, m1) := GWalk(sp, IMPLICIT, EntrySlot(sp.vmode.format, vpn, i, a).addr, m);
    if g.GOk? && i > 0 {
      var p := Fetch(m1, Slot(g.pa, sp.vmode.format.PteSize()));
      VReachLevel(sp, vpn, i - 1, p.PPN * PAGE_SIZE, global || p.G, m1);
    }
  }

  /** The response fields say what the specification's outcome says. */
  datatype Response = Response(success: bool, cause: nat, iotval2: nat, pa: nat, pageSize: nat, vpte: Pte, gpte: Pte)

  predicate Delivers(rsp: Response, out: Outcome) {
    match out
    case Faulted(cause, iotval2) => !rsp.success && rsp.cause == cause && rsp.iotval2 == iotval2
    case Done(pa, lg, vpte, gpte) => rsp.success && rsp.pa == pa && rsp.pageSize == Pow2(lg) && rsp.vpte == vpte && rsp.gpte == gpte
  }

  function FaultResponse(out: Outcome): Response
    requires out.Faulted?
  {
    Response(false, out.cause, out.iotval2, 0, PAGE_SIZE, ZERO_PTE, ZERO_PTE)
  }

  /** Steps 17 to 19 of `iommu_translate_iova` on a miss. */
  method TranslateMiss(mem: Memory, sp: Space, req: Request) returns (rsp: Response, gpa: nat, loads: nat, atomics: nat)
    requires ValidSpace(sp)
    modifies mem
    ensures mem.store == Translation(sp, req, old(mem.store)).1
    ensures Delivers(rsp, Translation(sp, req, old(mem.store)).0)
    ensures loads <= (VLevels(sp) + 1) * (GLevels(sp) + 1) - 1
    ensures atomics <= VLevels(sp) + 2
  {
    hide VWalk, GWalk, Splice, MaskMerge;
    ghost var m := mem.store;
    var first, vsize, vpte;
    first, gpa, vsize, vpte, loads, atomics := TwoStageAddressTranslation(mem, sp, req);
    ProductBound(VLevels(sp), GLevels(sp));
    if first.VFaulted? { rsp := FaultResponse(VFaultOutcome(req, first.fault)); return; }
    VResultFits(sp, req, m);
    ghost var m1 := mem.store;
    var second, pa, gsize, gpte, l, n := SecondStageAddressTranslation(mem, sp, gpa, Explicit(req));
    loads, atomics := loads + l, atomics + n;
    if second.Fault? { rsp := FaultResponse(GFaultOutcome(req, second.fault, gpa)); return; }
    GResultFits(sp, Explicit(req), gpa, m1);
    vpte := vpte.(PBMT := MergedPbmt(vpte, gpte));
    ghost var v, g := VWalk(sp, req, m).0, GWalk(sp, Explicit(req), gpa, m1).0;
    SizesCompare(v.lg, g.lg);
    var pageSize := if gsize < vsize then gsize else vsize;
    MaskMergeIsSplice(pa, req.iova, Min(v.lg, g.lg));
    rsp := Response(true, 0, 0, MaskMerge(pa, req.iova, pageSize), pageSize, vpte, gpte);
  }

  lemma ProductBound(v: nat, g: nat)
    ensures v * (g + 1) + g == (v + 1) * (g + 1) - 1
  {
  }

  lemma SizesCompare(a: nat, b: nat)
    ensures Pow2(Min(a, b)) == if Pow2(b) < Pow2(a) then Pow2(b) else Pow2(a)
  {
    if a <= b { Pow2Mono(a, b); }
    if b <= a { Pow2Mono(b, a); }
  }
}
