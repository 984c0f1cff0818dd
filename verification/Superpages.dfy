/** A translation of a page of 2^lg bytes is the translation of every address in that page. */
module Superpages {
  import opened Bits
  import opened Common
  import opened PageTables
  import opened SecondStage
  import opened TwoStage
  import opened Translate
  import opened AdUpdates

  /** `x` and `y` lie in one aligned range of 2^k bytes. */
  predicate SameBlock(x: nat, y: nat, k: nat) { Shr(x, k) == Shr(y, k) }

  predicate IndicesAgree(vpn: seq<nat>, vpn': seq<nat>, from: nat) {
    |vpn| == |vpn'| && forall j | from <= j < |vpn| :: vpn[j] == vpn'[j]
  }

  lemma IndicesInBlock(f: Format, widening: nat, x: nat, y: nat, level: nat, k: nat)
    requires SameBlock(x, y, k) && k <= f.Shift(level)
    ensures IndicesAgree(Indices(f, widening, x), Indices(f, widening, y), level)
  {
    forall j | level <= j < f.Levels() ensures Vpn(f, widening, j, x) == Vpn(f, widening, j, y) {
      ShrAgree(x, y, k, f.Shift(j));
    }
  }

  // ---------------------------------------------------------------- second stage

  lemma {:induction false} GSearchInBlock(sp: Space, vpn: seq<nat>, vpn': seq<nat>, i: nat, a: nat, m: Store)
    requires sp.gmode.Paged? && i < |vpn| == |vpn'|
    requires var r := GReachFrom(sp, vpn, i, a, m); r.GLeaf? && IndicesAgree(vpn, vpn', r.level)
    ensures GReachFrom(sp, vpn', i, a, m) == GReachFrom(sp, vpn, i, a, m)
  {
    hide Malformed, BadPointer, Fetch;
    GReachLevel(sp, vpn, i, a, m);
    var p := Fetch(m, EntrySlot(sp.gmode.format, vpn, i, a));
    if !IsLeaf(p) {
      GSearchInBlock(sp, vpn, vpn', i - 1, p.PPN * PAGE_SIZE, m);
    }
  }

  lemma GReachInBlock(sp: Space, x: nat, y: nat, k: nat, m: Store)
    requires SameBlock(x, y, k) && !GReach(sp, x, m).GStop?
    requires sp.gmode.Paged? ==> GpaFits(sp, y) && k <= GLg(sp, GReach(sp, x, m))
    ensures GReach(sp, y, m) == GReach(sp, x, m)
  {
    if sp.gmode.Paged? {
      var f, r := sp.gmode.format, GReach(sp, x, m);
      GReachLevel(sp, Indices(f, f.RootWidening(), x), f.Levels() - 1, sp.gppn * PAGE_SIZE, m);
      IndicesInBlock(f, f.RootWidening(), x, y, r.level, k);
      GSearchInBlock(sp, Indices(f, f.RootWidening(), x), Indices(f, f.RootWidening(), y), f.Levels() - 1, sp.gppn * PAGE_SIZE, m);
    }
  }

  /** NAPOT entries are found at level 0 only. */
  lemma {:induction false} GNapotLevel(sp: Space, vpn: seq<nat>, i: nat, a: nat, m: Store)
    requires sp.gmode.Paged? && i < |vpn|
    ensures var r := GReachFrom(sp, vpn, i, a, m); r.GLeaf? && r.pte.N ==> r.level == 0
  {
    hide Malformed, BadPointer, Fetch;
    if i > 0 {
      GNapotLevel(sp, vpn, i - 1, Fetch(m, EntrySlot(sp.gmode.format, vpn, i, a)).PPN * PAGE_SIZE, m);
    }
  }

  lemma SamePage(x: nat, y: nat, k: nat)
    requires k <= 12 && SameBlock(x, y, k)
    ensures x / PAGE_SIZE == y / PAGE_SIZE
  {
    ShrAgree(x, y, k, 12);
    SmallPowers();
    LowIsRemainder(x, 12);
    LowIsRemainder(y, 12);
  }

  /** The entry of a Bare stage names the address's own page, the same block for the same block. */
  lemma BareInBlock(x: nat, y: nat, k: nat)
    requires 12 <= k && SameBlock(x, y, k)
    ensures SameBlock(GBarePte(x).PPN * PAGE_SIZE, GBarePte(y).PPN * PAGE_SIZE, k)
  {
    BarePage(x, k);
    BarePage(y, k);
  }

  lemma BarePage(x: nat, k: nat)
    requires 12 <= k
    ensures Shr(GBarePte(x).PPN * PAGE_SIZE, k) == if k <= 56 then Low(Shr(x, k), 56 - k) else 0
  {
    var p := GBarePte(x).PPN;
    SmallPowers();
    Pow2Of64();
    LowIsRemainder(x, 12);
    assert Pow2(44) == 16 * Pow2(40);
    LowIsRemainder(Shr(x, 12), 44);
    assert p == Low(Shr(x, 12), 44);
    ShrOfMultiple(p, 12, 0);
    ShrShr(p * PAGE_SIZE, 12, k - 12);
    if k <= 56 {
      ShrOfLow(Shr(x, 12), 44, k - 12);
      ShrShr(x, 12, k - 12);
    } else {
      LowBound(Shr(x, 12), 44);
      Pow2Mono(44, k - 12);
      ShrZero(p, k - 12);
    }
  }

  lemma GTranslatedInBlock(sp: Space, x: nat, y: nat, k: nat, m: Store)
    requires SameBlock(x, y, k) && 12 <= k && !GReach(sp, x, m).GStop? && GReach(sp, y, m) == GReach(sp, x, m)
    requires sp.gmode.Bare? || GReach(sp, x, m).GLeaf?
    requires k <= GLg(sp, GReach(sp, x, m))
    ensures var (g, h) := (GTranslated(sp, x, GReach(sp, x, m)), GTranslated(sp, y, GReach(sp, x, m)));
            && h.lg == g.lg && SameBlock(g.pa, h.pa, k) && h.pte == g.pte.(PPN := h.pte.PPN)
            && (sp.gmode.Paged? ==> h.pte == g.pte)
  {
    hide Malformed, BadPointer, Fetch;
    var r := GReach(sp, x, m);
    var px, py := GReturned(x, r).PPN * PAGE_SIZE, GReturned(y, r).PPN * PAGE_SIZE;
    var lg := GLg(sp, r);
    if r.GLeaf? {
      var f := sp.gmode.format;
      GNapotLevel(sp, Indices(f, f.RootWidening(), x), f.Levels() - 1, sp.gppn * PAGE_SIZE, m);
      if r.pte.N { SamePage(x, y, k); }
    } else {
      ShrAgree(x, y, k, lg);
      BareInBlock(x, y, lg);
    }
    SpliceDepends(px, py, y, lg);
    SpliceAgree(px, x, y, lg, k);
  }

  /** A successful second-stage walk does the same for every address of the block that fits the mode. */
  lemma GWalkInBlock(sp: Space, acc: Access, x: nat, y: nat, k: nat, m: Store)
    requires SameBlock(x, y, k) && 12 <= k && GWalk(sp, acc, x, m).0.GOk? && k <= GWalk(sp, acc, x, m).0.lg
    requires sp.gmode.Paged? ==> GpaFits(sp, y)
    ensures var (g, h) := (GWalk(sp, acc, x, m), GWalk(sp, acc, y, m));
            && h.1 == g.1 && h.0.GOk? && h.0.lg == g.0.lg && SameBlock(g.0.pa, h.0.pa, k)
            && h.0.pte == g.0.pte.(PPN := h.0.pte.PPN)
  {
    hide GReach, Splice, GReturned, WellAligned;
    GLevelBound(sp, x, m);
    GReachInBlock(sp, x, y, k, m);
    GTranslatedInBlock(sp, x, y, k, m);
  }

  // ---------------------------------------------------------------- first stage

  lemma {:induction false} VSearchInBlock(sp: Space, vpn: seq<nat>, vpn': seq<nat>, i: nat, a: nat, global: bool, m: Store)
    requires sp.vmode.Paged? && i < |vpn| == |vpn'|
    requires var r := VReachFrom(sp, vpn, i, a, global, m).0; r.VLeaf? && IndicesAgree(vpn, vpn', r.level)
    ensures VReachFrom(sp, vpn', i, a, global, m) == VReachFrom(sp, vpn, i, a, global, m)
  {
    hide GWalk, Malformed, BadPointer, Fetch;
    VReachLevel(sp, vpn, i, a, global, m);
    var (g, m1) := GWalk(sp, IMPLICIT, EntrySlot(sp.vmode.format, vpn, i, a).addr, m);
    var p := Fetch(m1, Slot(g.pa, sp.vmode.format.PteSize()));
    if !IsLeaf(p) {
      VSearchInBlock(sp, vpn, vpn', i - 1, p.PPN * PAGE_SIZE, global || p.G, m1);
    }
  }

  lemma {:induction false} VNapotLevel(sp: Space, vpn: seq<nat>, i: nat, a: nat, global: bool, m: Store)
    requires sp.vmode.Paged? && i < |vpn|
    ensures var r := VReachFrom(sp, vpn, i, a, global, m).0; r.VLeaf? && r.pte.N ==> r.level == 0
  {
    hide GWalk, Malformed, BadPointer, Fetch;
    var (g, m1) := GWalk(sp, IMPLICIT, EntrySlot(sp.vmode.format, vpn, i, a).addr, m);
    if g.GOk? && i > 0 {
      var p := Fetch(m1, Slot(g.pa, sp.vmode.format.PteSize()));
      VNapotLevel(sp, vpn, i - 1, p.PPN * PAGE_SIZE, global || p.G, m1);
    }
  }

  /** Canonicity depends on the bits above every leaf's page. */
  lemma CanonicalInBlock(f: Format, x: U64, y: U64, k: nat)
    requires SameBlock(x, y, k) && k <= f.Shift(f.Levels() - 1)
    ensures Canonical(f, x) ==> Canonical(f, y)
  {
    CanonicalMeaning(f, x);
    CanonicalMeaning(f, y);
    ShrAgree(x, y, k, SignBits(f));
  }

  lemma VReachInBlock(sp: Space, x: U64, y: U64, k: nat, m: Store)
    requires SameBlock(x, y, k) && !VReach(sp, x, m).0.VStop?
    requires sp.vmode.Paged? ==> k <= VLg(sp, VReach(sp, x, m).0)
    ensures VReach(sp, y, m) == VReach(sp, x, m)
  {
    hide GWalk, Malformed, BadPointer, Fetch;
    if sp.vmode.Paged? {
      var f, r := sp.vmode.format, VReach(sp, x, m).0;
      VReachLevel(sp, Indices(f, 0, x), f.Levels() - 1, sp.vppn * PAGE_SIZE, false, m);
      CanonicalInBlock(f, x, y, k);
      IndicesInBlock(f, 0, x, y, r.level, k);
      VSearchInBlock(sp, Indices(f, 0, x), Indices(f, 0, y), f.Levels() - 1, sp.vppn * PAGE_SIZE, false, m);
    }
  }

  /** The first-stage results of one block are one block, with the same entry. */
  lemma VTranslatedInBlock(sp: Space, x: U64, y: U64, k: nat, m: Store)
    requires SameBlock(x, y, k) && 12 <= k && !VReach(sp, x, m).0.VStop?
    requires sp.vmode.Paged? <==> VReach(sp, x, m).0.VLeaf?
    requires k <= VLg(sp, VReach(sp, x, m).0)
    ensures var r := VReach(sp, x, m).0;
            var (v, w) := (VTranslated(sp, x, r), VTranslated(sp, y, r));
            w == v.(gpa := w.gpa) && SameBlock(v.gpa, w.gpa, k)
  {
    hide GWalk, Malformed, BadPointer, Fetch;
    var r := VReach(sp, x, m).0;
    if r.VLeaf? {
      var f := sp.vmode.format;
      VNapotLevel(sp, Indices(f, 0, x), f.Levels() - 1, sp.vppn * PAGE_SIZE, false, m);
      if r.pte.N { SamePage(x, y, k); }
      SpliceAgree(VReturned(x, r).PPN * PAGE_SIZE, x, y, VLg(sp, r), k);
    }
  }

  lemma VWalkInBlock(sp: Space, req: Request, y: U64, k: nat, m: Store)
    requires SameBlock(req.iova, y, k) && 12 <= k && VWalk(sp, req, m).0.VOk? && k <= VWalk(sp, req, m).0.lg
    ensures var (v, w) := (VWalk(sp, req, m), VWalk(sp, req.(iova := y), m));
            w.1 == v.1 && w.0.VOk? && w.0 == v.0.(gpa := w.0.gpa) && SameBlock(v.0.gpa, w.0.gpa, k)
  {
    hide VReach, Splice, VReturned, WellAligned;
    NotBare(sp, req.iova, m);
    VReachInBlock(sp, req.iova, y, k, m);
    VTranslatedInBlock(sp, req.iova, y, k, m);
  }

  // ---------------------------------------------------------------- both stages

  /** The guest physical address the first stage gives. */
  function GuestAddress(sp: Space, req: Request, m: Store): nat {
    var v := VWalk(sp, req, m).0;
    if v.VOk? then v.gpa else 0
  }

  predicate GuestFits(sp: Space, gpa: nat) { sp.gmode.Paged? ==> GpaFits(sp, gpa) }

  /** A translation that reports a page of 2^lg bytes holds for every address `y` of that page: the same
      walk, memory and attributes, and the same page with the address's own offset, provided the guest
      address `y` leads to is within the width of the second stage; otherwise `y` has a guest page fault. */
  lemma SameTranslationInPage(sp: Space, req: Request, y: U64, m: Store)
    requires ValidSpace(sp) && Translation(sp, req, m).0.Done?
    requires SameBlock(req.iova, y, Translation(sp, req, m).0.lg)
    ensures var (o, n) := Translation(sp, req, m);
            var (o', n') := Translation(sp, req.(iova := y), m);
            var gpa := GuestAddress(sp, req.(iova := y), m);
            if GuestFits(sp, gpa)
            then n' == n && o'.Done? && o' == o.(pa := Splice(o.pa, y, o.lg), gpte := o.gpte.(PPN := o'.gpte.PPN))
            else n' == VWalk(sp, req, m).1 && o' == GFaultOutcome(req, GstPageFault, gpa)
  {
    hide VWalk, GWalk, Splice;
    var (v, m1) := VWalk(sp, req, m);
    var (g, m2) := GWalk(sp, Explicit(req), v.gpa, m1);
    var k := Min(v.lg, g.lg);
    VResultFits(sp, req, m);
    GResultFits(sp, Explicit(req), v.gpa, m1);
    VWalkInBlock(sp, req, y, k, m);
    var w := VWalk(sp, req.(iova := y), m).0;
    if GuestFits(sp, w.gpa) {
      GWalkInBlock(sp, Explicit(req), v.gpa, w.gpa, k, m1);
      var h := GWalk(sp, Explicit(req), w.gpa, m1).0;
      SpliceParts(g.pa, req.iova, k);
      SpliceDepends(h.pa, g.pa, y, k);
      SpliceDepends(Splice(g.pa, req.iova, k), g.pa, y, k);
    } else {
      GMisfit(sp, Explicit(req), w.gpa, m1);
    }
  }

  lemma GMisfit(sp: Space, acc: Access, gpa: nat, m: Store)
    requires !GuestFits(sp, gpa)
    ensures GWalk(sp, acc, gpa, m) == (GErr(GstPageFault), m)
  {
  }

  /** A second-stage leaf's page never crosses the width of its mode, except that with SXL set a page
      of more than 2^34 bytes holds addresses that the 34-bit rule rejects. */
  lemma PageFits(sp: Space, x: U64, y: U64, k: nat, m: Store)
    requires ValidSpace(sp) && sp.gmode.Paged? && GReach(sp, x, m).GLeaf?
    requires SameBlock(x, y, k) && k <= GLg(sp, GReach(sp, x, m)) && (sp.sxl ==> k <= 34)
    ensures GpaFits(sp, y)
  {
    GLevelBound(sp, x, m);
    var width := if sp.sxl then 34 else match sp.gmode.format case Sv32 => 34 case Sv39 => 41 case Sv48 => 50 case Sv57 => 59;
    WidthConstants();
    ShrAgree(x, y, k, width);
    ShrZero(x, width);
    ShrZero(y, width);
  }

  /** The soundness of caching a whole page: with a page within the 34-bit rule, or without SXL, every
      address of the reported page translates to its own place in the reported physical page. */
  lemma PageTranslation(sp: Space, req: Request, y: U64, m: Store)
    requires ValidSpace(sp) && Translation(sp, req, m).0.Done?
    requires SameBlock(req.iova, y, Translation(sp, req, m).0.lg)
    requires sp.sxl && sp.gmode.Paged? ==> Translation(sp, req, m).0.lg <= 34
    ensures var (o, n) := Translation(sp, req, m);
            var (o', n') := Translation(sp, req.(iova := y), m);
            && n' == n && o'.Done? && o'.pa == Splice(o.pa, y, o.lg) && o'.lg == o.lg
            && o'.vpte == o.vpte && o'.gpte == o.gpte.(PPN := o'.gpte.PPN)
  {
    hide VWalk, GReach, Splice;
    var (v, m1) := VWalk(sp, req, m);
    var k := Translation(sp, req, m).0.lg;
    SameTranslationInPage(sp, req, y, m);
    if sp.gmode.Paged? {
      VResultFits(sp, req, m);
      VResultFits(sp, req.(iova := y), m);
      GResultFits(sp, Explicit(req), v.gpa, m1);
      VWalkInBlock(sp, req, y, k, m);
      GLevelBound(sp, v.gpa, m1);
      PageFits(sp, v.gpa, GuestAddress(sp, req.(iova := y), m), k, m1);
    }
  }
}
