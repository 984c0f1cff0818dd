/** The IOTLB is invisible: requests give the same responses, and leave memory the same, as when
    every request walks the tables. */
module Transparency {
  import opened Bits
  import opened Common
  import opened PageTables
  import opened SecondStage
  import opened TwoStage
  import opened Translate
  import opened AdUpdates
  import opened Superpages
  import opened Napot
  import opened Iotlb

  /** With SXL set, addresses of one very large page may differ in whether they fit 34 bits. */
  predicate PagesFit(sp: Space) {
    sp.sxl && sp.gmode.Paged? && sp.vmode.Bare? ==> sp.vBareLg <= 34
  }

  /** The tables take `iova` to leaves of both stages with nothing left to update: what a fill can
      record. */
  ghost predicate Finished(sp: Space, iova: U64, m: Store) {
    var (r, n) := VReach(sp, iova, m);
    && n == m && !r.VStop? && (r.VLeaf? <==> sp.vmode.Paged?)
    && (r.VLeaf? ==> WellAligned(sp.vmode.format, r.level, r.pte) && r.pte.A)
    && var q := GReach(sp, VTranslated(sp, iova, r).gpa, m);
       && !q.GStop? && (q.GLeaf? <==> sp.gmode.Paged?)
       && (q.GLeaf? ==> WellAligned(sp.gmode.format, q.level, q.pte) && q.pte.A && q.pte.U)
  }

  /** What an entry says about `iova` is what the tables in `m` say, with nothing left to update:
      the first-stage leaf, the second-stage leaf and the merged address. */
  ghost predicate AgreesAt(e: TlbEntry, sp: Space, iova: U64, m: Store) {
    && Finished(sp, iova, m)
    && var v := VTranslated(sp, iova, VReach(sp, iova, m).0);
       var g := GTranslated(sp, v.gpa, GReach(sp, v.gpa, m));
       && RightsAgree(e, v.pte, g.pte)
       && EntryLg(e) == Min(v.lg, g.lg)
       && SameBlock(e.ppn * PAGE_SIZE, g.pa, EntryLg(e))
  }

  predicate RightsAgree(e: TlbEntry, v: Pte, g: Pte) { FirstAgrees(e, v, g) && SecondAgrees(e, g) }

  predicate FirstAgrees(e: TlbEntry, v: Pte, g: Pte) {
    && e.vsR == v.R && e.vsW == v.W && e.vsX == v.X && e.u == v.U && e.g == v.G && (e.vsD ==> v.D) && e.pbmt == MergedPbmt(v, g)
  }

  predicate SecondAgrees(e: TlbEntry, g: Pte) { e.gR == g.R && e.gW == g.W && e.gX == g.X && (e.gD ==> g.D) }

  predicate Holds(e: TlbEntry, iova: nat) { InRange(iova / PAGE_SIZE, e.vpn, e.s) }

  ghost predicate EntryOk(e: TlbEntry, sp: Space, m: Store) {
    forall iova: U64 :: Holds(e, iova) ==> AgreesAt(e, sp, iova, m)
  }

  // ---------------------------------------------------------------- a hit is a walk

  /** What a response shows: the address and its size, alone and as coded together in `PPN` and `S`,
      memory type and rights. W is left out, since a hit does not return the dirty bits it depends on. */
  datatype Visible =
    | Refused(cause: nat, iotval2: nat)
    | Granted(pa: nat, pageSize: nat, ppn: nat, s: bool, pbmt: nat, read: bool, exec: bool)

  /** `PPN` and `S`: the page number with its low bits replaced by 0111..1 for the size. */
  function GrantedPage(pa: nat, pageSize: nat, pbmt: nat, read: bool, exec: bool): Visible {
    var ppn := if pageSize > 1 then (pa - pa % pageSize + pageSize / 2 - 1) / PAGE_SIZE else 0;
    Granted(pa, pageSize, ppn, pageSize > PAGE_SIZE, pbmt, read, exec)
  }

  function Shown(req: Request, o: Outcome): Visible {
    match o
    case Faulted(cause, iotval2) => Refused(cause, iotval2)
    case Done(pa, lg, v, g) => GrantedPage(pa, Pow2(lg), v.PBMT, v.R && g.R, v.X && g.X && v.R && g.R && req.exec)
  }

  function ShownHit(req: Request, r: Lookup): Visible
    requires !r.Miss?
  {
    match r
    case Fault(cause) => Refused(cause, 0)
    case Hit(pa, size, pbmt, vsR, vsX, gR, gX) => GrantedPage(pa, size, pbmt, vsR && gR, vsX && gX && vsR && gR && req.exec)
  }

  lemma DeniedIsWalk(e: TlbEntry, sp: Space, req: Request, m: Store)
    requires AgreesAt(e, sp, req.iova, m) && (e.tag.pscv <==> sp.vmode.Paged?) && VsDenies(e, req)
    ensures Translation(sp, req, m) == (Faulted(PageFaultCause(req), 0), m)
  {
    hide VReach, GReach, Splice, WellAligned, EntryLg;
    var r := VReach(sp, req.iova, m).0;
    assert r.VLeaf? && !VPermits(req, r.pte);
  }

  lemma AnsweredIsWalk(e: TlbEntry, sp: Space, req: Request, m: Store)
    requires AgreesAt(e, sp, req.iova, m) && (e.tag.pscv <==> sp.vmode.Paged?)
    requires !VsDenies(e, req) && !MustWalk(e, req)
    ensures var v := VTranslated(sp, req.iova, VReach(sp, req.iova, m).0);
            var g := GTranslated(sp, v.gpa, GReach(sp, v.gpa, m));
            Translation(sp, req, m) == (Merge(req.iova, v, g), m)
  {
    hide VReach, GReach, Splice, WellAligned, EntryLg, Merge;
    var r := VReach(sp, req.iova, m).0;
    assert r.VLeaf? ==> VPermits(req, r.pte) && VSettled(req, r.pte);
    var v := VTranslated(sp, req.iova, r);
    assert VWalk(sp, req, m) == (v, m);
    var q := GReach(sp, v.gpa, m);
    assert q.GLeaf? ==> GPermits(Explicit(req), q.pte) && GSettled(sp, Explicit(req), q.pte);
  }

  /** A hit, and a fault the hit reports, are what the walk would have given, and the walk would not
      have changed memory. */
  lemma HitIsWalk(e: TlbEntry, sp: Space, req: Request, m: Store)
    requires AgreesAt(e, sp, req.iova, m) && (e.tag.pscv <==> sp.vmode.Paged?)
    requires !LookupAt(e, req).Miss?
    ensures Translation(sp, req, m).1 == m
    ensures Shown(req, Translation(sp, req, m).0) == ShownHit(req, LookupAt(e, req))
  {
    if VsDenies(e, req) {
      DeniedIsWalk(e, sp, req, m);
    } else {
      AnsweredIsWalk(e, sp, req, m);
      hide VReach, GReach, Splice, WellAligned, EntryLg, Translation, VsDenies, MustWalk, GrantedPage;
      var v := VTranslated(sp, req.iova, VReach(sp, req.iova, m).0);
      var g := GTranslated(sp, v.gpa, GReach(sp, v.gpa, m));
      SpliceDepends(e.ppn * PAGE_SIZE, g.pa, req.iova, EntryLg(e));
    }
  }

  // ---------------------------------------------------------------- entries stay right

  lemma RightsStable(e: TlbEntry, v: Pte, g: Pte, v': Pte, g': Pte)
    requires RightsAgree(e, v, g) && LaterPte(v, v') && LaterPte(g, g')
    ensures RightsAgree(e, v', g')
  {
  }

  predicate LaterPte(p: Pte, q: Pte) { SameButAd(p, q) && (p.A ==> q.A) && (p.D ==> q.D) }

  lemma VTranslatedStable(sp: Space, iova: nat, r: VReached, r': VReached)
    requires VReachStep(r, r') && (r.VLeaf? <==> sp.vmode.Paged?)
    ensures var (v, v') := (VTranslated(sp, iova, r), VTranslated(sp, iova, r'));
            v' == v.(pte := v'.pte) && LaterPte(v.pte, v'.pte)
    ensures r.VLeaf? && WellAligned(sp.vmode.format, r.level, r.pte) ==> WellAligned(sp.vmode.format, r'.level, r'.pte)
  {
    hide Splice, Low;
  }

  lemma GTranslatedStable(sp: Space, gpa: nat, q: GReached, q': GReached)
    requires !q.GStop? && (q.GLeaf? <==> sp.gmode.Paged?)
    requires if q.GLeaf? then q'.GLeaf? && q' == q.(pte := q'.pte) && AdStep(q.pte, q'.pte) else q' == q
    ensures var (g, g') := (GTranslated(sp, gpa, q), GTranslated(sp, gpa, q'));
            g' == g.(pte := g'.pte) && LaterPte(g.pte, g'.pte)
    ensures q.GLeaf? && WellAligned(sp.gmode.format, q.level, q.pte) ==> WellAligned(sp.gmode.format, q'.level, q'.pte)
  {
    if q.GLeaf? { NapotAlike(q.pte, q'.pte, gpa); }
    hide Splice, Low, NapotPpn;
  }

  /** Accessed/dirty updates, of whichever request, leave an entry right. */
  lemma AgreesStable(e: TlbEntry, sp: Space, iova: U64, m: Store, n: Store)
    requires AgreesAt(e, sp, iova, m) && AdExtends(m, n)
    ensures AgreesAt(e, sp, iova, n)
  {
    hide VReach, GReach, VTranslated, GTranslated, WellAligned, EntryLg, Fetch, RightsAgree;
    var r, r' := VReach(sp, iova, m).0, VReach(sp, iova, n).0;
    VReachStable(sp, iova, m, n);
    VTranslatedStable(sp, iova, r, r');
    ExtendsIsSimilar(m, n);
    var v := VTranslated(sp, iova, r);
    GReachSimilar(sp, v.gpa, m, n);
    GLeafInMemory(sp, v.gpa, m);
    var q, q' := GReach(sp, v.gpa, m), GReach(sp, v.gpa, n);
    if q.GLeaf? { AdAt(m, n, Slot(q.addr, sp.gmode.format.PteSize())); }
    GTranslatedStable(sp, v.gpa, q, q');
    RightsStable(e, v.pte, GTranslated(sp, v.gpa, q).pte, VTranslated(sp, iova, r').pte, GTranslated(sp, v.gpa, q').pte);
  }

  /** An entry right about one address of its page is right about all of them. */
  lemma AgreesInPage(e: TlbEntry, sp: Space, x: U64, y: U64, m: Store)
    requires ValidSpace(sp) && PagesFit(sp) && AgreesAt(e, sp, x, m)
    requires SameBlock(x, y, EntryLg(e))
    ensures AgreesAt(e, sp, y, m)
  {
    hide VReach, GReach, Splice, WellAligned, EntryLg;
    var k := EntryLg(e);
    EntryLgAtLeast(e);
    var r := VReach(sp, x, m).0;
    VReachInBlock(sp, x, y, k, m);
    VTranslatedInBlock(sp, x, y, k, m);
    var v, w := VTranslated(sp, x, r), VTranslated(sp, y, r);
    var q := GReach(sp, v.gpa, m);
    TranslatedFits(sp, x, r, m);
    TranslatedFits(sp, y, r, m);
    VLevelBound(sp, x, m);
    if sp.gmode.Paged? { PageFits(sp, v.gpa, w.gpa, k, m); }
    GReachInBlock(sp, v.gpa, w.gpa, k, m);
    GTranslatedInBlock(sp, v.gpa, w.gpa, k, m);
  }

  lemma EntryLgAtLeast(e: TlbEntry)
    ensures EntryLg(e) >= 12
  {
  }

  lemma TranslatedFits(sp: Space, iova: U64, r: VReached, m: Store)
    requires ValidSpace(sp) && r == VReach(sp, iova, m).0 && !r.VStop? && (r.VLeaf? <==> sp.vmode.Paged?)
    ensures VTranslated(sp, iova, r).gpa < TWO_64 && (sp.vmode.Paged? && sp.sxl ==> VTranslated(sp, iova, r).lg <= 34)
  {
    hide VReach, Splice;
    var v := VTranslated(sp, iova, r);
    if sp.vmode.Paged? {
      Pow2Of64();
      VLevelBound(sp, iova, m);
      SpliceBound(v.pte.PPN * PAGE_SIZE, iova, v.lg, 56);
    }
  }

  // ---------------------------------------------------------------- a fill is right

  /** The entry `iommu_translate_iova` caches for a translation, in NAPOT form. */
  function EntryOf(tag: Tag, iova: U64, o: Outcome): (e: TlbEntry)
    requires o.Done? && 12 <= o.lg <= 56 && o.pa < 0x100_0000_0000_0000
    ensures e.valid && e.tag == tag && EntryLg(e) == o.lg && SameBlock(e.ppn * PAGE_SIZE, o.pa, o.lg)
    ensures forall x: nat :: Holds(e, x) <==> SameBlock(x, iova, o.lg)
  {
    NapotPnIsCoded(iova, o.lg);
    Pow2Of64();
    assert Pow2(44) == 16 * Pow2(40);
    CodedBound(o.pa, o.lg, 56);
    CodedRoundTrip(iova, o.lg);
    CodedRoundTrip(o.pa, o.lg);
    CodedPage(o.pa, o.lg);
    TlbEntry(true, tag, Coded(iova, o.lg), o.lg > 12,
             o.vpte.R, o.vpte.W, o.vpte.X, o.vpte.D, o.vpte.U, o.vpte.G, o.vpte.PBMT,
             o.gpte.R, o.gpte.W, o.gpte.X, o.gpte.D, Coded(o.pa, o.lg), 0)
  }

  lemma CodedPage(pa: nat, lg: nat)
    requires lg >= 12
    ensures SameBlock(Coded(pa, lg) * PAGE_SIZE, pa, lg)
  {
    CodedRoundTrip(pa, lg);
    var c := Coded(pa, lg);
    SmallPowers();
    ShrOfMultiple(c, 12, 0);
    ShrShr(c * PAGE_SIZE, 12, lg - 12);
    PageOf(pa, lg);
  }

  /** A translation that left nothing to update, seen as the leaves it reached. */
  ghost predicate ReachedAt(sp: Space, req: Request, o: Outcome, m: Store) {
    && Finished(sp, req.iova, m)
    && var v := VTranslated(sp, req.iova, VReach(sp, req.iova, m).0);
       o == Merge(req.iova, v, GTranslated(sp, v.gpa, GReach(sp, v.gpa, m)))
  }

  lemma FirstUnchanged(sp: Space, req: Request, m: Store)
    requires VWalk(sp, req, m).0.VOk? && AdExtends(VWalk(sp, req, m).1, m)
    ensures VWalk(sp, req, m).1 == m && VReach(sp, req.iova, m).1 == m
    ensures var r := VReach(sp, req.iova, m).0; r.VLeaf? ==> sp.vmode.Paged? && VSettled(req, r.pte)
  {
    hide VReach, Fetch, AdExtends, WellAligned;
    var (r, n1) := VReach(sp, req.iova, m);
    var n2 := VWalk(sp, req, m).1;
    VSearchExtends(sp, req.iova, m);
    VFinishSettles(sp, req, r, n1);
    AdTransitive(n1, n2, m);
    VReachUnchanged(sp, req.iova, m);
    if r.VLeaf? { AdAt(n2, m, Slot(r.addr, sp.vmode.format.PteSize())); }
  }

  lemma DoneIsReached(sp: Space, req: Request, m: Store)
    requires ValidSpace(sp) && Translation(sp, req, m).0.Done? && Translation(sp, req, m).1 == m
    ensures ReachedAt(sp, req, Translation(sp, req, m).0, m)
  {
    var (v, n2) := VWalk(sp, req, m);
    var acc := Explicit(req);
    GWalkExtends(sp, acc, v.gpa, n2);
    FirstUnchanged(sp, req, m);
    GDoneIsSettled(sp, acc, v.gpa, m);
    GLevelBound(sp, v.gpa, m);
    NotBare(sp, req.iova, m);
    hide VReach, GReach, AdExtends, WellAligned, Merge, Splice;
  }

  lemma FillAgrees(tag: Tag, sp: Space, req: Request, m: Store)
    requires ValidSpace(sp) && Translation(sp, req, m).0.Done?
    ensures var (o, n) := Translation(sp, req, m);
            12 <= o.lg <= 56 && o.pa < 0x100_0000_0000_0000 && AgreesAt(EntryOf(tag, req.iova, o), sp, req.iova, n)
  {
    var (o, n) := Translation(sp, req, m);
    OutcomeFits(sp, req, m);
    AdReflexive(n);
    RepeatedTranslation(sp, req, m, n);
    DoneIsReached(sp, req, n);
    hide Translation, VReach, GReach, WellAligned, Splice, EntryOf, EntryLg;
    var v := VTranslated(sp, req.iova, VReach(sp, req.iova, n).0);
    var g := GTranslated(sp, v.gpa, GReach(sp, v.gpa, n));
    SpliceParts(g.pa, req.iova, o.lg);
    EntryRights(tag, req.iova, o, v.pte, g.pte);
  }

  lemma EntryRights(tag: Tag, iova: U64, o: Outcome, v: Pte, g: Pte)
    requires o.Done? && 12 <= o.lg <= 56 && o.pa < 0x100_0000_0000_0000
    requires AdStep(o.vpte, v.(PBMT := MergedPbmt(v, g))) && AdStep(o.gpte, g)
    ensures RightsAgree(EntryOf(tag, iova, o), v, g)
  {
    hide Coded, EntryOf, FirstAgrees, SecondAgrees, AdStep;
    var e := EntryOf(tag, iova, o);
    EntryFields(tag, iova, o);
    FirstRights(e, o.vpte, v, g);
    SecondRights(e, o.gpte, g);
  }

  lemma EntryFields(tag: Tag, iova: U64, o: Outcome)
    requires o.Done? && 12 <= o.lg <= 56 && o.pa < 0x100_0000_0000_0000
    ensures var e, p, q := EntryOf(tag, iova, o), o.vpte, o.gpte;
            && (e.vsR, e.vsW, e.vsX, e.vsD, e.u, e.g, e.pbmt) == (p.R, p.W, p.X, p.D, p.U, p.G, p.PBMT)
            && (e.gR, e.gW, e.gX, e.gD) == (q.R, q.W, q.X, q.D)
  {
    hide Coded, Shr, Pow2;
  }

  lemma FirstRights(e: TlbEntry, p: Pte, v: Pte, g: Pte)
    requires (e.vsR, e.vsW, e.vsX, e.vsD, e.u, e.g, e.pbmt) == (p.R, p.W, p.X, p.D, p.U, p.G, p.PBMT)
    requires AdStep(p, v.(PBMT := MergedPbmt(v, g)))
    ensures FirstAgrees(e, v, g)
  {
    hide MergedPbmt;
  }

  lemma SecondRights(e: TlbEntry, q: Pte, g: Pte)
    requires (e.gR, e.gW, e.gX, e.gD) == (q.R, q.W, q.X, q.D) && AdStep(q, g)
    ensures SecondAgrees(e, g)
  {
  }

  lemma AdReflexive(m: Store)
    ensures AdExtends(m, m)
  {
  }

  lemma OutcomeFits(sp: Space, req: Request, m: Store)
    requires ValidSpace(sp) && Translation(sp, req, m).0.Done?
    ensures var o := Translation(sp, req, m).0; 12 <= o.lg <= 56 && o.pa < 0x100_0000_0000_0000
  {
    hide VWalk, GWalk, Splice;
    var (v, m1) := VWalk(sp, req, m);
    VResultFits(sp, req, m);
    GResultFits(sp, Explicit(req), v.gpa, m1);
    MergeKeepsAddress(sp, req, m);
  }

  // ---------------------------------------------------------------- edits away from an entry's tables

  /** The page-table words a finished second-stage search reads. */
  ghost function GFootFrom(sp: Space, vpn: seq<nat>, i: nat, a: nat, m: Store): set<Slot>
    requires sp.gmode.Paged? && i < |vpn|
    decreases i
  {
    var s := EntrySlot(sp.gmode.format, vpn, i, a);
    {s} + if i == 0 || IsLeaf(Fetch(m, s)) then {} else GFootFrom(sp, vpn, i - 1, Fetch(m, s).PPN * PAGE_SIZE, m)
  }

  ghost function GFoot(sp: Space, gpa: nat, m: Store): set<Slot> {
    if sp.gmode.Bare? then {}
    else var f := sp.gmode.format;
         GFootFrom(sp, Indices(f, f.RootWidening(), gpa), f.Levels() - 1, sp.gppn * PAGE_SIZE, m)
  }

  /** The words a finished first-stage search reads, nested second-stage searches included. */
  ghost function VFootFrom(sp: Space, vpn: seq<nat>, i: nat, a: nat, m: Store): set<Slot>
    requires sp.vmode.Paged? && i < |vpn|
    decreases i
  {
    var entry := EntrySlot(sp.vmode.format, vpn, i, a).addr;
    var g := GWalk(sp, IMPLICIT, entry, m).0;
    if g.GErr? then GFoot(sp, entry, m)
    else
      var s := Slot(g.pa, sp.vmode.format.PteSize());
      GFoot(sp, entry, m) + {s} +
      if i == 0 || IsLeaf(Fetch(m, s)) then {} else VFootFrom(sp, vpn, i - 1, Fetch(m, s).PPN * PAGE_SIZE, m)
  }

  ghost function VFoot(sp: Space, iova: nat, m: Store): set<Slot> {
    if sp.vmode.Bare? then {}
    else VFootFrom(sp, Indices(sp.vmode.format, 0, iova), sp.vmode.format.Levels() - 1, sp.vppn * PAGE_SIZE, m)
  }

  /** All page-table words the translation of `iova` reads. */
  ghost function Footprint(sp: Space, iova: nat, m: Store): set<Slot> {
    var r := VReach(sp, iova, m).0;
    if r.VStop? || (r.VLeaf? && sp.vmode.Bare?) then VFoot(sp, iova, m)
    else VFoot(sp, iova, m) + GFoot(sp, VTranslated(sp, iova, r).gpa, m)
  }

  ghost predicate Untouched(m: Store, n: Store, words: set<Slot>) {
    SameFaults(m, n) && forall s | s in words :: Fetch(n, s) == Fetch(m, s)
  }

  lemma {:induction false} GSearchFrame(sp: Space, vpn: seq<nat>, i: nat, a: nat, m: Store, n: Store)
    requires sp.gmode.Paged? && i < |vpn| && Untouched(m, n, GFootFrom(sp, vpn, i, a, m))
    ensures GReachFrom(sp, vpn, i, a, n) == GReachFrom(sp, vpn, i, a, m)
  {
    hide Fetch;
    var s := EntrySlot(sp.gmode.format, vpn, i, a);
    if i > 0 && !IsLeaf(Fetch(m, s)) {
      GSearchFrame(sp, vpn, i - 1, Fetch(m, s).PPN * PAGE_SIZE, m, n);
    }
  }

  lemma GReachFrame(sp: Space, gpa: nat, m: Store, n: Store)
    requires Untouched(m, n, GFoot(sp, gpa, m))
    ensures GReach(sp, gpa, n) == GReach(sp, gpa, m)
  {
    if sp.gmode.Paged? {
      var f := sp.gmode.format;
      GSearchFrame(sp, Indices(f, f.RootWidening(), gpa), f.Levels() - 1, sp.gppn * PAGE_SIZE, m, n);
    }
  }

  lemma GDoneFrame(sp: Space, acc: Access, gpa: nat, m: Store, n: Store)
    requires GDone(sp, acc, gpa, m) && Untouched(m, n, GFoot(sp, gpa, m))
    ensures GWalk(sp, acc, gpa, n) == (GWalk(sp, acc, gpa, m).0, n)
  {
    hide GReach, WellAligned, GTranslated;
    GReachFrame(sp, gpa, m, n);
    GDoneIsSettled(sp, acc, gpa, m);
  }

  lemma {:induction false} VSearchFrame(sp: Space, vpn: seq<nat>, i: nat, a: nat, global: bool, m: Store, n: Store)
    requires sp.vmode.Paged? && i < |vpn| && Untouched(m, n, VFootFrom(sp, vpn, i, a, m))
    requires VReachFrom(sp, vpn, i, a, global, m).0.VLeaf? && VReachFrom(sp, vpn, i, a, global, m).1 == m
    ensures VReachFrom(sp, vpn, i, a, global, n) == (VReachFrom(sp, vpn, i, a, global, m).0, n)
  {
    hide GWalk, GFoot, Fetch;
    var entry := EntrySlot(sp.vmode.format, vpn, i, a).addr;
    var (g, m1) := GWalk(sp, IMPLICIT, entry, m);
    FirstStepUnchanged(sp, vpn, i, a, global, m);
    GDoneFrame(sp, IMPLICIT, entry, m, n);
    var s := Slot(g.pa, sp.vmode.format.PteSize());
    if !IsLeaf(Fetch(m, s)) {
      var p := Fetch(m, s);
      VSearchFrame(sp, vpn, i - 1, p.PPN * PAGE_SIZE, global || p.G, m, n);
    }
  }

  lemma FirstStepUnchanged(sp: Space, vpn: seq<nat>, i: nat, a: nat, global: bool, m: Store)
    requires sp.vmode.Paged? && i < |vpn|
    requires VReachFrom(sp, vpn, i, a, global, m).0.VLeaf? && VReachFrom(sp, vpn, i, a, global, m).1 == m
    ensures GDone(sp, IMPLICIT, EntrySlot(sp.vmode.format, vpn, i, a).addr, m)
  {
    hide GWalk, Fetch, AdExtends;
    var entry := EntrySlot(sp.vmode.format, vpn, i, a).addr;
    var (g, m1) := GWalk(sp, IMPLICIT, entry, m);
    var p := Fetch(m1, Slot(g.pa, sp.vmode.format.PteSize()));
    GWalkExtends(sp, IMPLICIT, entry, m);
    if !IsLeaf(p) { VReachExtends(sp, vpn, i - 1, p.PPN * PAGE_SIZE, global || p.G, m1); }
    GUnchanged(sp, IMPLICIT, entry, m);
  }

  lemma VReachFrame(sp: Space, iova: nat, m: Store, n: Store)
    requires Untouched(m, n, VFoot(sp, iova, m)) && VReach(sp, iova, m).1 == m && !VReach(sp, iova, m).0.VStop?
    ensures VReach(sp, iova, n) == (VReach(sp, iova, m).0, n)
  {
    hide VReachFrom, VFootFrom;
    if sp.vmode.Paged? {
      NotBare(sp, iova, m);
      var f := sp.vmode.format;
      VSearchFrame(sp, Indices(f, 0, iova), f.Levels() - 1, sp.vppn * PAGE_SIZE, false, m, n);
    }
  }

  /** An edit that misses every word an entry's translation reads leaves the entry right. */
  lemma AgreesFrame(e: TlbEntry, sp: Space, iova: U64, m: Store, n: Store)
    requires AgreesAt(e, sp, iova, m) && Untouched(m, n, Footprint(sp, iova, m))
    ensures AgreesAt(e, sp, iova, n)
  {
    hide VReach, GReach, VFoot, GFoot, WellAligned, EntryLg, Splice, RightsAgree, Fetch;
    var r := VReach(sp, iova, m).0;
    VReachFrame(sp, iova, m, n);
    GReachFrame(sp, VTranslated(sp, iova, r).gpa, m, n);
  }
}
