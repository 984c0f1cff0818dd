/** What a request to an interrupt file gets, and one that keeps its address. */
module FileRules {
  import opened Bits
  import opened Common
  import opened PageTables
  import opened SecondStage
  import opened TwoStage
  import opened Translate
  import opened DeviceContexts
  import opened Directories
  import opened Msi
  import opened MsiTables
  import opened TranslationProcess
  import opened LeafRules
  import opened ProcessRules

  /** A valid basic entry, and a valid one of an MRIF where the IOMMU has those. */
  predicate Basic(p: MsiPte) { p.V && !p.C && p.M == 3 && !p.reserved }

  predicate Mrif(c: Config, p: MsiPte) { p.V && !p.C && p.M == 1 && c.caps.msiMrif && !p.mrifReserved }

  /** What the entry `p` at `addr` gives a request after the first stage, whose leaves give it `first`: the entry's page
      with the offset of the request, rights to read and write, and never to execute; otherwise the cause. */
  predicate FileGives(c: Config, r: Incoming, sum: bool, addr: nat, p: MsiPte, first: FirstLeaves, m: Store, o: Outcome) {
    if addr >= Pow2(c.caps.pas) || addr in m.loadViolations then o == Faulted(261, 0)
    else if addr in m.poisoned then o == Faulted(270, 0)
    else
      && (o.Done? <==> (Basic(p) || Mrif(c, p)) && !(r.exec && !r.kind.AtsRequest?))
      && (o.Done? ==> o.pa == (if Basic(p) then p.ppn else p.nppn) * PAGE_SIZE + r.iova % PAGE_SIZE)
      && (o.Done? ==> ShowsRights(r, sum, o, first.read, first.write, false) && ShowsPage(o, PAGE_SIZE, first.pbmt, 0))
      && (o.Faulted? ==> o == Faulted(if !p.V then 262 else if Basic(p) || Mrif(c, p) then 1 else 263, 0))
  }

  /** A request whose first-stage leaf takes it to file `n` gets what that file's entry gives. */
  lemma FileThroughLeaf(c: Config, ts: Tables, r: Incoming, m: Store, dc: DeviceContext, fsc: Atp, sum: bool, m1: Store, f: Format,
                        q: VReached, m2: Store, gpa: U64, n: nat, k: nat)
    requires FirstPasses(c, ts, r, m, dc, fsc, sum, m1, f, q, m2) && gpa == MapsTo(f, q.level, q.pte, r.iova)
    requires ValidTables(ts) && Usable(c) && AtFile(c.caps, dc.msi, gpa, n, k)
    requires PteIn(ts.ptes, dc.msi.ppn * PAGE_SIZE + 16 * n).M < 4
    ensures var ((o, n'), addr) := (Process(c, ts, r, m), dc.msi.ppn * PAGE_SIZE + 16 * n);
            && n' == FirstStored(r, f, q, m2)
            && FileGives(c, r, sum, addr, PteIn(ts.ptes, addr),
                         FirstLeaves(q.pte.R, q.pte.W && q.pte.D, q.pte.X, PageBytes(f, q.level), q.pte.PBMT), n', o)
  {
    hide SpaceOf, ValidSpace, RouteOf, BareSizesFit, Process, VReach, VWalk, WalksOf, FormatIs, MapsTo, FirstUsable, FirstUpdates,
         FirstClean, FirstStored, FileGives, Usable, AtFile;
    var sp, req := SpaceOf(c, dc, fsc), RequestOf(r, sum);
    FirstLeafPasses(c, ts, r, m, dc, fsc, sum, m1, f);
    ProcessWalks(c, ts, r, m, dc, fsc, sum, m1);
    FileDecides(c, ts.ptes, sp, dc.msi, r, sum, m1, n, k);
  }

  /** So for a request without a first stage to the address of file `n`. */
  lemma FileAddressed(c: Config, ts: Tables, r: Incoming, m: Store, dc: DeviceContext, fsc: Atp, sum: bool, m1: Store, n: nat, k: nat)
    requires Walking(c, ts, r, m, dc, fsc, sum, m1) && fsc.mode == 0
    requires ValidTables(ts) && Usable(c) && AtFile(c.caps, dc.msi, r.iova, n, k)
    requires PteIn(ts.ptes, dc.msi.ppn * PAGE_SIZE + 16 * n).M < 4
    ensures var ((o, n'), addr) := (Process(c, ts, r, m), dc.msi.ppn * PAGE_SIZE + 16 * n);
            && n' == m1
            && FileGives(c, r, sum, addr, PteIn(ts.ptes, addr),
                         FirstLeaves(true, true, true, Pow2(FirstBare(c, dc.tc.sxl)), 0), m1, o)
  {
    hide ValidSpace, RouteOf, BareSizesFit, Process, WalksOf, FileGives, Usable, AtFile, Pow2;
    var sp, req := SpaceOf(c, dc, fsc), RequestOf(r, sum);
    ProcessWalks(c, ts, r, m, dc, fsc, sum, m1);
    assert VWalk(sp, req, m1) == (VOk(r.iova, sp.vBareLg, V_BARE_PTE), m1);
    hide SpaceOf, VWalk;
    FileDecides(c, ts.ptes, sp, dc.msi, r, sum, m1, n, k);
    assert sp.vBareLg == FirstBare(c, dc.tc.sxl) by { FirstBareIs(c, dc, fsc); }
  }

  lemma FirstBareIs(c: Config, dc: DeviceContext, fsc: Atp)
    ensures SpaceOf(c, dc, fsc).vBareLg == FirstBare(c, dc.tc.sxl)
  {
  }

  lemma FileDecides(c: Config, ptes: map<nat, MsiPte>, sp: Space, msi: MsiFields, r: Incoming, sum: bool, m: Store, n: nat, k: nat)
    requires ValidSpace(sp)
    requires var v := VWalk(sp, RequestOf(r, sum), m).0; v.VOk? && v.gpa < TWO_64 && AtFile(c.caps, msi, v.gpa, n, k)
    requires PteIn(ptes, msi.ppn * PAGE_SIZE + 16 * n).M < 4
    ensures var ((v, m1), (o, n')) := (VWalk(sp, RequestOf(r, sum), m), WalksOf(c, ptes, sp, msi, RequestOf(r, sum), m));
            var addr := msi.ppn * PAGE_SIZE + 16 * n;
            && n' == m1
            && FileGives(c, r, sum, addr, PteIn(ptes, addr),
                         FirstLeaves(v.pte.R, v.pte.W && v.pte.D, v.pte.X, Pow2(v.lg), v.pte.PBMT), m1, o)
  {
    hide VWalk, AtFile, Pow2, ShowsRights, ShowsPage, MsiTranslation, ValidSpace, Low, WalksOf, Merge, MsiLeaf, Basic, Mrif, PteIn;
    var req := RequestOf(r, sum);
    var ((v, m1), (o, n')) := (VWalk(sp, req, m), WalksOf(c, ptes, sp, msi, req, m));
    VResultFits(sp, req, m);
    VLowBits(sp, req, m);
    var t := MsiTranslation(c.caps, msi, ptes, v.gpa, req.exec && req.check, m1);
    FileServes(c, ptes, msi, v.gpa, req.exec && req.check, m1, n, k);
    WalksAtFile(c, ptes, sp, msi, req, m);
    if t.MsiTranslated? || t.MsiNotice? { FileShown(r, sum, v, t.pa, o); }
  }

  /** What the entry `p` at `addr` makes of an access to `gpa`. */
  predicate Serves(c: Config, addr: nat, p: MsiPte, gpa: nat, deny: bool, m: Store, t: MsiOutcome) {
    if addr >= Pow2(c.caps.pas) || addr in m.loadViolations then t == MsiOutcome.MsiFault(261)
    else if addr in m.poisoned then t == MsiOutcome.MsiFault(270)
    else
      && ((t.MsiTranslated? || t.MsiNotice?) <==> (Basic(p) || Mrif(c, p)) && !deny)
      && (t.MsiTranslated? ==> Basic(p) && t.pa == p.ppn * PAGE_SIZE + gpa % PAGE_SIZE)
      && (t.MsiNotice? ==> !Basic(p) && t.pa == p.nppn * PAGE_SIZE)
      && (t.MsiFault? ==> t.cause == if !p.V then 262 else if Basic(p) || Mrif(c, p) then 1 else 263)
  }

  lemma FileServes(c: Config, ptes: map<nat, MsiPte>, msi: MsiFields, gpa: U64, deny: bool, m: Store, n: nat, k: nat)
    requires AtFile(c.caps, msi, gpa, n, k) && PteIn(ptes, msi.ppn * PAGE_SIZE + 16 * n).M < 4
    ensures var (t, addr) := (MsiTranslation(c.caps, msi, ptes, gpa, deny, m), msi.ppn * PAGE_SIZE + 16 * n);
            !t.NotMsi? && Serves(c, addr, PteIn(ptes, addr), gpa, deny, m, t)
  {
    var addr := msi.ppn * PAGE_SIZE + 16 * n;
    ReadsEntry(c.caps, msi, ptes, gpa, deny, m, n, k);
    PageOffset(PteIn(ptes, addr).ppn, gpa % PAGE_SIZE);
    hide AtFile, Pow2, MsiTranslation, Or, PteIn;
  }

  lemma WalksAtFile(c: Config, ptes: map<nat, MsiPte>, sp: Space, msi: MsiFields, req: Request, m: Store)
    requires ValidSpace(sp)
    requires var (v, m1) := VWalk(sp, req, m);
             v.VOk? && v.gpa < TWO_64 && !MsiTranslation(c.caps, msi, ptes, v.gpa, req.exec && req.check, m1).NotMsi?
    ensures var ((v, m1), (o, n')) := (VWalk(sp, req, m), WalksOf(c, ptes, sp, msi, req, m));
            var t := MsiTranslation(c.caps, msi, ptes, v.gpa, req.exec && req.check, m1);
            && n' == m1
            && o == if t.MsiFault? then Faulted(t.cause, 0) else Merge(req.iova, v, GOk(t.pa, PAGE_SHIFT, MsiLeaf(v.gpa)))
  {
    hide VWalk, MsiTranslation, ValidSpace, Merge, MsiLeaf;
  }

  /** The page of a file has the offset of the request, and one of 4 KiB. */
  lemma FileShown(r: Incoming, sum: bool, v: VResult, pa: nat, o: Outcome)
    requires v.VOk? && 12 <= v.lg && Low(v.gpa, v.lg) == Low(r.iova, v.lg)
    requires o == Merge(r.iova, v, GOk(pa, PAGE_SHIFT, MsiLeaf(v.gpa)))
    ensures o.Done? && o.pa == pa - pa % PAGE_SIZE + r.iova % PAGE_SIZE && r.iova % PAGE_SIZE == v.gpa % PAGE_SIZE
    ensures ShowsRights(r, sum, o, v.pte.R, v.pte.W && v.pte.D, false) && ShowsPage(o, PAGE_SIZE, v.pte.PBMT, 0)
  {
    SmallPowers();
    hide Pow2, Splice, Low, ShowsPage;
    SpliceSums(pa, r.iova, 12);
    LowLow(v.gpa, 12, v.lg);
    LowLow(r.iova, 12, v.lg);
    LowIsRemainder(v.gpa, 12);
    LowIsRemainder(r.iova, 12);
    Pow2Mono(12, v.lg);
    PageShown(o, v.lg, 12, v.pte.PBMT, 0);
  }

  /** A request that keeps its address may read and execute there, in a page of ordinary memory. */
  lemma KeepsItsAddress(c: Config, ts: Tables, r: Incoming, m: Store, m1: Store)
    requires ValidTables(ts) && Usable(c) && RouteOf(c, ts, r, m) == (Identity, m1)
    ensures var (o, n) := Process(c, ts, r, m);
            && o.Done? && n == m1 && o.pa == r.iova && ShowsPage(o, PAGE_SIZE, 0, 0)
            && o.vpte.R && o.vpte.W && o.vpte.X && o.gpte.R && o.gpte.W && o.gpte.X
  {
    hide RouteOf, Usable;
    SmallPowers();
  }
}
