/** The whole translation process in terms of the contexts it locates and of the bits of the words it reads. */
module ProcessRules {
  import opened Bits
  import opened Common
  import opened PageTables
  import opened SecondStage
  import opened TwoStage
  import opened Translate
  import opened AdUpdates
  import opened Superpages
  import opened DeviceContexts
  import opened Directories
  import opened Msi
  import opened TranslationProcess
  import opened LeafRules
  import V = Transparency
  import TransparentRuns
  import MsiTables

  // ---------------------------------------------------------------- the fields of the contexts

  /** The mode field of a stage selects the format; `wide` is SXL for the first stage and GXL for the second. */
  predicate FormatIs(mode: nat, wide: bool, f: Format) {
    (mode == 8 && f == (if wide then Sv32 else Sv39)) || (mode == 9 && f.Sv48?) || (mode == 10 && f.Sv57?)
  }

  /** The request has come to its walks, in memory `m1`, with the first-stage root `fsc` and SUM bit `sum`. */
  predicate Walking(c: Config, ts: Tables, r: Incoming, m: Store, dc: DeviceContext, fsc: Atp, sum: bool, m1: Store) {
    ValidTables(ts) && Usable(c) && RouteOf(c, ts, r, m) == (Walks(dc, fsc, sum), m1)
  }

  /** The page is one for the privilege of the request. */
  predicate ForPrivilege(r: Incoming, sum: bool, p: Pte) {
    if r.pid.Some? && r.priv then p.U ==> sum && !r.exec else p.U
  }

  function Selected(r: Incoming, exec: nat, read: nat, write: nat): nat { if r.exec then exec else if r.read then read else write }

  predicate Refused(m: Store, addr: nat) { addr in m.storeViolations || addr in m.poisoned }

  function FirstTables(c: Config, fsc: Atp, f: Format): Scheme {
    Scheme(f, false, fsc.ppn, c.caps.pas, c.caps.svpbmt, c.caps.svrsw60t59b)
  }

  function SecondTables(c: Config, dc: DeviceContext, f: Format): Scheme {
    Scheme(f, true, dc.iohgatp.ppn, c.caps.pas, c.caps.svpbmt, c.caps.svrsw60t59b)
  }

  lemma FirstFields(c: Config, dc: DeviceContext, fsc: Atp, f: Format)
    requires FormatIs(fsc.mode, dc.tc.sxl, f)
    ensures var sp := SpaceOf(c, dc, fsc);
            && sp.vmode == Paged(f) && FirstScheme(sp) == FirstTables(c, fsc, f)
            && sp.sade == dc.tc.sade && sp.gade == dc.tc.gade
            && (dc.iohgatp.mode == 0 ==> sp.gmode.Bare? && sp.gBareLg == SecondBare(c))
  {
  }

  lemma SecondFields(c: Config, dc: DeviceContext, fsc: Atp, f: Format)
    requires FormatIs(dc.iohgatp.mode, c.gxl, f)
    ensures var sp := SpaceOf(c, dc, fsc);
            && sp.gmode == Paged(f) && SecondScheme(sp) == SecondTables(c, dc, f) && sp.sade == dc.tc.sade && sp.gade == dc.tc.gade
            && sp.sxl == dc.tc.sxl && (fsc.mode == 0 ==> sp.vmode.Bare? && sp.vBareLg == FirstBare(c, dc.tc.sxl))
  {
  }

  /** The address is no interrupt file's, or the MSI page tables are off. */
  predicate NoFile(c: Config, dc: DeviceContext, gpa: nat) {
    dc.msi.mode == 0 || !MsiTables.HasPattern(gpa, dc.msi.pattern, dc.msi.mask, PageBits(c.caps))
  }

  lemma LeftAlone(c: Config, ts: Tables, dc: DeviceContext, gpa: U64, deny: bool, m: Store)
    requires NoFile(c, dc, gpa) && c.caps.pas <= 56
    ensures MsiTranslation(c.caps, dc.msi, ts.ptes, gpa, deny, m).NotMsi?
  {
    MsiTables.OthersGoOn(c.caps, dc.msi, ts.ptes, gpa, deny, m);
  }

  /** What reaches the walks has a checked context, so no MSI page tables without a second stage. */
  lemma BareHasNoFiles(c: Config, ts: Tables, r: Incoming, m: Store, dc: DeviceContext, fsc: Atp, sum: bool, m1: Store)
    requires Walking(c, ts, r, m, dc, fsc, sum, m1) && dc.iohgatp.mode == 0
    ensures dc.msi.mode == 0
  {
    hide Misconfigured, LocateDeviceFrom, LocateProcessFrom;
    FoundDeviceChecked(c, ts.tree, r.id, ts.tree.levels - 1, ts.tree.root * PAGE_SIZE, m);
    MsiNeedsSecond(c, dc);
  }

  lemma MsiNeedsSecond(c: Config, dc: DeviceContext)
    requires !Misconfigured(c, dc) && dc.iohgatp.mode == 0
    ensures dc.msi.mode == 0
  {
    hide ReservedSet, AtsMisconfigured, DirectoryMisconfigured, FirstStageMisconfigured, SecondStageMisconfigured, EndianMisconfigured,
         SxlMisconfigured, QosTooWide;
  }

  // ---------------------------------------------------------------- one stage alone

  /** What a granted request is shown: the rights that both leaves hold. A walk through one stage has a leaf of all
      rights in the place of the other. */
  predicate ShowsRights(r: Incoming, sum: bool, o: Outcome, read: bool, write: bool, exec: bool) {
    && o.Done? && V.Shown(RequestOf(r, sum), o).read == read && V.Shown(RequestOf(r, sum), o).exec == (read && exec && r.exec)
    && TransparentRuns.Writable(o) == write
  }

  function Smaller(a: nat, b: nat): nat { if b < a then b else a }

  /** The size granted and its memory type, the first stage's unless that is PMA. */
  predicate ShowsPage(o: Outcome, bytes: nat, first: nat, second: nat) {
    o.Done? && Pow2(o.lg) == bytes && o.vpte.PBMT == if first != 0 then first else second
  }

  lemma PageShown(o: Outcome, a: nat, b: nat, first: nat, second: nat)
    requires o.Done? && o.lg == Min(a, b) && o.vpte.PBMT == if first != 0 then first else second
    ensures ShowsPage(o, Smaller(Pow2(a), Pow2(b)), first, second)
  {
    SizesCompare(a, b);
    hide Pow2;
  }

  /** The sizes, as logarithms, that a Bare stage reports: the one set for the largest mode there is. */
  function FirstBare(c: Config, sxl: bool): nat {
    if c.caps.sv57 then c.bare.sv57 else if c.caps.sv48 then c.bare.sv48
    else if c.caps.sv39 && !sxl then c.bare.sv39 else if c.caps.sv32 && sxl then c.bare.sv32 else 0
  }

  function SecondBare(c: Config): nat {
    if c.caps.sv57x4 then c.bare.sv57x4 else if c.caps.sv48x4 then c.bare.sv48x4
    else if c.caps.sv39x4 && !c.gxl then c.bare.sv39x4 else if c.caps.sv32x4 && c.gxl then c.bare.sv32x4 else 12
  }

  lemma RightsShown(r: Incoming, sum: bool, o: Outcome)
    requires o.Done?
    ensures ShowsRights(r, sum, o, o.vpte.R && o.gpte.R, o.vpte.W && o.gpte.W && o.vpte.D && o.gpte.D, o.vpte.X && o.gpte.X)
  {
    hide Pow2;
  }

  lemma VFits56(sp: Space, req: Request, m: Store)
    requires sp.vmode.Paged? && ValidSpace(sp)
    ensures var v := VWalk(sp, req, m).0; v.VOk? ==> v.gpa < 0x100_0000_0000_0000
  {
    hide VReachFrom, VPermits, WellAligned, Malformed;
    var v := VWalk(sp, req, m).0;
    if v.VOk? {
      Pow2Of64();
      VLevelBound(sp, req.iova, m);
      NotBare(sp, req.iova, m);
      SpliceBound(v.pte.PPN * PAGE_SIZE, req.iova, v.lg, 56);
    }
  }

  lemma ThroughBare(sp: Space, acc: Access, gpa: nat, m: Store)
    requires sp.gmode.Bare? && ValidSpace(sp) && gpa < 0x100_0000_0000_0000
    ensures var (g, n) := GWalk(sp, acc, gpa, m);
            g.GOk? && g.pa == gpa && n == m && g.pte.R && g.pte.W && g.pte.X && g.pte.D && g.lg == sp.gBareLg && g.pte.PBMT == 0
  {
    BareWalk(sp, acc, gpa, m);
    hide Splice;
  }

  /** Without a second stage the outcome is the first stage's. */
  lemma WithoutSecond(c: Config, ptes: map<nat, MsiPte>, sp: Space, msi: MsiFields, req: Request, m: Store)
    requires ValidSpace(sp) && sp.vmode.Paged? && sp.gmode.Bare? && msi.mode == 0
    ensures var (v, n) := VWalk(sp, req, m);
            var (o, n') := WalksOf(c, ptes, sp, msi, req, m);
            && n' == n && (v.VErr? ==> o == VFaultOutcome(req, v.fault))
            && (v.VOk? ==> o.Done? && o.pa == v.gpa && o.vpte == v.pte && o.lg == Min(v.lg, sp.gBareLg)
                           && o.gpte.R && o.gpte.W && o.gpte.X && o.gpte.D)
  {
    hide VWalk, GWalk, Splice, MsiTranslation, VFaultOutcome;
    WithoutMsi(c, ptes, sp, msi, req, m);
    var (v, n) := VWalk(sp, req, m);
    if v.VOk? {
      VFits56(sp, req, m);
      ThroughBare(sp, Explicit(req), v.gpa, n);
      MergeKeepsAddress(sp, req, m);
    }
  }

  lemma ProcessWalks(c: Config, ts: Tables, r: Incoming, m: Store, dc: DeviceContext, fsc: Atp, sum: bool, m1: Store)
    requires Walking(c, ts, r, m, dc, fsc, sum, m1)
    ensures ValidSpace(SpaceOf(c, dc, fsc))
    ensures Process(c, ts, r, m) == WalksOf(c, ts.ptes, SpaceOf(c, dc, fsc), dc.msi, RequestOf(r, sum), m1)
  {
    hide RouteOf, WalksOf, SpaceOf, RequestOf, BareSizesFit, ValidSpace;
    RoutedSpace(c, ts, r, m);
  }

  /** The first-stage walk of a request, without a second stage, gives its outcome. */
  lemma FirstStageDecides(c: Config, ts: Tables, r: Incoming, m: Store, dc: DeviceContext, fsc: Atp, sum: bool, m1: Store, f: Format)
    requires Walking(c, ts, r, m, dc, fsc, sum, m1) && dc.iohgatp.mode == 0 && FormatIs(fsc.mode, dc.tc.sxl, f)
    ensures var (sp, req) := (SpaceOf(c, dc, fsc), RequestOf(r, sum));
            var ((o, n), (v, n')) := (Process(c, ts, r, m), VWalk(sp, req, m1));
            && ValidSpace(sp) && sp.gmode.Bare? && sp.vmode == Paged(f) && FirstScheme(sp) == FirstTables(c, fsc, f)
            && sp.sade == dc.tc.sade
            && n == n' && (o.Done? <==> v.VOk?)
            && (o.Done? ==> o.pa == v.gpa && ShowsRights(r, sum, o, v.pte.R, v.pte.W && v.pte.D, v.pte.X))
            && (o.Done? ==> ShowsPage(o, Smaller(Pow2(v.lg), Pow2(SecondBare(c))), v.pte.PBMT, 0))
            && (o.Faulted? ==> o.cause == match v.fault
                                          case PageFault => Selected(r, 12, 13, 15)
                                          case WalkAccessFault => Selected(r, 1, 5, 7)
                                          case WalkCorruption => 274
                                          case GuestPageFault(_) => Selected(r, 20, 21, 23))
  {
    hide SpaceOf, ValidSpace, RouteOf, BareSizesFit, VWalk, Process, WalksOf, ShowsRights;
    var sp, req := SpaceOf(c, dc, fsc), RequestOf(r, sum);
    ProcessWalks(c, ts, r, m, dc, fsc, sum, m1);
    FirstFields(c, dc, fsc, f);
    BareHasNoFiles(c, ts, r, m, dc, fsc, sum, m1);
    WithoutSecond(c, ts.ptes, sp, dc.msi, req, m1);
    var o, v := Process(c, ts, r, m).0, VWalk(sp, req, m1).0;
    assert o.Done? <==> v.VOk?;
    if v.VOk? {
      RightsShown(r, sum, o);
      PageShown(o, v.lg, SecondBare(c), v.pte.PBMT, 0);
      assert o.vpte.R == v.pte.R && o.vpte.W == v.pte.W && o.vpte.X == v.pte.X && o.vpte.D == v.pte.D;
      assert ShowsRights(r, sum, o, v.pte.R, v.pte.W && v.pte.D, v.pte.X);
    } else {
      assert o == VFaultOutcome(req, v.fault);
      FaultOf(r, sum, v.fault);
    }
  }

  lemma FaultOf(r: Incoming, sum: bool, f: VFault)
    ensures VFaultOutcome(RequestOf(r, sum), f) ==
              match f
              case PageFault => Faulted(Selected(r, 12, 13, 15), 0)
              case WalkAccessFault => Faulted(Selected(r, 1, 5, 7), 0)
              case WalkCorruption => Faulted(274, 0)
              case GuestPageFault(iotval2) => Faulted(Selected(r, 20, 21, 23), iotval2)
  {
  }

  /** Without a second stage: exactly when the request is granted, where, what it is shown, what is written, and the
      cause it gets otherwise, for the leaf that the tables of the first stage lead to. */
  lemma FirstStageAlone(c: Config, ts: Tables, r: Incoming, m: Store, dc: DeviceContext, fsc: Atp, sum: bool, m1: Store,
                        f: Format, tables: seq<nat>, p: Pte)
    requires Walking(c, ts, r, m, dc, fsc, sum, m1) && dc.iohgatp.mode == 0 && FormatIs(fsc.mode, dc.tc.sxl, f) && SignExtended(f, r.iova)
    requires LeafIn(FirstTables(c, fsc, f), m1, tables, r.iova, p)
    ensures var ((o, n), s) := (Process(c, ts, r, m), FirstTables(c, fsc, f));
            var (k, addr) := (LevelOf(s, tables), AddrIn(s, tables, r.iova));
            var usable := Holds(p, !r.kind.AtsRequest?, r.read, r.write, r.exec) && ForPrivilege(r, sum, p) && MapsAligned(f, k, p);
            var clean := p.A && (p.W && r.write ==> p.D);
            && (o.Done? <==> usable && (clean || (dc.tc.sade && !Refused(m1, addr))))
            && (o.Done? ==> o.pa == MapsTo(f, k, p, r.iova) && ShowsRights(r, sum, o, p.R, p.W && p.D, p.X))
            && (o.Done? ==> ShowsPage(o, Smaller(PageBytes(f, k), Pow2(SecondBare(c))), p.PBMT, 0))
            && n == (if o.Done? && !clean then m1.(words := m1.words[Slot(addr, EntryBytes(f)) := WithBits(p, p.W && r.write)]) else m1)
            && (o.Faulted? ==> o.cause == if !usable || !dc.tc.sade then Selected(r, 12, 13, 15)
                                          else if addr in m1.storeViolations then Selected(r, 1, 5, 7) else 274)
  {
    hide SpaceOf, ValidSpace, RouteOf, MapsTo, MapsAligned, WithBits, LeafIn, AddrIn, LeafRules.Holds, BareSizesFit, VWalk, Process,
         LevelOf, Pow2, PageBytes, SignExtended, ShowsRights, ShowsPage, Usable, FormatIs;
    FirstStageDecides(c, ts, r, m, dc, fsc, sum, m1, f);
    LeafMeans(FirstTables(c, fsc, f), m1, tables, r.iova, p);
    FirstStageWalks(SpaceOf(c, dc, fsc), RequestOf(r, sum), m1, tables, p);
    var v := VWalk(SpaceOf(c, dc, fsc), RequestOf(r, sum), m1).0;
    if v.VErr? { assert v.fault.PageFault? || v.fault.WalkAccessFault? || v.fault.WalkCorruption?; }
  }

  /** Where the first stage finds no leaf the request gets the cause of what its walk meets. */
  lemma FirstStageStops(c: Config, ts: Tables, r: Incoming, m: Store, dc: DeviceContext, fsc: Atp, sum: bool, m1: Store,
                        f: Format, tables: seq<nat>)
    requires Walking(c, ts, r, m, dc, fsc, sum, m1) && dc.iohgatp.mode == 0 && FormatIs(fsc.mode, dc.tc.sxl, f)
    requires Leads(FirstTables(c, fsc, f), m1, tables, r.iova)
    ensures var ((o, n), s) := (Process(c, ts, r, m), FirstTables(c, fsc, f));
            && (!SignExtended(f, r.iova) || DeadEnd(s, m1, tables, r.iova) ==> n == m1 && o.Faulted? && o.cause == Selected(r, 12, 13, 15))
            && (SignExtended(f, r.iova) && LoadIn(s, m1, tables, r.iova).AccessFault? ==>
                  n == m1 && o.Faulted? && o.cause == Selected(r, 1, 5, 7))
            && (SignExtended(f, r.iova) && LoadIn(s, m1, tables, r.iova).DataCorruption? ==> n == m1 && o.Faulted? && o.cause == 274)
  {
    hide SpaceOf, ValidSpace, RouteOf, BareSizesFit, Process, SignExtended, ShowsRights, Usable, FormatIs, DeadEnd, LoadIn, Leads, VReach;
    FirstStageDecides(c, ts, r, m, dc, fsc, sum, m1, f);
    var sp := SpaceOf(c, dc, fsc);
    if SignExtended(f, r.iova) { FirstStageFinds(sp, m1, tables, r.iova); } else { NotSignExtended(sp, m1, r.iova); }
    var q, v := VReach(sp, r.iova, m1).0, VWalk(sp, RequestOf(r, sum), m1).0;
    if q.VStop? { assert v == VErr(q.fault); }
    assert v.VErr? ==> (Process(c, ts, r, m).0).Faulted?;
  }

  // ---------------------------------------------------------------- the second stage alone

  lemma WithoutFirst(c: Config, ptes: map<nat, MsiPte>, sp: Space, msi: MsiFields, req: Request, m: Store)
    requires ValidSpace(sp) && sp.vmode.Bare? && MsiTranslation(c.caps, msi, ptes, req.iova, req.exec && req.check, m).NotMsi?
    ensures var (g, n) := GWalk(sp, Explicit(req), req.iova, m);
            var (o, n') := WalksOf(c, ptes, sp, msi, req, m);
            && n' == n && (g.GErr? ==> o == GFaultOutcome(req, g.fault, req.iova))
            && (g.GOk? ==> o.Done? && o.pa == g.pa && o.gpte == g.pte && o.vpte == V_BARE_PTE.(PBMT := g.pte.PBMT)
                           && o.lg == Min(sp.vBareLg, g.lg))
  {
    hide GWalk, Splice, MsiTranslation, GFaultOutcome;
    MergeKeepsAddress(sp, req, m);
  }

  lemma SecondCause(r: Incoming, sum: bool, f: GFault, gpa: nat)
    ensures GFaultOutcome(RequestOf(r, sum), f, gpa) ==
              match f
              case GstPageFault => Faulted(Selected(r, 20, 21, 23), gpa - gpa % 4)
              case GstAccessFault => Faulted(Selected(r, 1, 5, 7), 0)
              case GstDataCorruption => Faulted(274, 0)
  {
  }

  lemma SecondStageDecides(c: Config, ts: Tables, r: Incoming, m: Store, dc: DeviceContext, fsc: Atp, sum: bool, m1: Store, f: Format)
    requires Walking(c, ts, r, m, dc, fsc, sum, m1) && fsc.mode == 0 && FormatIs(dc.iohgatp.mode, c.gxl, f) && NoFile(c, dc, r.iova)
    ensures var (sp, acc) := (SpaceOf(c, dc, fsc), Access(!r.kind.AtsRequest?, r.read, r.write, r.exec, false));
            var ((o, n), (g, n')) := (Process(c, ts, r, m), GWalk(sp, acc, r.iova, m1));
            && sp.gmode == Paged(f) && SecondScheme(sp) == SecondTables(c, dc, f) && sp.gade == dc.tc.gade && sp.sxl == dc.tc.sxl
            && n == n' && (o.Done? <==> g.GOk?)
            && (o.Done? ==> o.pa == g.pa && o.gpte == g.pte && o.vpte == V_BARE_PTE.(PBMT := g.pte.PBMT))
            && (o.Done? ==> o.lg == Min(FirstBare(c, dc.tc.sxl), g.lg))
            && (g.GErr? ==> o == GFaultOutcome(RequestOf(r, sum), g.fault, r.iova))
            && (o.Faulted? ==> o == match g.fault
                                    case GstPageFault => Faulted(Selected(r, 20, 21, 23), r.iova - r.iova % 4)
                                    case GstAccessFault => Faulted(Selected(r, 1, 5, 7), 0)
                                    case GstDataCorruption => Faulted(274, 0))
  {
    hide SpaceOf, ValidSpace, RouteOf, BareSizesFit, GWalk, Process, WalksOf, ShowsRights, MsiTranslation, NoFile;
    var sp, req := SpaceOf(c, dc, fsc), RequestOf(r, sum);
    ProcessWalks(c, ts, r, m, dc, fsc, sum, m1);
    SecondFields(c, dc, fsc, f);
    LeftAlone(c, ts, dc, r.iova, req.exec && req.check, m1);
    WithoutFirst(c, ts.ptes, sp, dc.msi, req, m1);
    var o, g := Process(c, ts, r, m).0, GWalk(sp, Explicit(req), r.iova, m1).0;
    assert o.Done? <==> g.GOk?;
    if g.GErr? { SecondCause(r, sum, g.fault, r.iova); }
  }

  /** The second-stage leaf `p` is one the request may use; it needs no bit set. */
  predicate SecondUsable(r: Incoming, f: Format, p: Pte, k: nat) {
    p.U && LeafRules.Holds(p, !r.kind.AtsRequest?, r.read, r.write, r.exec) && MapsAligned(f, k, p)
  }

  predicate SecondClean(r: Incoming, p: Pte) { p.A && (p.W && r.write ==> p.D) }

  function SecondStored(r: Incoming, f: Format, addr: nat, p: Pte, m: Store): Store {
    if SecondClean(r, p) then m else m.(words := m.words[Slot(addr, EntryBytes(f)) := WithBits(p, p.W && r.write)])
  }

  /** What the first stage leaves a request: rights, the bytes of its page, and a memory type. */
  datatype FirstLeaves = FirstLeaves(read: bool, write: bool, exec: bool, bytes: nat, pbmt: nat)

  /** What the leaf `p` at `addr`, of level `k`, gives a request for the guest address `gpa` after the first stage:
      whether it is granted, where, what it is shown, what is written, and the cause it gets otherwise. */
  predicate SecondGives(r: Incoming, sum: bool, gade: bool, f: Format, gpa: nat, addr: nat, p: Pte, k: nat, first: FirstLeaves,
                        m: Store, o: Outcome, n: Store)
  {
    && (o.Done? <==> SecondUsable(r, f, p, k) && (SecondClean(r, p) || (gade && !Refused(m, addr))))
    && (o.Done? ==> o.pa == MapsTo(f, k, p, gpa) && ShowsRights(r, sum, o, first.read && p.R, first.write && p.W && p.D, first.exec && p.X))
    && (o.Done? ==> ShowsPage(o, Smaller(first.bytes, PageBytes(f, k)), first.pbmt, p.PBMT))
    && n == (if o.Done? then SecondStored(r, f, addr, p, m) else m)
    && (o.Faulted? ==> o == if !SecondUsable(r, f, p, k) || !gade then Faulted(Selected(r, 20, 21, 23), gpa - gpa % 4)
                            else if addr in m.storeViolations then Faulted(Selected(r, 1, 5, 7), 0) else Faulted(274, 0))
  }

  /** Without a first stage: the same for the leaf that the tables of the second stage lead to. */
  lemma SecondStageAlone(c: Config, ts: Tables, r: Incoming, m: Store, dc: DeviceContext, fsc: Atp, sum: bool, m1: Store,
                         f: Format, tables: seq<nat>, p: Pte)
    requires Walking(c, ts, r, m, dc, fsc, sum, m1) && fsc.mode == 0 && FormatIs(dc.iohgatp.mode, c.gxl, f) && NoFile(c, dc, r.iova)
    requires InWidth(f, dc.tc.sxl, r.iova) && LeafIn(SecondTables(c, dc, f), m1, tables, r.iova, p)
    ensures var (s, (o, n)) := (SecondTables(c, dc, f), Process(c, ts, r, m));
            LevelOf(s, tables) >= 0 &&
            SecondGives(r, sum, dc.tc.gade, f, r.iova, AddrIn(s, tables, r.iova), p, LevelOf(s, tables),
                        FirstLeaves(true, true, true, Pow2(FirstBare(c, dc.tc.sxl)), 0), m1, o, n)
  {
    hide SpaceOf, ValidSpace, RouteOf, MapsTo, MapsAligned, WithBits, LeafIn, AddrIn, LeafRules.Holds, BareSizesFit, GWalk, Process,
         LevelOf, Pow2, PageBytes, InWidth, Usable, FormatIs, NoFile, SecondGives, GReach, GFaultOutcome;
    SecondStageDecides(c, ts, r, m, dc, fsc, sum, m1, f);
    LeafMeans(SecondTables(c, dc, f), m1, tables, r.iova, p);
    var sp, tb := SpaceOf(c, dc, fsc), SecondTables(c, dc, f);
    SecondStageFinds(sp, m1, tables, r.iova);
    LeafGives(sp, r, sum, f, r.iova, AddrIn(tb, tables, r.iova), p, LevelOf(tb, tables), V_BARE_PTE, FirstBare(c, dc.tc.sxl), m1,
              Process(c, ts, r, m).0, Process(c, ts, r, m).1);
  }

  lemma SecondStageStops(c: Config, ts: Tables, r: Incoming, m: Store, dc: DeviceContext, fsc: Atp, sum: bool, m1: Store,
                         f: Format, tables: seq<nat>)
    requires Walking(c, ts, r, m, dc, fsc, sum, m1) && fsc.mode == 0 && FormatIs(dc.iohgatp.mode, c.gxl, f) && NoFile(c, dc, r.iova)
    requires Leads(SecondTables(c, dc, f), m1, tables, r.iova)
    ensures var ((o, n), s, fits) := (Process(c, ts, r, m), SecondTables(c, dc, f), InWidth(f, dc.tc.sxl, r.iova));
            && (!fits || DeadEnd(s, m1, tables, r.iova) ==> n == m1 && o == Faulted(Selected(r, 20, 21, 23), r.iova - r.iova % 4))
            && (fits && LoadIn(s, m1, tables, r.iova).AccessFault? ==> n == m1 && o == Faulted(Selected(r, 1, 5, 7), 0))
            && (fits && LoadIn(s, m1, tables, r.iova).DataCorruption? ==> n == m1 && o == Faulted(274, 0))
  {
    hide SpaceOf, ValidSpace, RouteOf, BareSizesFit, Process, InWidth, ShowsRights, Usable, FormatIs, DeadEnd, LoadIn, Leads, GReach,
         NoFile;
    SecondStageDecides(c, ts, r, m, dc, fsc, sum, m1, f);
    var sp := SpaceOf(c, dc, fsc);
    if InWidth(f, dc.tc.sxl, r.iova) { SecondStageFinds(sp, m1, tables, r.iova); } else { NotInWidth(sp, m1, r.iova); }
  }

  // ---------------------------------------------------------------- both stages

  /** A first-stage leaf found through the second stage is at a level of its format. */
  lemma LeafLevel(sp: Space, iova: nat, m: Store)
    ensures var r := VReach(sp, iova, m).0; sp.vmode.Paged? && r.VLeaf? ==> r.level < Depth(sp.vmode.format) && (r.pte.N ==> r.level == 0)
  {
    VLevelBound(sp, iova, m);
    if sp.vmode.Paged? && VReach(sp, iova, m).0.VLeaf? {
      var f := sp.vmode.format;
      PageSizes(f, 0);
      VNapotLevel(sp, Indices(f, 0, iova), f.Levels() - 1, sp.vppn * PAGE_SIZE, false, m);
    }
  }

  /** The first-stage leaf `q` is one the request may use; it needs no bit set; it may be given the bits it needs. */
  predicate FirstUsable(r: Incoming, sum: bool, f: Format, q: VReached)
    requires q.VLeaf? && q.level < Depth(f)
  {
    && LeafRules.Holds(q.pte, !r.kind.AtsRequest?, r.read, r.write, r.exec) && ForPrivilege(r, sum, q.pte)
    && MapsAligned(f, q.level, q.pte)
  }

  predicate FirstClean(r: Incoming, q: VReached)
    requires q.VLeaf?
  {
    q.pte.A && (q.pte.W && r.write ==> q.pte.D)
  }

  predicate FirstUpdates(dc: DeviceContext, q: VReached, m: Store)
    requires q.VLeaf?
  {
    dc.tc.sade && q.writable && !Refused(m, q.addr)
  }

  /** A first-stage leaf that does not do, found with or without a second stage: the cause, and no word is written
      at the leaf. In particular nothing is without SADE. */
  lemma FirstLeafRefuses(c: Config, ts: Tables, r: Incoming, m: Store, dc: DeviceContext, fsc: Atp, sum: bool, m1: Store, f: Format)
    requires Walking(c, ts, r, m, dc, fsc, sum, m1) && FormatIs(fsc.mode, dc.tc.sxl, f)
    requires var (q, m2) := VReach(SpaceOf(c, dc, fsc), r.iova, m1);
             q.VLeaf? && q.level < Depth(f) && !(FirstUsable(r, sum, f, q) && (FirstClean(r, q) || FirstUpdates(dc, q, m2)))
    ensures var ((q, m2), (o, n)) := (VReach(SpaceOf(c, dc, fsc), r.iova, m1), Process(c, ts, r, m));
            && n == m2
            && o == if !FirstUsable(r, sum, f, q) || !dc.tc.sade then Faulted(Selected(r, 12, 13, 15), 0)
                    else if !q.writable then Faulted(Selected(r, 20, 21, 23), q.table + 3)
                    else if q.addr in m2.storeViolations then Faulted(Selected(r, 1, 5, 7), 0) else Faulted(274, 0)
  {
    hide SpaceOf, ValidSpace, RouteOf, BareSizesFit, Process, WalksOf, VReach, Usable, FormatIs, LeafRules.Holds, MapsAligned, VFinish;
    var sp, req := SpaceOf(c, dc, fsc), RequestOf(r, sum);
    ProcessWalks(c, ts, r, m, dc, fsc, sum, m1);
    FirstFields(c, dc, fsc, f);
    var (q, m2) := VReach(sp, r.iova, m1);
    LeafLevel(sp, r.iova, m1);
    FirstStageGrants(sp, req, m2, q);
    var v := VFinish(sp, req, q, m2).0;
    assert v.VErr?;
    FirstErrorIsOutcome(c, ts.ptes, sp, dc.msi, req, m1);
    FaultOf(r, sum, v.fault);
  }

  lemma FirstErrorIsOutcome(c: Config, ptes: map<nat, MsiPte>, sp: Space, msi: MsiFields, req: Request, m: Store)
    requires ValidSpace(sp) && VWalk(sp, req, m).0.VErr?
    ensures WalksOf(c, ptes, sp, msi, req, m) == (VFaultOutcome(req, VWalk(sp, req, m).0.fault), VWalk(sp, req, m).1)
  {
    hide VWalk;
  }

  /** The memory after a first-stage leaf that does: its bits are set if they have to be. */
  function FirstStored(r: Incoming, f: Format, q: VReached, m: Store): Store
    requires q.VLeaf?
  {
    if FirstClean(r, q) then m else m.(words := m.words[Slot(q.addr, EntryBytes(f)) := WithBits(q.pte, q.pte.W && r.write)])
  }

  lemma FirstLeafPasses(c: Config, ts: Tables, r: Incoming, m: Store, dc: DeviceContext, fsc: Atp, sum: bool, m1: Store, f: Format)
    requires Walking(c, ts, r, m, dc, fsc, sum, m1) && FormatIs(fsc.mode, dc.tc.sxl, f)
    requires var (q, m2) := VReach(SpaceOf(c, dc, fsc), r.iova, m1);
             q.VLeaf? && q.level < Depth(f) && FirstUsable(r, sum, f, q) && (FirstClean(r, q) || FirstUpdates(dc, q, m2))
    ensures ValidSpace(SpaceOf(c, dc, fsc))
    ensures var (q, m2) := VReach(SpaceOf(c, dc, fsc), r.iova, m1);
            var (v, m3) := VWalk(SpaceOf(c, dc, fsc), RequestOf(r, sum), m1);
            && v.VOk? && v.gpa == MapsTo(f, q.level, q.pte, r.iova) && m3 == FirstStored(r, f, q, m2) && v.gpa < TWO_64
            && v.pte == q.pte.(PPN := v.pte.PPN, G := v.pte.G) && Pow2(v.lg) == PageBytes(f, q.level)
  {
    hide SpaceOf, ValidSpace, RouteOf, BareSizesFit, Process, WalksOf, VReach, Usable, FormatIs, LeafRules.Holds, MapsAligned, MapsTo,
         VFinish;
    var sp, req := SpaceOf(c, dc, fsc), RequestOf(r, sum);
    ProcessWalks(c, ts, r, m, dc, fsc, sum, m1);
    FirstFields(c, dc, fsc, f);
    var (q, m2) := VReach(sp, r.iova, m1);
    LeafLevel(sp, r.iova, m1);
    VResultFits(sp, req, m1);
    FirstStageGrants(sp, req, m2, q);
  }

  lemma SecondDecides(c: Config, ptes: map<nat, MsiPte>, sp: Space, msi: MsiFields, req: Request, m: Store)
    requires ValidSpace(sp)
    requires var (v, m1) := VWalk(sp, req, m);
             v.VOk? && v.gpa < TWO_64 && MsiTranslation(c.caps, msi, ptes, v.gpa, req.exec && req.check, m1).NotMsi?
    ensures var (v, m1) := VWalk(sp, req, m);
            var ((g, n), (o, n')) := (GWalk(sp, Explicit(req), v.gpa, m1), WalksOf(c, ptes, sp, msi, req, m));
            && n' == n && (g.GErr? ==> o == GFaultOutcome(req, g.fault, v.gpa))
            && (g.GOk? ==> o.Done? && o.pa == g.pa && o.gpte == g.pte && o.lg == Min(v.lg, g.lg) &&
                           o.vpte == v.pte.(PBMT := MergedPbmt(v.pte, g.pte)))
  {
    hide VWalk, GWalk, Splice, MsiTranslation, GFaultOutcome;
    VResultFits(sp, req, m);
    MergeKeepsAddress(sp, req, m);
  }

  /** The first stage has found `q`, which does, in memory `m2`. */
  ghost predicate FirstPasses(c: Config, ts: Tables, r: Incoming, m: Store, dc: DeviceContext, fsc: Atp, sum: bool, m1: Store,
                              f: Format, q: VReached, m2: Store)
  {
    && Walking(c, ts, r, m, dc, fsc, sum, m1) && FormatIs(fsc.mode, dc.tc.sxl, f)
    && VReach(SpaceOf(c, dc, fsc), r.iova, m1) == (q, m2) && q.VLeaf? && q.level < Depth(f)
    && FirstUsable(r, sum, f, q) && (FirstClean(r, q) || FirstUpdates(dc, q, m2))
  }

  /** Through both stages: after a first-stage leaf that does, exactly when the leaf of the second stage grants the
      request, where, what the request is shown, what is written, and the cause it gets otherwise. */
  lemma BothStages(c: Config, ts: Tables, r: Incoming, m: Store, dc: DeviceContext, fsc: Atp, sum: bool, m1: Store, f: Format, f2: Format,
                   q: VReached, m2: Store, gpa: nat, addr: nat, p: Pte, k: nat)
    requires ValidTables(ts) && Usable(c) && q.VLeaf? && q.level < Depth(f) && k < Depth(f2) && gpa == MapsTo(f, q.level, q.pte, r.iova)
    requires FirstPasses(c, ts, r, m, dc, fsc, sum, m1, f, q, m2) && FormatIs(dc.iohgatp.mode, c.gxl, f2) && NoFile(c, dc, gpa)
    requires GReach(SpaceOf(c, dc, fsc), gpa, FirstStored(r, f, q, m2)) == GLeaf(addr, p, k)
    ensures SecondGives(r, sum, dc.tc.gade, f2, gpa, addr, p, k,
                        FirstLeaves(q.pte.R, q.pte.W && q.pte.D, q.pte.X, PageBytes(f, q.level), q.pte.PBMT), FirstStored(r, f, q, m2),
                        Process(c, ts, r, m).0, Process(c, ts, r, m).1)
  {
    hide SpaceOf, ValidSpace, RouteOf, BareSizesFit, Process, VReach, VWalk, GReach, FormatIs, LeafRules.Holds, MapsAligned, MapsTo, NoFile,
         FirstUsable, FirstUpdates, FirstClean, FirstStored, SecondGives, Usable, GFaultOutcome, GWalk;
    SecondFields(c, dc, fsc, f2);
    FirstLeafPasses(c, ts, r, m, dc, fsc, sum, m1, f);
    var sp, m3, v := SpaceOf(c, dc, fsc), FirstStored(r, f, q, m2), VWalk(SpaceOf(c, dc, fsc), RequestOf(r, sum), m1).0;
    BothDecide(c, ts, r, m, dc, fsc, sum, m1, gpa, m3);
    LeafGives(sp, r, sum, f2, gpa, addr, p, k, v.pte, v.lg, m3, Process(c, ts, r, m).0, Process(c, ts, r, m).1);
  }

  /** The outcome that follows the walk of the second stage is what its leaf gives. */
  lemma LeafGives(sp: Space, r: Incoming, sum: bool, f: Format, gpa: nat, addr: nat, p: Pte, k: nat, v: Pte, lg: nat, m: Store,
                  o: Outcome, n: Store)
    requires sp.gmode == Paged(f) && GReach(sp, gpa, m) == GLeaf(addr, p, k)
    requires var (g, n') := GWalk(sp, Explicit(RequestOf(r, sum)), gpa, m);
             && n == n' && (g.GErr? ==> o == GFaultOutcome(RequestOf(r, sum), g.fault, gpa))
             && (g.GOk? ==> o.Done? && o.pa == g.pa && o.gpte == g.pte && o.lg == Min(lg, g.lg) &&
                            o.vpte == v.(PBMT := MergedPbmt(v, g.pte)))
    ensures SecondGives(r, sum, sp.gade, f, gpa, addr, p, k, FirstLeaves(v.R, v.W && v.D, v.X, Pow2(lg), v.PBMT), m, o, n)
  {
    hide GReach, GWalk, LeafRules.Holds, MapsAligned, MapsTo, ShowsRights, ShowsPage, Pow2, PageBytes, WithBits, GFaultOutcome;
    SecondStageGrants(sp, Explicit(RequestOf(r, sum)), gpa, m, addr, p, k);
    var g := GWalk(sp, Explicit(RequestOf(r, sum)), gpa, m).0;
    if g.GOk? {
      RightsShown(r, sum, o);
      PageShown(o, lg, g.lg, v.PBMT, p.PBMT);
      assert o.gpte.R == p.R && o.gpte.W == p.W && o.gpte.X == p.X && o.gpte.D == p.D;
      assert ShowsRights(r, sum, o, v.R && p.R, v.W && v.D && p.W && p.D, v.X && p.X);
    } else {
      SecondCause(r, sum, g.fault, gpa);
      assert g.fault.GstPageFault? || g.fault.GstAccessFault? || g.fault.GstDataCorruption?;
    }
  }

  /** After the first stage the second decides. */
  lemma BothDecide(c: Config, ts: Tables, r: Incoming, m: Store, dc: DeviceContext, fsc: Atp, sum: bool, m1: Store, gpa: nat, m3: Store)
    requires Walking(c, ts, r, m, dc, fsc, sum, m1) && NoFile(c, dc, gpa) && gpa < TWO_64
    requires var (v, n) := VWalk(SpaceOf(c, dc, fsc), RequestOf(r, sum), m1); v.VOk? && v.gpa == gpa && n == m3
    ensures var req := RequestOf(r, sum);
            var (v, (g, n), (o, n')) := (VWalk(SpaceOf(c, dc, fsc), req, m1).0,
                                         GWalk(SpaceOf(c, dc, fsc), Explicit(req), gpa, m3), Process(c, ts, r, m));
            && n' == n && (g.GErr? ==> o == GFaultOutcome(req, g.fault, gpa))
            && (g.GOk? ==> o.Done? && o.pa == g.pa && o.gpte == g.pte && o.lg == Min(v.lg, g.lg) &&
                           o.vpte == v.pte.(PBMT := MergedPbmt(v.pte, g.pte)))
  {
    PasFits(c, ts, r, m, dc, fsc, sum, m1);
    hide SpaceOf, ValidSpace, RouteOf, Process, WalksOf, VWalk, GWalk, GFaultOutcome, MsiTranslation, NoFile, Usable;
    var sp, req := SpaceOf(c, dc, fsc), RequestOf(r, sum);
    ProcessWalks(c, ts, r, m, dc, fsc, sum, m1);
    LeftAlone(c, ts, dc, gpa, req.exec && req.check, m3);
    SecondDecides(c, ts.ptes, sp, dc.msi, req, m1);
  }

  lemma PasFits(c: Config, ts: Tables, r: Incoming, m: Store, dc: DeviceContext, fsc: Atp, sum: bool, m1: Store)
    requires Walking(c, ts, r, m, dc, fsc, sum, m1)
    ensures c.caps.pas <= 56 && ValidTables(ts) && Usable(c)
  {
  }

  /** So an ATS translation request is granted whatever R, W and X the leaves have, and is shown the rights that both
      have, where an untranslated request is granted only what both have. */
  lemma AtsGetsCommonRights(c: Config, ts: Tables, r: Incoming, m: Store, dc: DeviceContext, fsc: Atp, sum: bool, m1: Store, f: Format,
                            f2: Format, q: VReached, m2: Store, gpa: nat, addr: nat, p: Pte, k: nat)
    requires ValidTables(ts) && Usable(c) && q.VLeaf? && q.level < Depth(f) && k < Depth(f2) && gpa == MapsTo(f, q.level, q.pte, r.iova)
    requires FirstPasses(c, ts, r, m, dc, fsc, sum, m1, f, q, m2) && FormatIs(dc.iohgatp.mode, c.gxl, f2) && NoFile(c, dc, gpa)
    requires GReach(SpaceOf(c, dc, fsc), gpa, FirstStored(r, f, q, m2)) == GLeaf(addr, p, k)
    requires p.U && MapsAligned(f2, k, p) && SecondClean(r, p)
    ensures var o := Process(c, ts, r, m).0;
            && (r.kind.AtsRequest? ==> o.Done?)
            && (!r.kind.AtsRequest? ==>
                  (o.Done? <==> (r.exec ==> q.pte.X && p.X) && (r.read ==> q.pte.R && p.R) && (r.write ==> q.pte.W && p.W)))
            && (o.Done? ==> ShowsRights(r, sum, o, q.pte.R && p.R, (q.pte.W && q.pte.D) && p.W && p.D, q.pte.X && p.X))
  {
    hide SpaceOf, RouteOf, Process, VReach, GReach, MapsAligned, MapsTo, NoFile, Usable, ShowsRights, FormatIs;
    BothStages(c, ts, r, m, dc, fsc, sum, m1, f, f2, q, m2, gpa, addr, p, k);
  }
}
