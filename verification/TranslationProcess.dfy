/** The whole translation process, from the tests on a request to the answer an ATS translation request
    gets for each cause it can meet. */
module TranslationProcess {
  import opened Bits
  import opened Common
  import opened PageTables
  import opened SecondStage
  import opened TwoStage
  import opened Translate
  import opened DeviceContexts
  import opened Directories
  import opened DeviceIds
  import opened Msi
  import K = DirectoryCaches

  // ---------------------------------------------------------------- requests

  /** `tr.at` */
  datatype Kind = Untranslated | Translated | AtsRequest

  /** A request; `read`, `write` and `exec` are what `get_attribs_from_req` makes of it, and `priv` its
      "privilege mode requested". */
  datatype Incoming = Incoming(kind: Kind, id: nat, pid: Option<nat>, priv: bool, iova: U64, read: bool, write: bool, exec: bool)

  /** `ddtp.iommu_mode`, the directories, and the MSI page tables by address. */
  datatype Tables = Tables(mode: DirectoryMode, tree: Tree, ptes: map<nat, MsiPte>)

  predicate ValidTables(ts: Tables) { ValidTree(ts.tree) && (ts.mode.Levels? ==> ts.tree.levels == ts.mode.n) }

  // ---------------------------------------------------------------- steps 1 to 16

  /** Where a request goes: to a fault, to its own address, or to the walks with a first-stage root. */
  datatype Route =
    | Stop(cause: nat, iotval2: nat)
    | Identity
    | Walks(dc: DeviceContext, fsc: Atp, sum: bool)

  const NO_FIRST_STAGE := Atp(BARE, 0, 0)

  function GuestCause(r: Incoming): nat { if r.exec then 20 else if r.read then 21 else 23 }

  /** Steps 14 and 15: the process context, and whether it lets supervisors in. */
  function ProcessRoute(c: Config, t: Tree, dc: DeviceContext, r: Incoming, pid: nat, m: Store): (Route, Store) {
    var (l, n) := LocateProcess(c, dc, t, pid, m);
    match l
    case Failed(cause) => (Stop(cause, 0), n)
    case GuestPageFault(gpa) => (Stop(GuestCause(r), gpa - gpa % 4 + 1), n)
    case Found(pc) =>
      if !pc.ens && r.pid.Some? && r.priv then (Stop(260, 0), n) else (Walks(dc, pc.fsc, pc.sum), n)
  }

  /** Steps 7 to 16, once the device context is located. */
  function DeviceRoute(c: Config, t: Tree, dc: DeviceContext, r: Incoming, m: Store): (Route, Store) {
    if !dc.tc.enAts && !r.kind.Untranslated? then (Stop(260, 0), m)
    else if r.pid.Some? && !dc.tc.pdtv then (Stop(260, 0), m)
    else if r.pid.Some? && PidTooWide(dc, r.pid.value) then (Stop(260, 0), m)
    else if r.kind.Translated? then (if dc.tc.t2gpa then Walks(dc, NO_FIRST_STAGE, false) else Identity, m)
    else if !dc.tc.pdtv then (Walks(dc, dc.fsc, false), m)
    else
      var pid := if dc.tc.dpe && r.pid.None? then Some(0) else r.pid;
      if pid.None? || dc.fsc.mode == BARE then (Walks(dc, NO_FIRST_STAGE, pid.Some?), m)
      else ProcessRoute(c, t, dc, r, pid.value, m)
  }

  function RouteOf(c: Config, ts: Tables, r: Incoming, m: Store): (Route, Store)
    requires ValidTables(ts)
  {
    if ts.mode.Off? then (Stop(256, 0), m)
    else if ts.mode.DirectBare? then (if r.kind.Untranslated? then Identity else Stop(260, 0), m)
    else if TooWide(ts.mode.n, c.caps.msiFlat, r.id) then (Stop(260, 0), m)
    else match LocateDevice(c, ts.tree, r.id, m)
      case Failed(cause) => (Stop(cause, 0), m)
      case GuestPageFault(_) => (Identity, m)
      case Found(dc) => DeviceRoute(c, ts.tree, dc, r, m)
  }

  /** The process id is too wide for the process directory of the device. */
  predicate PidTooWide(dc: DeviceContext, pid: nat) {
    (dc.fsc.mode == PD17 && pid >= 0x2_0000) || (dc.fsc.mode == PD8 && pid >= 0x100)
  }

  /** What passes the width tests has the width that the directory caches rely on, if the byte-sized
      index fields of the device id do not deceive the first one. */
  lemma TestsAdmit(c: Config, ts: Tables, id: nat, pid: Option<nat>, m: Store)
    requires ValidTables(ts) && ts.mode.Levels? && id < 0x100_0000 && (pid.Some? ==> pid.value < 0x10_0000)
    requires TooWide(ts.mode.n, c.caps.msiFlat, id) <==> Wider(ts.mode.n, c.caps.msiFlat, id)
    requires !TooWide(ts.mode.n, c.caps.msiFlat, id)
    requires var l := LocateDevice(c, ts.tree, id, m); l.Found? && pid.Some? ==> !PidTooWide(l.ctx, pid.value)
    ensures K.Admitted(c, ts.tree, m, id, pid)
  {
    hide LocateDeviceFrom, TooWide, Wider, IdFits, Misconfigured;
    WiderMeaning(c, ts.tree, id);
    FoundDeviceChecked(c, ts.tree, id, ts.tree.levels - 1, ts.tree.root * PAGE_SIZE, m);
    var l := LocateDevice(c, ts.tree, id, m);
    if l.Found? && K.WantsProcess(l.ctx, pid) { PidWidths(c, l.ctx, pid.value); }
  }

  lemma PidWidths(c: Config, dc: DeviceContext, pid: nat)
    requires !Misconfigured(c, dc) && K.HasDirectory(dc) && pid < 0x10_0000 && !PidTooWide(dc, pid)
    ensures PidFits(dc, pid)
  {
    assert Pow2(8) == 256 && Pow2(16) == 0x1_0000 by { Pow2Plus8(0); Pow2Plus8(8); }
    assert Pow2(17) == 2 * Pow2(16) && Pow2(20) == 16 * Pow2(16);
    hide Pow2, ReservedSet, AtsMisconfigured, SecondStageMisconfigured, EndianMisconfigured, SxlMisconfigured, QosTooWide;
  }

  // ---------------------------------------------------------------- steps 17 to 20

  /** The request as the walks see it. */
  function RequestOf(r: Incoming, sum: bool): Request {
    Request(r.iova, !r.kind.AtsRequest?, r.read, r.write, r.exec, r.pid.Some? && r.priv, sum)
  }

  /** The second-stage entry an MSI translation stands for. */
  function MsiLeaf(gpa: nat): Pte {
    ZERO_PTE.(V := true, R := true, W := true, U := true, A := true, D := true, PPN := gpa / PAGE_SIZE % 0x1000_0000_0000)
  }

  /** Both stages, with the MSI page tables in between. */
  function WalksOf(c: Config, ptes: map<nat, MsiPte>, sp: Space, msi: MsiFields, req: Request, m: Store): (Outcome, Store)
    requires ValidSpace(sp)
  {
    var (v, m1) := VWalk(sp, req, m);
    VResultFits(sp, req, m);
    if v.VErr? then (VFaultOutcome(req, v.fault), m1)
    else match MsiTranslation(c.caps, msi, ptes, v.gpa, req.exec && req.check, m1)
      case MsiFault(cause) => (Faulted(cause, 0), m1)
      case MsiTranslated(pa) => (Merge(req.iova, v, GOk(pa, PAGE_SHIFT, MsiLeaf(v.gpa))), m1)
      case MsiNotice(pa, _, _) => (Merge(req.iova, v, GOk(pa, PAGE_SHIFT, MsiLeaf(v.gpa))), m1)
      case NotMsi =>
        var (g, m2) := GWalk(sp, Explicit(req), v.gpa, m1);
        if g.GErr? then (GFaultOutcome(req, g.fault, v.gpa), m2) else (Merge(req.iova, v, g), m2)
  }

  /** With MSI page tables off these are the two stages of `Translation`. */
  lemma WithoutMsi(c: Config, ptes: map<nat, MsiPte>, sp: Space, msi: MsiFields, req: Request, m: Store)
    requires ValidSpace(sp) && msi.mode == MSI_OFF
    ensures WalksOf(c, ptes, sp, msi, req, m) == Translation(sp, req, m)
  {
    hide VWalk, GWalk, Merge;
  }

  const OPEN_PTE := ZERO_PTE.(R := true, W := true, X := true)

  /** What the checks on contexts establish before a context is used. */
  predicate Usable(c: Config) { c.caps.pas <= 56 && forall sxl :: BareSizesFit(c, sxl) }

  /** The whole process */
  function Process(c: Config, ts: Tables, r: Incoming, m: Store): (Outcome, Store)
    requires ValidTables(ts) && Usable(c)
  {
    var (route, m1) := RouteOf(c, ts, r, m);
    match route
    case Stop(cause, iotval2) => (Faulted(cause, iotval2), m1)
    case Identity => (Done(r.iova, PAGE_SHIFT, OPEN_PTE, OPEN_PTE), m1)
    case Walks(dc, fsc, sum) =>
      RoutedSpace(c, ts, r, m);
      WalksOf(c, ts.ptes, SpaceOf(c, dc, fsc), dc.msi, RequestOf(r, sum), m1)
  }

  /** Contexts that reach the walks have passed the configuration checks. */
  lemma RoutedSpace(c: Config, ts: Tables, r: Incoming, m: Store)
    requires ValidTables(ts) && Usable(c)
    ensures var route := RouteOf(c, ts, r, m).0; route.Walks? ==> ValidSpace(SpaceOf(c, route.dc, route.fsc))
  {
    hide Misconfigured, ProcessMisconfigured, TooWide, LocateDeviceFrom, LocateProcessFrom, SpaceOf, ValidSpace;
    var route := RouteOf(c, ts, r, m).0;
    if route.Walks? {
      FoundDeviceChecked(c, ts.tree, r.id, ts.tree.levels - 1, ts.tree.root * PAGE_SIZE, m);
      var dc := route.dc;
      if dc.tc.pdtv && route.fsc != NO_FIRST_STAGE {
        var pid := if r.pid.None? then 0 else r.pid.value;
        FoundProcessChecked(c, dc, ts.tree, pid, ProcessLevels(dc) - 1, dc.fsc.ppn * PAGE_SIZE, m);
        var pc := LocateProcess(c, dc, ts.tree, pid, m).0.ctx;
        assert !ProcessMisconfigured(c, dc, ProcessContext(pc.ta, pc.ens, pc.sum, pc.fsc));
      }
      AcceptedIsWellDefined(c, dc, route.fsc);
    }
  }

  lemma {:induction false} FoundDeviceChecked(c: Config, t: Tree, id: nat, i: nat, a: nat, m: Store)
    ensures var l := LocateDeviceFrom(c, t, id, i, a, m); l.Found? ==> !Misconfigured(c, l.ctx)
    decreases i
  {
    hide DeviceIndex, Misconfigured, Pow2, LoadStatus;
    if i > 0 {
      var e := EntryIn(t.ddtes, a + DeviceIndex(c.caps.msiFlat, i, id) * 8);
      FoundDeviceChecked(c, t, id, i - 1, e.ppn * PAGE_SIZE, m);
    }
  }

  lemma {:induction false} FoundProcessChecked(c: Config, dc: DeviceContext, t: Tree, pid: nat, i: nat, a: nat, m: Store)
    ensures var l := LocateProcessFrom(c, dc, t, pid, i, a, m).0; l.Found? ==> !ProcessMisconfigured(c, dc, l.ctx)
    decreases i
  {
    hide GWalk, ProcessEntry, Pow2, DirectorySpace, LoadStatus, ProcessMisconfigured;
    var (g, n) := GWalk(DirectorySpace(c, dc), DIRECTORY_READ, ProcessEntry(i, pid, a), m);
    if g.GOk? && i > 0 { FoundProcessChecked(c, dc, t, pid, i - 1, EntryIn(t.pdtes, g.pa).ppn * PAGE_SIZE, n); }
  }

  // ---------------------------------------------------------------- responses

  /** How a request is answered; `reported` tells whether a fault record is asked for. */
  datatype Answer =
    | Granted
    | EmptySuccess
    | UnsupportedRequest(reported: bool)
    | CompleterAbort(reported: bool)
    | Unanswered

  predicate Aborts(cause: nat) { cause in {1, 5, 7, 261, 263, 265, 267, 268, 269, 270, 271, 272, 274} }

  predicate Unsupported(cause: nat) { cause in {256, 257, 258, 259, 260} }

  predicate Empty(cause: nat) { cause in {12, 13, 15, 20, 21, 23, 262, 266} }

  /** `stop_and_report_fault`; a cause of none of the classes would get no answer. */
  function AnswerTo(kind: Kind, o: Outcome): Answer {
    match o
    case Done(_, _, _, _) => Granted
    case Faulted(cause, _) =>
      if !kind.AtsRequest? then UnsupportedRequest(true)
      else if Aborts(cause) then CompleterAbort(true)
      else if Unsupported(cause) then UnsupportedRequest(true)
      else if Empty(cause) then EmptySuccess
      else Unanswered
  }

  /** Each cause is in at most one class. */
  lemma ClassesApart(cause: nat)
    ensures !(Aborts(cause) && Unsupported(cause)) && !(Aborts(cause) && Empty(cause)) && !(Unsupported(cause) && Empty(cause))
  {
  }

  predicate Answered(cause: nat) { Aborts(cause) || Unsupported(cause) || Empty(cause) }

  lemma RouteCauses(c: Config, ts: Tables, r: Incoming, m: Store)
    requires ValidTables(ts)
    ensures var route := RouteOf(c, ts, r, m).0; route.Stop? ==> Answered(route.cause)
  {
    hide TooWide, LocateDeviceFrom, LocateProcessFrom;
    DeviceCauses(c, ts.tree, r.id, ts.tree.levels - 1, ts.tree.root * PAGE_SIZE, m);
    var l := LocateDevice(c, ts.tree, r.id, m);
    if l.Found? {
      var dc := l.ctx;
      var pid := if r.pid.None? then 0 else r.pid.value;
      ProcessCauses(c, dc, ts.tree, pid, ProcessLevels(dc) - 1, dc.fsc.ppn * PAGE_SIZE, m);
    }
  }

  lemma MsiCauses(caps: Capabilities, msi: MsiFields, ptes: map<nat, MsiPte>, gpa: U64, deny: bool, m: Store)
    ensures var r := MsiTranslation(caps, msi, ptes, gpa, deny, m); r.MsiFault? ==> r.cause in {1, 261, 262, 263, 270}
  {
    hide Pow2, IsMsi, FileNumber, Or;
  }

  lemma StageCauses(req: Request, v: VFault, g: GFault, gpa: nat)
    ensures Answered(VFaultOutcome(req, v).cause) && Answered(GFaultOutcome(req, g, gpa).cause)
  {
  }

  lemma WalkCauses(c: Config, ptes: map<nat, MsiPte>, sp: Space, msi: MsiFields, req: Request, m: Store)
    requires ValidSpace(sp)
    ensures var o := WalksOf(c, ptes, sp, msi, req, m).0; o.Faulted? ==> Answered(o.cause)
  {
    hide VWalk, GWalk, Splice, MsiTranslation, VFaultOutcome, GFaultOutcome;
    VResultFits(sp, req, m);
    var (v, m1) := VWalk(sp, req, m);
    if v.VErr? {
      StageCauses(req, v.fault, GstPageFault, 0);
    } else {
      MsiCauses(c.caps, msi, ptes, v.gpa, req.exec && req.check, m1);
      if MsiTranslation(c.caps, msi, ptes, v.gpa, req.exec && req.check, m1).NotMsi? {
        var g := GWalk(sp, Explicit(req), v.gpa, m1).0;
        if g.GErr? { StageCauses(req, PageFault, g.fault, v.gpa); }
      }
    }
  }

  /** Every ATS translation request is answered: whatever stops it, from the first test to the last
      walk, is of exactly one class; and its answer is a success without rights, unreported, exactly for
      the causes of missing or unusable entries. */
  lemma EveryRequestIsAnswered(c: Config, ts: Tables, r: Incoming, m: Store)
    requires ValidTables(ts) && Usable(c)
    ensures var o := Process(c, ts, r, m).0;
            && !AnswerTo(r.kind, o).Unanswered?
            && (o.Faulted? ==> Answered(o.cause))
            && (AnswerTo(r.kind, o).EmptySuccess? <==> o.Faulted? && r.kind.AtsRequest? && Empty(o.cause))
  {
    hide RouteOf, WalksOf, Aborts, Unsupported, Empty;
    var (route, m1) := RouteOf(c, ts, r, m);
    RouteCauses(c, ts, r, m);
    if route.Walks? {
      RoutedSpace(c, ts, r, m);
      WalkCauses(c, ts.ptes, SpaceOf(c, route.dc, route.fsc), route.dc.msi, RequestOf(r, route.sum), m1);
    }
    if (Process(c, ts, r, m).0).Faulted? { ClassesApart((Process(c, ts, r, m).0).cause); }
  }

  // ---------------------------------------------------------------- the code

  /** Steps 1 to 16 of `iommu_translate_iova`; the contexts come from their directories. */
  method RouteCode(c: Config, ts: Tables, r: Incoming, mem: Memory) returns (route: Route)
    requires ValidTables(ts) && Usable(c)
    modifies mem
    ensures (route, mem.store) == RouteOf(c, ts, r, old(mem.store))
  {
    hide TooWide, LocateDeviceFrom, LocateProcessFrom, Misconfigured;
    if ts.mode.Off? { return Stop(256, 0); }
    if ts.mode.DirectBare? {
      if r.kind.Translated? || r.kind.AtsRequest? { return Stop(260, 0); }
      return Identity;
    }
    if TooWide(ts.mode.n, c.caps.msiFlat, r.id) { return Stop(260, 0); }
    var l := LocateDeviceCode(c, ts.tree, r.id, mem);
    DeviceCauses(c, ts.tree, r.id, ts.tree.levels - 1, ts.tree.root * PAGE_SIZE, mem.store);
    if l.Failed? { return Stop(l.cause, 0); }
    FoundDeviceChecked(c, ts.tree, r.id, ts.tree.levels - 1, ts.tree.root * PAGE_SIZE, mem.store);
    route := DeviceRouteCode(c, ts.tree, l.ctx, r, mem);
  }

  method DeviceRouteCode(c: Config, t: Tree, dc: DeviceContext, r: Incoming, mem: Memory) returns (route: Route)
    requires Usable(c) && !Misconfigured(c, dc)
    modifies mem
    ensures (route, mem.store) == DeviceRoute(c, t, dc, r, old(mem.store))
  {
    hide LocateProcess, Misconfigured, BareSizesFit;
    if !dc.tc.enAts && (r.kind.Translated? || r.kind.AtsRequest?) { return Stop(260, 0); }
    if r.pid.Some? && !dc.tc.pdtv { return Stop(260, 0); }
    if r.pid.Some? && dc.tc.pdtv {
      if dc.fsc.mode == PD17 && r.pid.value > 0x1_FFFF { return Stop(260, 0); }
      if dc.fsc.mode == PD8 && r.pid.value > 0xFF { return Stop(260, 0); }
    }
    if r.kind.Translated? && !dc.tc.t2gpa { return Identity; }
    if r.kind.Translated? && dc.tc.t2gpa { return Walks(dc, NO_FIRST_STAGE, false); }
    if !dc.tc.pdtv { return Walks(dc, dc.fsc, false); }
    var pid, priv := r.pid, r.priv;
    if dc.tc.dpe && pid.None? { pid, priv := Some(0), false; }
    if pid.None? || dc.fsc.mode == BARE { return Walks(dc, NO_FIRST_STAGE, pid.Some?); }
    var l := LocateProcessCode(c, dc, t, pid.value, mem);
    match l {
      case Failed(cause) => return Stop(cause, 0);
      case GuestPageFault(gpa) =>
        var cause := if r.exec then 20 else if r.read then 21 else 23;
        return Stop(cause, gpa - gpa % 4 + 1);
      case Found(pc) =>
        if !pc.ens && pid.Some? && priv { return Stop(260, 0); }
        return Walks(dc, pc.fsc, pc.sum);
    }
  }

  /** Steps 17 to 19 on a miss, with MSI page tables */
  method WalksCode(c: Config, ptes: map<nat, MsiPte>, sp: Space, msi: MsiFields, req: Request, mem: Memory) returns (rsp: Response)
    requires ValidSpace(sp) && c.caps.pas <= 56
    modifies mem
    ensures mem.store == WalksOf(c, ptes, sp, msi, req, old(mem.store)).1
    ensures Delivers(rsp, WalksOf(c, ptes, sp, msi, req, old(mem.store)).0)
  {
    hide VWalk, GWalk, Splice, MaskMerge, MsiTranslation;
    ghost var m := mem.store;
    var first, gpa, vsize, vpte, loads, atomics := TwoStageAddressTranslation(mem, sp, req);
    if first.VFaulted? { rsp := FaultResponse(VFaultOutcome(req, first.fault)); return; }
    VResultFits(sp, req, m);
    ghost var v, m1 := VWalk(sp, req, m).0, mem.store;
    var msiResult := MsiAddressTranslation(c.caps, msi, ptes, gpa, req.exec && req.check, mem);
    var pa, gsize, gpte;
    ghost var lg := PAGE_SHIFT;
    if msiResult.MsiFault? { rsp := FaultResponse(Faulted(msiResult.cause, 0)); return; }
    if !msiResult.NotMsi? {
      pa, gsize, gpte := msiResult.pa, PAGE_SIZE, MsiLeaf(gpa);
      SmallPowers();
      MsiAddressBound(c.caps, msi, ptes, gpa, req.exec && req.check, mem.store);
    } else {
      var second, l, n;
      second, pa, gsize, gpte, l, n := SecondStageAddressTranslation(mem, sp, gpa, Explicit(req));
      if second.Fault? { rsp := FaultResponse(GFaultOutcome(req, second.fault, gpa)); return; }
      GResultFits(sp, Explicit(req), gpa, m1);
      lg := GWalk(sp, Explicit(req), gpa, m1).0.lg;
    }
    rsp := MergeCode(req, gpa, vsize, vpte, v, pa, gsize, gpte, lg);
  }

  /** The resolved memory type, size and address */
  method MergeCode(req: Request, gpa: nat, vsize: nat, vpte: Pte, ghost v: VResult, pa: U64, gsize: nat, gpte: Pte, ghost lg: nat)
    returns (rsp: Response)
    requires v.VOk? && vsize == Pow2(v.lg) && vpte == v.pte && gsize == Pow2(lg) && 12 <= v.lg <= 56 && 12 <= lg <= 56
    ensures Delivers(rsp, Merge(req.iova, v, GOk(pa, lg, gpte)))
  {
    hide Splice, MaskMerge, Pow2;
    var merged := vpte.(PBMT := MergedPbmt(vpte, gpte));
    SizesCompare(v.lg, lg);
    var pageSize := if gsize < vsize then gsize else vsize;
    MaskMergeIsSplice(pa, req.iova, Min(v.lg, lg));
    rsp := Response(true, 0, 0, MaskMerge(pa, req.iova, pageSize), pageSize, merged, gpte);
  }

  lemma MsiAddressBound(caps: Capabilities, msi: MsiFields, ptes: map<nat, MsiPte>, gpa: U64, deny: bool, m: Store)
    ensures var r := MsiTranslation(caps, msi, ptes, gpa, deny, m); r.MsiTranslated? || r.MsiNotice? ==> r.pa < TWO_64
  {
    hide Pow2, IsMsi, FileNumber;
    forall ppn: Ppn, off: nat | off < PAGE_SIZE ensures Or(ppn * PAGE_SIZE, off) == ppn * PAGE_SIZE + off {
      SmallPowers();
      ShrOfMultiple(ppn, 12, 0);
      OrIsPlus(ppn * PAGE_SIZE, off, 12);
    }
    hide Or;
  }

  /** `iommu_translate_iova` up to the response, for a request the IOATC does not answer */
  method TranslateRequest(c: Config, ts: Tables, r: Incoming, mem: Memory) returns (rsp: Response)
    requires ValidTables(ts) && Usable(c)
    modifies mem
    ensures mem.store == Process(c, ts, r, old(mem.store)).1
    ensures Delivers(rsp, Process(c, ts, r, old(mem.store)).0)
  {
    hide RouteOf, WalksOf, SpaceOf, BareSizesFit;
    ghost var m := mem.store;
    var route := RouteCode(c, ts, r, mem);
    RoutedSpace(c, ts, r, m);
    match route {
      case Stop(cause, iotval2) => rsp := FaultResponse(Faulted(cause, iotval2));
      case Identity =>
        SmallPowers();
        rsp := Response(true, 0, 0, r.iova, PAGE_SIZE, OPEN_PTE, OPEN_PTE);
      case Walks(dc, fsc, sum) => rsp := WalksCode(c, ts.ptes, SpaceOf(c, dc, fsc), dc.msi, RequestOf(r, sum), mem);
    }
  }
}
