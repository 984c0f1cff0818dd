/** Device and process contexts: what the configuration checks accept, and that whatever they accept
    gives every walk a defined format, a defined page size and offsets inside its tables. */
module DeviceContexts {
  import opened Bits
  import opened Common
  import opened PageTables
  import opened SecondStage

  // ---------------------------------------------------------------- contexts

  datatype Capabilities = Capabilities(
    pas: nat, ats: bool, t2gpa: bool, msiFlat: bool, msiMrif: bool, pd20: bool, pd17: bool, pd8: bool,
    sv32: bool, sv39: bool, sv48: bool, sv57: bool, sv32x4: bool, sv39x4: bool, sv48x4: bool, sv57x4: bool,
    amoHwad: bool, end: bool, qosid: bool, svpbmt: bool, svrsw60t59b: bool)

  /** The page sizes reported for Bare stages, as logarithms. */
  datatype BareSizes = BareSizes(sv57: nat, sv48: nat, sv39: nat, sv32: nat, sv57x4: nat, sv48x4: nat, sv39x4: nat, sv32x4: nat)

  datatype Config = Config(caps: Capabilities, gxl: bool, gxlWriteable: bool, be: bool, beWriteable: bool,
                           rcidMask: U64, mcidMask: U64, bare: BareSizes)

  /** `iosatp`, `iohgatp` and `pdtp`: a mode, a root page and reserved bits (of `iohgatp`, the GSCID). */
  datatype Atp = Atp(mode: nat, ppn: Ppn, rest: nat)

  datatype TranslationControl = TranslationControl(
    enAts: bool, enPri: bool, t2gpa: bool, dtf: bool, pdtv: bool, prpr: bool, gade: bool, sade: bool, dpe: bool,
    sbe: bool, sxl: bool, reserved0: nat, reserved1: nat)

  datatype Attributes = Attributes(pscid: nat, rcid: U64, mcid: U64, reserved0: nat, reserved1: nat)

  /** `msiptp`, the address mask and pattern, and the fields of the extended format that must be clear. */
  datatype MsiFields = MsiFields(mode: nat, ppn: Ppn, mask: U64, pattern: U64,
                                 reserved: nat, maskReserved: nat, patternReserved: nat, tailReserved: nat)

  datatype DeviceContext = DeviceContext(tc: TranslationControl, iohgatp: Atp, ta: Attributes, fsc: Atp, msi: MsiFields)

  datatype ProcessContext = ProcessContext(ta: Attributes, ens: bool, sum: bool, fsc: Atp)

  const BARE := 0
  const SV32_OR_39 := 8
  const SV48 := 9
  const SV57 := 10
  const PD8 := 1
  const PD17 := 2
  const PD20 := 3
  const MSI_OFF := 0
  const MSI_FLAT := 1

  // ---------------------------------------------------------------- the checks

  predicate ReservedSet(c: Config, dc: DeviceContext) {
    || (c.caps.msiFlat && (dc.msi.tailReserved != 0 || dc.msi.reserved != 0 || dc.msi.maskReserved != 0 || dc.msi.patternReserved != 0))
    || dc.tc.reserved0 != 0 || dc.tc.reserved1 != 0
    || dc.fsc.rest != 0
    || dc.ta.reserved0 != 0 || dc.ta.reserved1 != 0
    || (!c.caps.qosid && (dc.ta.rcid != 0 || dc.ta.mcid != 0))
  }

  predicate AtsMisconfigured(c: Config, dc: DeviceContext) {
    || ((dc.tc.enAts || dc.tc.enPri || dc.tc.prpr) && !c.caps.ats)
    || (!dc.tc.enAts && dc.tc.t2gpa)
    || (!dc.tc.enAts && dc.tc.enPri)
    || (!dc.tc.enPri && dc.tc.prpr)
    || (dc.tc.t2gpa && !c.caps.t2gpa)
    || (dc.tc.t2gpa && dc.iohgatp.mode == BARE)
  }

  predicate DirectoryMisconfigured(c: Config, mode: nat) {
    || (mode != BARE && mode != PD20 && mode != PD17 && mode != PD8)
    || (mode == PD20 && !c.caps.pd20) || (mode == PD17 && !c.caps.pd17) || (mode == PD8 && !c.caps.pd8)
  }

  predicate FirstStageMisconfigured(c: Config, sxl: bool, mode: nat) {
    || (!sxl && mode != BARE && mode != SV32_OR_39 && mode != SV48 && mode != SV57)
    || (sxl && mode != BARE && mode != SV32_OR_39)
    || (!sxl && ((mode == SV32_OR_39 && !c.caps.sv39) || (mode == SV48 && !c.caps.sv48) || (mode == SV57 && !c.caps.sv57)))
    || (sxl && mode == SV32_OR_39 && !c.caps.sv32)
  }

  predicate SecondStageMisconfigured(c: Config, g: Atp) {
    || (!c.gxl && g.mode != BARE && g.mode != SV32_OR_39 && g.mode != SV48 && g.mode != SV57)
    || (c.gxl && g.mode != BARE && g.mode != SV32_OR_39)
    || (!c.gxl && ((g.mode == SV32_OR_39 && !c.caps.sv39x4) || (g.mode == SV48 && !c.caps.sv48x4) || (g.mode == SV57 && !c.caps.sv57x4)))
    || (c.gxl && g.mode == SV32_OR_39 && !c.caps.sv32x4)
    || (g.mode != BARE && g.ppn % 4 != 0)
  }

  predicate EndianMisconfigured(c: Config, dc: DeviceContext) {
    (!c.caps.end && c.be != dc.tc.sbe) || (!c.beWriteable && dc.tc.sbe != c.be)
  }

  predicate SxlMisconfigured(c: Config, dc: DeviceContext) {
    (c.gxl && !dc.tc.sxl) || (!c.gxl && !c.gxlWriteable && dc.tc.sxl)
  }

  predicate QosTooWide(c: Config, dc: DeviceContext) {
    c.caps.qosid && (And(dc.ta.rcid, Not64(c.rcidMask)) != 0 || And(dc.ta.mcid, Not64(c.mcidMask)) != 0)
  }

  /** `do_device_context_configuration_checks` */
  predicate Misconfigured(c: Config, dc: DeviceContext) {
    || ReservedSet(c, dc)
    || AtsMisconfigured(c, dc)
    || (dc.tc.pdtv && DirectoryMisconfigured(c, dc.fsc.mode))
    || (!dc.tc.pdtv && FirstStageMisconfigured(c, dc.tc.sxl, dc.fsc.mode))
    || (!dc.tc.pdtv && dc.tc.dpe)
    || SecondStageMisconfigured(c, dc.iohgatp)
    || (c.caps.msiFlat && dc.msi.mode != MSI_OFF && dc.msi.mode != MSI_FLAT)
    || (!c.caps.amoHwad && (dc.tc.sade || dc.tc.gade))
    || EndianMisconfigured(c, dc)
    || SxlMisconfigured(c, dc)
    || QosTooWide(c, dc)
    || (dc.iohgatp.mode == BARE && dc.msi.mode != MSI_OFF)
  }

  /** `do_process_context_configuration_checks` */
  predicate ProcessMisconfigured(c: Config, dc: DeviceContext, pc: ProcessContext) {
    || pc.ta.reserved0 != 0 || pc.ta.reserved1 != 0 || pc.fsc.rest != 0
    || FirstStageMisconfigured(c, dc.tc.sxl, pc.fsc.mode)
  }

  // ---------------------------------------------------------------- what the walks assume

  /** The tests that assign `LEVELS`, `PTESIZE` and `vpn[]` in the second stage: those that fire. */
  predicate SecondStageBranch(c: Config, mode: nat, f: Format) {
    match f
    case Sv32 => mode == SV32_OR_39 && c.gxl
    case Sv39 => mode == SV32_OR_39 && !c.gxl
    case Sv48 => mode == SV48 && !c.gxl
    case Sv57 => mode == SV57 && !c.gxl
  }

  /** And in the first stage. */
  predicate FirstStageBranch(sxl: bool, mode: nat, f: Format) {
    match f
    case Sv32 => mode == SV32_OR_39 && sxl
    case Sv39 => mode == SV32_OR_39 && !sxl
    case Sv48 => mode == SV48 && !sxl
    case Sv57 => mode == SV57 && !sxl
  }

  /** The size a Bare first stage reports, if any test assigns one. */
  function FirstBareSize(c: Config, sxl: bool): nat {
    if c.caps.sv57 then c.bare.sv57 else if c.caps.sv48 then c.bare.sv48
    else if c.caps.sv39 && !sxl then c.bare.sv39 else if c.caps.sv32 && sxl then c.bare.sv32 else 0
  }

  function SecondBareSize(c: Config): nat {
    if c.caps.sv57x4 then c.bare.sv57x4 else if c.caps.sv48x4 then c.bare.sv48x4
    else if c.caps.sv39x4 && !c.gxl then c.bare.sv39x4 else if c.caps.sv32x4 && c.gxl then c.bare.sv32x4 else PAGE_SHIFT
  }

  function ModeOf(wide: bool, mode: nat): Mode {
    if mode == BARE then Bare
    else Paged(if mode == SV32_OR_39 then (if wide then Sv32 else Sv39) else if mode == SV48 then Sv48 else Sv57)
  }

  /** What the walks are given for a device context and the first-stage root found for the request. */
  function SpaceOf(c: Config, dc: DeviceContext, fsc: Atp): Space {
    Space(c.caps.pas, c.caps.svpbmt, c.caps.svrsw60t59b, dc.tc.sade, dc.tc.gade, dc.tc.sxl,
          ModeOf(dc.tc.sxl, fsc.mode), fsc.ppn, FirstBareSize(c, dc.tc.sxl),
          ModeOf(c.gxl, dc.iohgatp.mode), dc.iohgatp.ppn, SecondBareSize(c))
  }

  /** The sizes configured for Bare stages are of pages at least, and some capability selects one for
      the first stage. */
  predicate BareSizesFit(c: Config, sxl: bool) {
    && 12 <= FirstBareSize(c, sxl) <= 56 && 12 <= SecondBareSize(c) <= 56
  }

  /** A first-stage root as a request uses it: Bare, the device's own, or an accepted process context's. */
  ghost predicate RootOf(c: Config, dc: DeviceContext, fsc: Atp) {
    || fsc.mode == BARE
    || (!dc.tc.pdtv && fsc == dc.fsc)
    || exists ta, ens, sum :: !ProcessMisconfigured(c, dc, ProcessContext(ta, ens, sum, fsc))
  }

  lemma RootIsChecked(c: Config, dc: DeviceContext, fsc: Atp)
    requires !Misconfigured(c, dc) && RootOf(c, dc, fsc)
    ensures !FirstStageMisconfigured(c, dc.tc.sxl, fsc.mode)
  {
  }

  /** In an accepted context a stage that is not Bare has exactly one format: one test fires, and it
      is the one of the mode the walk is modelled with. */
  lemma OneFormat(c: Config, dc: DeviceContext, fsc: Atp)
    requires !Misconfigured(c, dc) && RootOf(c, dc, fsc)
    ensures var sp := SpaceOf(c, dc, fsc);
            && (dc.iohgatp.mode != BARE ==>
                  sp.gmode.Paged? && forall f :: SecondStageBranch(c, dc.iohgatp.mode, f) <==> f == sp.gmode.format)
            && (fsc.mode != BARE ==>
                  sp.vmode.Paged? && forall f :: FirstStageBranch(dc.tc.sxl, fsc.mode, f) <==> f == sp.vmode.format)
  {
    RootIsChecked(c, dc, fsc);
  }

  /** Accepted contexts give the walks what they need: aligned roots, matching widths, defined sizes,
      and for every address that passes the width test table offsets inside the tables. */
  lemma AcceptedIsWellDefined(c: Config, dc: DeviceContext, fsc: Atp)
    requires !Misconfigured(c, dc) && RootOf(c, dc, fsc) && BareSizesFit(c, dc.tc.sxl) && c.caps.pas <= 56
    ensures var sp := SpaceOf(c, dc, fsc);
            && ValidSpace(sp)
            && (sp.gmode.Paged? ==> forall gpa: nat | GpaFits(sp, gpa) ::
                  InTable(sp.gmode.format, Indices(sp.gmode.format, sp.gmode.format.RootWidening(), gpa), 4 * PAGE_SIZE))
            && (sp.vmode.Paged? ==> forall iova: nat :: InTable(sp.vmode.format, Indices(sp.vmode.format, 0, iova), PAGE_SIZE))
  {
    RootIsChecked(c, dc, fsc);
    var sp := SpaceOf(c, dc, fsc);
    hide Indices, InTable;
    if sp.gmode.Paged? {
      var f := sp.gmode.format;
      forall gpa: nat | GpaFits(sp, gpa) ensures InTable(f, Indices(f, f.RootWidening(), gpa), 4 * PAGE_SIZE) {
        SecondStageIndices(f, gpa);
      }
    }
    if sp.vmode.Paged? {
      var f := sp.vmode.format;
      forall iova: nat ensures InTable(f, Indices(f, 0, iova), PAGE_SIZE) { FirstStageIndices(f, iova); }
    }
  }

  /** The rule that `fctl.GXL` forces `SXL` is what keeps the 13-bit root index of Sv32x4 inside the
      16 KiB table: it leaves it exactly for the addresses with bit 34 set, which only the width test
      made with `SXL` turns away. */
  lemma RootIndexInsideIff(gpa: nat)
    requires gpa < 0x8_0000_0000
    ensures Vpn(Sv32, 3, 1, gpa) * 4 < 4 * PAGE_SIZE <==> gpa < 0x4_0000_0000
  {
    SmallPowers();
    Pow2Of64();
    assert Pow2(35) == 8 * Pow2(32) && Pow2(34) == 4 * Pow2(32);
    ShrShr(gpa, 22, 13);
    ShrZero(gpa, 35);
    ShrZero(Shr(gpa, 22), 13);
    ShrShr(gpa, 22, 12);
    ShrZero(gpa, 34);
    ShrZero(Shr(gpa, 22), 12);
    assert Pow2(13) == 2 * Pow2(12);
  }
}
