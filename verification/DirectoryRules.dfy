/** Which contexts are accepted, and where in memory the contexts of a device and of a process are looked for. */
module DirectoryRules {
  import opened Bits
  import opened Common
  import opened PageTables
  import opened SecondStage
  import opened DeviceContexts
  import opened Directories
  import opened LeafRules

  // ---------------------------------------------------------------- accepted contexts

  predicate FirstStageAllowed(c: Config, sxl: bool, mode: nat) {
    || mode == 0
    || (if sxl then mode == 8 && c.caps.sv32 else (mode == 8 && c.caps.sv39) || (mode == 9 && c.caps.sv48) || (mode == 10 && c.caps.sv57))
  }

  predicate SecondStageAllowed(c: Config, mode: nat, ppn: nat) {
    || mode == 0
    || (ppn % 4 == 0 &&
        if c.gxl then mode == 8 && c.caps.sv32x4
        else (mode == 8 && c.caps.sv39x4) || (mode == 9 && c.caps.sv48x4) || (mode == 10 && c.caps.sv57x4))
  }

  predicate DirectoryAllowed(c: Config, mode: nat) {
    mode == 0 || (mode == 1 && c.caps.pd8) || (mode == 2 && c.caps.pd17) || (mode == 3 && c.caps.pd20)
  }

  predicate NothingReserved(c: Config, dc: DeviceContext) {
    && dc.tc.reserved0 == 0 && dc.tc.reserved1 == 0 && dc.fsc.rest == 0 && dc.ta.reserved0 == 0 && dc.ta.reserved1 == 0
    && (c.caps.msiFlat ==> dc.msi.reserved == 0 && dc.msi.maskReserved == 0 && dc.msi.patternReserved == 0 && dc.msi.tailReserved == 0)
  }

  predicate AtsAllowed(c: Config, dc: DeviceContext) {
    && (dc.tc.enAts || dc.tc.enPri || dc.tc.prpr ==> c.caps.ats) && (dc.tc.enPri ==> dc.tc.enAts) && (dc.tc.prpr ==> dc.tc.enPri)
    && (dc.tc.t2gpa ==> dc.tc.enAts && c.caps.t2gpa && dc.iohgatp.mode != 0)
  }

  predicate QosAllowed(c: Config, dc: DeviceContext) {
    if c.caps.qosid then And(dc.ta.rcid, Not64(c.rcidMask)) == 0 && And(dc.ta.mcid, Not64(c.mcidMask)) == 0
    else dc.ta.rcid == 0 && dc.ta.mcid == 0
  }

  /** A device context is accepted exactly if it asks for nothing that the IOMMU does not have or that is reserved. */
  lemma DeviceAccepted(c: Config, dc: DeviceContext)
    ensures !Misconfigured(c, dc) <==>
              && NothingReserved(c, dc) && AtsAllowed(c, dc) && QosAllowed(c, dc)
              && (if dc.tc.pdtv then DirectoryAllowed(c, dc.fsc.mode) else FirstStageAllowed(c, dc.tc.sxl, dc.fsc.mode) && !dc.tc.dpe)
              && SecondStageAllowed(c, dc.iohgatp.mode, dc.iohgatp.ppn)
              && (c.caps.msiFlat ==> dc.msi.mode == 0 || dc.msi.mode == 1) && (dc.iohgatp.mode == 0 ==> dc.msi.mode == 0)
              && (dc.tc.sade || dc.tc.gade ==> c.caps.amoHwad)
              && (dc.tc.sbe != c.be ==> c.caps.end && c.beWriteable)
              && (if c.gxl then dc.tc.sxl else dc.tc.sxl ==> c.gxlWriteable)
  {
    hide And;
  }

  /** And so is a process context, the width of its first stage being that of the device. */
  lemma ProcessAccepted(c: Config, dc: DeviceContext, pc: ProcessContext)
    ensures !ProcessMisconfigured(c, dc, pc) <==>
              pc.ta.reserved0 == 0 && pc.ta.reserved1 == 0 && pc.fsc.rest == 0 && FirstStageAllowed(c, dc.tc.sxl, pc.fsc.mode)
  {
  }

  // ---------------------------------------------------------------- where a device context is

  /** Part `k` of a device id: 7, 9 and 8 bits, or 6, 9 and 9 with extended contexts. */
  function DevicePart(extended: bool, k: nat, id: nat): nat {
    match k
    case 0 => if extended then id % 0x40 else id % 0x80
    case 1 => if extended then id / 0x40 % 0x200 else id / 0x80 % 0x200
    case _ => if extended then id / 0x8000 % 0x200 else id / 0x10000 % 0x100
  }

  lemma PartIsIndex(extended: bool, k: nat, id: nat)
    ensures DeviceIndex(extended, k, id) == DevicePart(extended, k, id)
  {
    PartSizes();
    hide Low, Shr, Pow2;
    LowIsRemainder(id, if extended then 6 else 7);
    LowIsRemainder(id, 15);
    LowIsRemainder(id, 16);
    LowIsRemainder(Shr(id, if extended then 6 else 7), 9);
    LowIsRemainder(Shr(id, 15), 9);
    LowIsRemainder(Shr(id, 16), 8);
    ShiftByNone(id);
  }

  lemma PartSizes()
    ensures Pow2(6) == 0x40 && Pow2(7) == 0x80 && Pow2(8) == 0x100 && Pow2(9) == 0x200 && Pow2(15) == 0x8000 && Pow2(16) == 0x10000
    ensures Pow2(3) == 8 && Pow2(17) == 0x20000
  {
    Pow2Plus8(0);
    Pow2Plus8(7);
    Pow2Plus8(8);
    Pow2Plus8(9);
    assert Pow2(8) == 2 * Pow2(7) && Pow2(7) == 2 * Pow2(6) && Pow2(1) == 2;
    assert Pow2(3) == 2 * Pow2(2) && Pow2(2) == 2 * Pow2(1);
  }

  lemma ShiftByNone(x: nat)
    ensures Shr(x, 0) == x
  {
  }

  /** What the load at `addr` meets, with the physical width compared with `bound`. */
  function LoadMeets(c: Config, m: Store, bound: nat, addr: nat): Status {
    if bound >= Pow2(c.caps.pas) || addr in m.loadViolations then AccessFault else if addr in m.poisoned then DataCorruption else Okay
  }

  predicate GoesOn(e: DirectoryEntry) { e.V && e.reserved0 == 0 && e.reserved1 == 0 }

  /** `tables` are the pages of the tables from the root of the directory down. */
  predicate DeviceTables(c: Config, t: Tree, m: Store, tables: seq<nat>, id: nat) {
    0 < |tables| <= t.levels &&
    if |tables| == 1 then tables[0] == t.root
    else
      var above := tables[..|tables| - 1];
      var a := above[|above| - 1] * PAGE_SIZE;
      var addr := a + 8 * DevicePart(c.caps.msiFlat, t.levels - |above|, id);
      && DeviceTables(c, t, m, above, id) && LoadMeets(c, m, a, addr).Okay?
      && GoesOn(EntryIn(t.ddtes, addr)) && EntryIn(t.ddtes, addr).ppn == tables[|tables| - 1]
  }

  lemma {:induction false} DeviceSearch(c: Config, t: Tree, m: Store, tables: seq<nat>, id: nat)
    requires ValidTree(t) && DeviceTables(c, t, m, tables, id)
    ensures LocateDevice(c, t, id, m) == LocateDeviceFrom(c, t, id, t.levels - |tables|, tables[|tables| - 1] * PAGE_SIZE, m)
    decreases |tables|
  {
    hide DeviceIndex, DevicePart, Misconfigured, Pow2, DeviceAt;
    if |tables| > 1 {
      var above := tables[..|tables| - 1];
      DeviceSearch(c, t, m, above, id);
      PartIsIndex(c.caps.msiFlat, t.levels - |above|, id);
    }
  }

  /** Past all tables of the directory the record of the device decides: 32 bytes, or 64 if contexts are extended. */
  lemma DeviceFound(c: Config, t: Tree, m: Store, tables: seq<nat>, id: nat)
    requires ValidTree(t) && DeviceTables(c, t, m, tables, id) && |tables| == t.levels
    ensures var addr := tables[|tables| - 1] * PAGE_SIZE + (if c.caps.msiFlat then 64 else 32) * DevicePart(c.caps.msiFlat, 0, id);
            LocateDevice(c, t, id, m) ==
              match LoadMeets(c, m, addr, addr)
              case AccessFault => Failed(257)
              case DataCorruption => Failed(268)
              case Okay => if addr !in t.dcs || !t.dcs[addr].V then Failed(258)
                           else if Misconfigured(c, t.dcs[addr].dc) then Failed(259) else Found(t.dcs[addr].dc)
  {
    hide DeviceIndex, DevicePart, Misconfigured, Pow2;
    DeviceSearch(c, t, m, tables, id);
    PartIsIndex(c.caps.msiFlat, 0, id);
  }

  /** An entry above that does not go on decides before. */
  lemma DeviceNotFound(c: Config, t: Tree, m: Store, tables: seq<nat>, id: nat)
    requires ValidTree(t) && DeviceTables(c, t, m, tables, id) && |tables| < t.levels
    ensures var a := tables[|tables| - 1] * PAGE_SIZE;
            var addr := a + 8 * DevicePart(c.caps.msiFlat, t.levels - |tables|, id);
            match LoadMeets(c, m, a, addr)
            case AccessFault => LocateDevice(c, t, id, m) == Failed(257)
            case DataCorruption => LocateDevice(c, t, id, m) == Failed(268)
            case Okay => !GoesOn(EntryIn(t.ddtes, addr)) ==>
                           LocateDevice(c, t, id, m) == Failed(if EntryIn(t.ddtes, addr).V then 259 else 258)
  {
    hide DeviceIndex, DevicePart, Misconfigured, Pow2, DeviceAt;
    DeviceSearch(c, t, m, tables, id);
    PartIsIndex(c.caps.msiFlat, t.levels - |tables|, id);
  }

  // ---------------------------------------------------------------- where a process context is

  /** Part `k` of a process id: 8, 9 and 3 bits. */
  function ProcessPart(k: nat, pid: nat): nat { match k case 0 => pid % 0x100 case 1 => pid / 0x100 % 0x200 case _ => pid / 0x20000 % 8 }

  lemma ProcessPartIsIndex(k: nat, pid: nat)
    ensures ProcessIndex(k, pid) == ProcessPart(k, pid)
  {
    PartSizes();
    hide Low, Shr, Pow2;
    LowIsRemainder(pid, 8);
    LowIsRemainder(pid, 17);
    LowIsRemainder(Shr(pid, 8), 9);
    LowIsRemainder(Shr(pid, 17), 3);
    ShiftByNone(pid);
  }

  function PdLevels(dc: DeviceContext): nat { match dc.fsc.mode case 3 => 3 case 2 => 2 case _ => 1 }

  /** The read of the directory at a guest address: refused by the second stage, failed, or the address. */
  datatype Met = NotMapped(fault: GFault, gpa: nat) | NotLoaded(corrupt: bool) | Readable(addr: nat)

  /** It is a load of the guest, which the second stage of the device takes to the machine. */
  function ReadAs(c: Config, dc: DeviceContext, m: Store, gpa: nat): (Met, Store) {
    var (g, n) := GWalk(SpaceOf(c, dc, Atp(0, 0, 0)), Access(true, true, false, false, false), gpa, m);
    if g.GErr? then (NotMapped(g.fault, gpa), n)
    else match LoadMeets(c, n, g.pa, g.pa)
      case Okay => (Readable(g.pa), n)
      case AccessFault => (NotLoaded(false), n)
      case DataCorruption => (NotLoaded(true), n)
  }

  /** Without a second stage that is where it is. */
  lemma ReadDirectly(c: Config, dc: DeviceContext, gpa: nat, m: Store)
    requires dc.iohgatp.mode == 0 && ValidSpace(DirectorySpace(c, dc)) && gpa < 0x100_0000_0000_0000
    ensures ReadAs(c, dc, m, gpa) == (match LoadMeets(c, m, gpa, gpa)
                                      case Okay => Readable(gpa)
                                      case AccessFault => NotLoaded(false)
                                      case DataCorruption => NotLoaded(true), m)
  {
    hide Pow2;
    BareWalk(DirectorySpace(c, dc), DIRECTORY_READ, gpa, m);
  }

  function PartGpa(dc: DeviceContext, tables: seq<nat>, pid: nat): nat
    requires 0 < |tables| <= PdLevels(dc)
  {
    var k := PdLevels(dc) - |tables|;
    tables[|tables| - 1] * PAGE_SIZE + (if k == 0 then 16 else 8) * ProcessPart(k, pid)
  }

  function ReadLast(c: Config, dc: DeviceContext, l: Trail, pid: nat): (Met, Store)
    requires 0 < |l.tables| == |l.before| <= PdLevels(dc)
  {
    ReadAs(c, dc, l.before[|l.before| - 1], PartGpa(dc, l.tables, pid))
  }

  /** The walk for `pid` in memory `m` goes along the trail from the root of the directory. */
  predicate ProcessTables(c: Config, dc: DeviceContext, t: Tree, m: Store, l: Trail, pid: nat)
    decreases |l.tables|
  {
    0 < |l.tables| == |l.before| <= PdLevels(dc) &&
    if |l.tables| == 1 then l.tables[0] == dc.fsc.ppn && l.before[0] == m
    else
      ProcessTables(c, dc, t, m, l.Above(), pid) &&
      var (met, n) := ReadLast(c, dc, l.Above(), pid);
      && met.Readable? && GoesOn(EntryIn(t.pdtes, met.addr))
      && EntryIn(t.pdtes, met.addr).ppn == l.tables[|l.tables| - 1] && n == l.before[|l.before| - 1]
  }

  lemma ProcessStep(c: Config, dc: DeviceContext, t: Tree, m: Store, k: nat, page: nat, pid: nat)
    ensures var (met, n) := ReadAs(c, dc, m, page * PAGE_SIZE + (if k == 0 then 16 else 8) * ProcessPart(k, pid));
            LocateProcessFrom(c, dc, t, pid, k, page * PAGE_SIZE, m) ==
              match met
              case NotMapped(GstPageFault, gpa) => (GuestPageFault(gpa), n)
              case NotMapped(GstAccessFault, _) => (Failed(265), n)
              case NotMapped(GstDataCorruption, _) => (Failed(269), n)
              case NotLoaded(corrupt) => (Failed(if corrupt then 269 else 265), n)
              case Readable(addr) =>
                if k == 0 then (Record(c, dc, t, addr), n)
                else if GoesOn(EntryIn(t.pdtes, addr)) then
                  LocateProcessFrom(c, dc, t, pid, k - 1, EntryIn(t.pdtes, addr).ppn * PAGE_SIZE, n)
                else (Failed(if EntryIn(t.pdtes, addr).V then 267 else 266), n)
  {
    EntryIsThere(k, page, pid);
    hide GWalk, ProcessEntry, ProcessPart, Pow2, SpaceOf, ProcessMisconfigured;
  }

  lemma EntryIsThere(k: nat, page: nat, pid: nat)
    ensures ProcessEntry(k, pid, page * PAGE_SIZE) == page * PAGE_SIZE + (if k == 0 then 16 else 8) * ProcessPart(k, pid)
  {
    ProcessPartIsIndex(k, pid);
    hide ProcessIndex, ProcessPart;
  }

  /** The record of the process, valid and with nothing that is not allowed, or the cause. */
  function Record(c: Config, dc: DeviceContext, t: Tree, addr: nat): Located<ProcessContext> {
    if addr !in t.pcs || !t.pcs[addr].V then Failed(266)
    else if ProcessMisconfigured(c, dc, t.pcs[addr].pc) then Failed(267) else Found(t.pcs[addr].pc)
  }

  lemma {:induction false} ProcessSearch(c: Config, dc: DeviceContext, t: Tree, m: Store, l: Trail, pid: nat)
    requires ProcessTables(c, dc, t, m, l, pid)
    ensures LocateProcess(c, dc, t, pid, m) ==
            LocateProcessFrom(c, dc, t, pid, PdLevels(dc) - |l.tables|, l.tables[|l.tables| - 1] * PAGE_SIZE, l.before[|l.before| - 1])
    decreases |l.tables|
  {
    hide GWalk, ProcessEntry, ProcessPart, Pow2, ReadAs, LocateProcessFrom, Record;
    if |l.tables| > 1 {
      var above := l.Above();
      ProcessSearch(c, dc, t, m, above, pid);
      ProcessStep(c, dc, t, above.before[|above.before| - 1], PdLevels(dc) - |above.tables|, above.tables[|above.tables| - 1], pid);
    }
  }

  /** Past all tables the record of the process decides, of 16 bytes; an entry above that does not go on decides
      before, and so does a read that fails: a guest page fault at its address, or cause 265 or 269. */
  lemma ProcessFound(c: Config, dc: DeviceContext, t: Tree, m: Store, l: Trail, pid: nat)
    requires ProcessTables(c, dc, t, m, l, pid)
    ensures var ((met, n), k) := (ReadLast(c, dc, l, pid), PdLevels(dc) - |l.tables|);
            match met
            case NotMapped(e, gpa) =>
              LocateProcess(c, dc, t, pid, m) == (match e case GstPageFault => GuestPageFault(gpa)
                                                          case GstAccessFault => Failed(265)
                                                          case GstDataCorruption => Failed(269), n)
            case NotLoaded(corrupt) => LocateProcess(c, dc, t, pid, m) == (Failed(if corrupt then 269 else 265), n)
            case Readable(addr) =>
              && (k == 0 ==> LocateProcess(c, dc, t, pid, m) == (Record(c, dc, t, addr), n))
              && (k > 0 && !GoesOn(EntryIn(t.pdtes, addr)) ==>
                    LocateProcess(c, dc, t, pid, m) == (Failed(if EntryIn(t.pdtes, addr).V then 267 else 266), n))
  {
    hide GWalk, ProcessEntry, ProcessPart, Pow2, ReadAs, LocateProcessFrom, Record, LocateProcess;
    ProcessSearch(c, dc, t, m, l, pid);
    hide ProcessTables;
    ProcessStep(c, dc, t, l.before[|l.before| - 1], PdLevels(dc) - |l.tables|, l.tables[|l.tables| - 1], pid);
  }

  /** Every walk of a directory ends so. */
  lemma {:induction false} ProcessWalkEnds(c: Config, dc: DeviceContext, t: Tree, m: Store, l: Trail, pid: nat) returns (end: Trail)
    requires ProcessTables(c, dc, t, m, l, pid)
    ensures ProcessTables(c, dc, t, m, end, pid)
    ensures var met := ReadLast(c, dc, end, pid).0;
            !met.Readable? || |end.tables| == PdLevels(dc) || !GoesOn(EntryIn(t.pdtes, met.addr))
    decreases PdLevels(dc) - |l.tables|
  {
    hide Pow2, ReadAs;
    end := l;
    var (met, n) := ReadLast(c, dc, l, pid);
    if met.Readable? && |l.tables| < PdLevels(dc) && GoesOn(EntryIn(t.pdtes, met.addr)) {
      var next := Trail(l.tables + [EntryIn(t.pdtes, met.addr).ppn], l.before + [n]);
      assert next.Above() == l;
      end := ProcessWalkEnds(c, dc, t, m, next, pid);
    }
  }
}
