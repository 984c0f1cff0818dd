/** Locating device and process contexts in their directories, the process directory through the
    second stage. */
module Directories {
  import opened Bits
  import opened Common
  import opened PageTables
  import opened SecondStage
  import opened DeviceContexts
  import opened AdUpdates

  // ---------------------------------------------------------------- memory of the directories

  datatype DirectoryEntry = DirectoryEntry(V: bool, reserved0: nat, ppn: Ppn, reserved1: nat)

  datatype DeviceRecord = DeviceRecord(V: bool, dc: DeviceContext)

  datatype ProcessRecord = ProcessRecord(V: bool, pc: ProcessContext)

  /** `ddtp`, and the words of both directories by address. */
  datatype Tree = Tree(levels: nat, root: Ppn, ddtes: map<nat, DirectoryEntry>, dcs: map<nat, DeviceRecord>,
                       pdtes: map<nat, DirectoryEntry>, pcs: map<nat, ProcessRecord>)

  predicate ValidTree(t: Tree) { 1 <= t.levels <= 3 }

  const NO_ENTRY := DirectoryEntry(false, 0, 0, 0)

  function EntryIn(words: map<nat, DirectoryEntry>, addr: nat): DirectoryEntry { if addr in words then words[addr] else NO_ENTRY }

  datatype Located<T> = Found(ctx: T) | Failed(cause: nat) | GuestPageFault(gpa: nat)

  // ---------------------------------------------------------------- device contexts

  /** `DDI[i]`, kept in 16 bits here */
  function DeviceIndex(extended: bool, i: nat, id: nat): nat {
    match i
    case 0 => if extended then GetBits(5, 0, id) else GetBits(6, 0, id)
    case 1 => if extended then GetBits(14, 6, id) else GetBits(15, 7, id)
    case _ => if extended then GetBits(23, 15, id) else GetBits(23, 16, id)
  }

  /** How many bits of a device id a directory of `levels` levels looks at. */
  function IdBits(c: Config, levels: nat): nat {
    if c.caps.msiFlat then (if levels == 1 then 6 else if levels == 2 then 15 else 24)
    else (if levels == 1 then 7 else if levels == 2 then 16 else 24)
  }

  predicate IdFits(c: Config, t: Tree, id: nat) { id < Pow2(IdBits(c, t.levels)) }

  function ContextSize(c: Config): nat { if c.caps.msiFlat then 64 else 32 }

  function LoadCause(s: Status, access: nat, corruption: nat): nat { if s.AccessFault? then access else corruption }

  /** The record at the end of the walk. */
  function DeviceAt(c: Config, t: Tree, addr: nat, m: Store): Located<DeviceContext> {
    if addr >= Pow2(c.caps.pas) then Failed(257)
    else if !LoadStatus(m, addr).Okay? then Failed(LoadCause(LoadStatus(m, addr), 257, 268))
    else if addr !in t.dcs || !t.dcs[addr].V then Failed(258)
    else if Misconfigured(c, t.dcs[addr].dc) then Failed(259)
    else Found(t.dcs[addr].dc)
  }

  function LocateDeviceFrom(c: Config, t: Tree, id: nat, i: nat, a: nat, m: Store): Located<DeviceContext> {
    if i == 0 then DeviceAt(c, t, a + DeviceIndex(c.caps.msiFlat, 0, id) * ContextSize(c), m)
    else
      var addr := a + DeviceIndex(c.caps.msiFlat, i, id) * 8;
      if a >= Pow2(c.caps.pas) then Failed(257)
      else if !LoadStatus(m, addr).Okay? then Failed(LoadCause(LoadStatus(m, addr), 257, 268))
      else
        var e := EntryIn(t.ddtes, addr);
        if !e.V then Failed(258)
        else if e.reserved0 != 0 || e.reserved1 != 0 then Failed(259)
        else LocateDeviceFrom(c, t, id, i - 1, e.ppn * PAGE_SIZE, m)
  }

  /** `locate_device_context` without its cache */
  function LocateDevice(c: Config, t: Tree, id: nat, m: Store): Located<DeviceContext>
    requires ValidTree(t)
  {
    LocateDeviceFrom(c, t, id, t.levels - 1, t.root * PAGE_SIZE, m)
  }

  // ---------------------------------------------------------------- process contexts

  function ProcessIndex(i: nat, pid: nat): nat {
    match i case 0 => GetBits(7, 0, pid) case 1 => GetBits(16, 8, pid) case _ => GetBits(19, 17, pid)
  }

  function ProcessLevels(dc: DeviceContext): nat {
    if dc.fsc.mode == PD20 then 3 else if dc.fsc.mode == PD17 then 2 else 1
  }

  /** How many bits of a process id the directory of the device looks at. */
  predicate PidFits(dc: DeviceContext, pid: nat) {
    pid < Pow2(if dc.fsc.mode == PD20 then 20 else if dc.fsc.mode == PD17 then 17 else 8)
  }

  /** The guest address of the entry for `pid` in the table at `a`. */
  function ProcessEntry(i: nat, pid: nat, a: nat): nat { a + ProcessIndex(i, pid) * (if i == 0 then 16 else 8) }

  /** A process directory is read as if by a load of the guest. */
  const DIRECTORY_READ := Access(true, true, false, false, false)

  function DirectorySpace(c: Config, dc: DeviceContext): Space { SpaceOf(c, dc, Atp(BARE, 0, 0)) }

  function ProcessAt(c: Config, dc: DeviceContext, t: Tree, addr: nat, m: Store): Located<ProcessContext> {
    if addr >= Pow2(c.caps.pas) then Failed(265)
    else if !LoadStatus(m, addr).Okay? then Failed(LoadCause(LoadStatus(m, addr), 265, 269))
    else if addr !in t.pcs || !t.pcs[addr].V then Failed(266)
    else if ProcessMisconfigured(c, dc, t.pcs[addr].pc) then Failed(267)
    else Found(t.pcs[addr].pc)
  }

  function GuestFailure(f: GFault, gpa: nat): Located<ProcessContext> {
    match f case GstPageFault => GuestPageFault(gpa) case GstAccessFault => Failed(265) case GstDataCorruption => Failed(269)
  }

  function LocateProcessFrom(c: Config, dc: DeviceContext, t: Tree, pid: nat, i: nat, a: nat, m: Store)
    : (Located<ProcessContext>, Store)
  {
    var gpa := ProcessEntry(i, pid, a);
    var (g, n) := GWalk(DirectorySpace(c, dc), DIRECTORY_READ, gpa, m);
    if g.GErr? then (GuestFailure(g.fault, gpa), n)
    else if i == 0 then (ProcessAt(c, dc, t, g.pa, n), n)
    else if g.pa >= Pow2(c.caps.pas) then (Failed(265), n)
    else if !LoadStatus(n, g.pa).Okay? then (Failed(LoadCause(LoadStatus(n, g.pa), 265, 269)), n)
    else
      var e := EntryIn(t.pdtes, g.pa);
      if !e.V then (Failed(266), n)
      else if e.reserved0 != 0 || e.reserved1 != 0 then (Failed(267), n)
      else LocateProcessFrom(c, dc, t, pid, i - 1, e.ppn * PAGE_SIZE, n)
  }

  /** `locate_process_context` without its cache */
  function LocateProcess(c: Config, dc: DeviceContext, t: Tree, pid: nat, m: Store): (Located<ProcessContext>, Store) {
    LocateProcessFrom(c, dc, t, pid, ProcessLevels(dc) - 1, dc.fsc.ppn * PAGE_SIZE, m)
  }

  // ---------------------------------------------------------------- the code

  /** The goto loop of `locate_device_context` */
  method LocateDeviceCode(c: Config, t: Tree, id: nat, mem: Memory) returns (r: Located<DeviceContext>)
    requires ValidTree(t)
    ensures r == LocateDevice(c, t, id, mem.store)
  {
    hide DeviceIndex, Misconfigured, Pow2;
    var i: nat := t.levels - 1;
    var a: nat := t.root * PAGE_SIZE;
    while i != 0
      invariant LocateDeviceFrom(c, t, id, i, a, mem.store) == LocateDevice(c, t, id, mem.store)
    {
      var addr := a + DeviceIndex(c.caps.msiFlat, i, id) * 8;
      if a >= Pow2(c.caps.pas) { return Failed(257); }
      var status := LoadStatus(mem.store, addr);
      if status.AccessFault? { return Failed(257); }
      if status.DataCorruption? { return Failed(268); }
      var e := EntryIn(t.ddtes, addr);
      if !e.V { return Failed(258); }
      if e.reserved0 != 0 || e.reserved1 != 0 { return Failed(259); }
      i := i - 1;
      a := e.ppn * PAGE_SIZE;
    }
    r := LoadDevice(c, t, a + DeviceIndex(c.caps.msiFlat, 0, id) * ContextSize(c), mem);
  }

  /** From step 8: the context itself */
  method LoadDevice(c: Config, t: Tree, addr: nat, mem: Memory) returns (r: Located<DeviceContext>)
    ensures r == DeviceAt(c, t, addr, mem.store)
  {
    hide Misconfigured, Pow2;
    if addr >= Pow2(c.caps.pas) { return Failed(257); }
    var status := LoadStatus(mem.store, addr);
    if status.AccessFault? { return Failed(257); }
    if status.DataCorruption? { return Failed(268); }
    if addr !in t.dcs || !t.dcs[addr].V { return Failed(258); }
    if Misconfigured(c, t.dcs[addr].dc) { return Failed(259); }
    r := Found(t.dcs[addr].dc);
  }

  /** The goto loop of `locate_process_context` */
  method LocateProcessCode(c: Config, dc: DeviceContext, t: Tree, pid: nat, mem: Memory) returns (r: Located<ProcessContext>)
    requires !Misconfigured(c, dc) && c.caps.pas <= 56 && BareSizesFit(c, dc.tc.sxl)
    modifies mem
    ensures (r, mem.store) == LocateProcess(c, dc, t, pid, old(mem.store))
  {
    DirectorySpaceValid(c, dc);
    hide ProcessEntry, Misconfigured, ProcessMisconfigured, Pow2, GWalk, DirectorySpace, ValidSpace, ProcessAt, LoadStatus;
    var i: nat := ProcessLevels(dc) - 1;
    var a: nat := dc.fsc.ppn * PAGE_SIZE;
    while true
      invariant i < 3 && a < 0x100_0000_0000_0000
      invariant LocateProcessFrom(c, dc, t, pid, i, a, mem.store) == LocateProcess(c, dc, t, pid, old(mem.store))
      decreases i
    {
      ProcessOffset(i, pid, a);
      var gpa := ProcessEntry(i, pid, a);
      var fault, pa, size, gpte, loads, atomics := SecondStageAddressTranslation(mem, DirectorySpace(c, dc), gpa, DIRECTORY_READ);
      if fault.Fault? {
        r := match fault.fault
          case GstPageFault => GuestPageFault(gpa)
          case GstAccessFault => Failed(265)
          case GstDataCorruption => Failed(269);
        return;
      }
      if i == 0 {
        r := LoadProcess(c, dc, t, pa, mem);
        return;
      }
      if pa >= Pow2(c.caps.pas) { return Failed(265); }
      var status := LoadStatus(mem.store, pa);
      if status.AccessFault? { return Failed(265); }
      if status.DataCorruption? { return Failed(269); }
      var e := EntryIn(t.pdtes, pa);
      if !e.V { return Failed(266); }
      if e.reserved0 != 0 || e.reserved1 != 0 { return Failed(267); }
      i := i - 1;
      a := e.ppn * PAGE_SIZE;
    }
  }

  method LoadProcess(c: Config, dc: DeviceContext, t: Tree, addr: nat, mem: Memory) returns (r: Located<ProcessContext>)
    ensures r == ProcessAt(c, dc, t, addr, mem.store)
  {
    hide ProcessMisconfigured, Pow2;
    if addr >= Pow2(c.caps.pas) { return Failed(265); }
    var status := LoadStatus(mem.store, addr);
    if status.AccessFault? { return Failed(265); }
    if status.DataCorruption? { return Failed(269); }
    if addr !in t.pcs || !t.pcs[addr].V { return Failed(266); }
    if ProcessMisconfigured(c, dc, t.pcs[addr].pc) { return Failed(267); }
    r := Found(t.pcs[addr].pc);
  }

  lemma DirectorySpaceValid(c: Config, dc: DeviceContext)
    requires !Misconfigured(c, dc) && c.caps.pas <= 56 && BareSizesFit(c, dc.tc.sxl)
    ensures ValidSpace(DirectorySpace(c, dc))
  {
    AcceptedIsWellDefined(c, dc, Atp(BARE, 0, 0));
  }

  lemma ProcessOffset(i: nat, pid: nat, a: nat)
    ensures ProcessEntry(i, pid, a) < a + PAGE_SIZE
  {
    SmallPowers();
    FieldBound(7, 0, pid);
    FieldBound(16, 8, pid);
    FieldBound(19, 17, pid);
    Pow2Plus8(0);
    assert Pow2(9) == 2 * Pow2(8);
    hide GetBits;
  }

  // ---------------------------------------------------------------- causes

  /** Why a device cannot be located. */
  lemma {:induction false} DeviceCauses(c: Config, t: Tree, id: nat, i: nat, a: nat, m: Store)
    ensures var r := LocateDeviceFrom(c, t, id, i, a, m); !r.GuestPageFault? && (r.Failed? ==> r.cause in {257, 258, 259, 268})
    decreases i
  {
    hide DeviceIndex, Misconfigured, Pow2, LoadStatus;
    if i > 0 {
      var e := EntryIn(t.ddtes, a + DeviceIndex(c.caps.msiFlat, i, id) * 8);
      DeviceCauses(c, t, id, i - 1, e.ppn * PAGE_SIZE, m);
    }
  }

  /** And why a process cannot. */
  lemma {:induction false} ProcessCauses(c: Config, dc: DeviceContext, t: Tree, pid: nat, i: nat, a: nat, m: Store)
    ensures var r := LocateProcessFrom(c, dc, t, pid, i, a, m).0; r.Failed? ==> r.cause in {265, 266, 267, 269}
    decreases i
  {
    hide GWalk, ProcessEntry, Pow2, DirectorySpace, LoadStatus, ProcessMisconfigured;
    var (g, n) := GWalk(DirectorySpace(c, dc), DIRECTORY_READ, ProcessEntry(i, pid, a), m);
    if g.GOk? && i > 0 { ProcessCauses(c, dc, t, pid, i - 1, EntryIn(t.pdtes, g.pa).ppn * PAGE_SIZE, n); }
  }

  // ---------------------------------------------------------------- locating is stable

  lemma {:induction false} LocateDeviceStableFrom(c: Config, t: Tree, id: nat, i: nat, a: nat, m: Store, n: Store)
    requires SameFaults(m, n)
    ensures LocateDeviceFrom(c, t, id, i, a, n) == LocateDeviceFrom(c, t, id, i, a, m)
  {
    hide DeviceIndex, Misconfigured, Pow2;
    if i > 0 {
      var e := EntryIn(t.ddtes, a + DeviceIndex(c.caps.msiFlat, i, id) * 8);
      LocateDeviceStableFrom(c, t, id, i - 1, e.ppn * PAGE_SIZE, m, n);
    }
  }

  lemma {:induction false} ProcessExtendsFrom(c: Config, dc: DeviceContext, t: Tree, pid: nat, i: nat, a: nat, m: Store)
    ensures AdExtends(m, LocateProcessFrom(c, dc, t, pid, i, a, m).1)
  {
    var gpa := ProcessEntry(i, pid, a);
    GWalkExtends(DirectorySpace(c, dc), DIRECTORY_READ, gpa, m);
    hide AdExtends, GWalk, ProcessEntry, Pow2, ProcessAt, DirectorySpace, LoadStatus, GuestFailure;
    var (g, n) := GWalk(DirectorySpace(c, dc), DIRECTORY_READ, gpa, m);
    if g.GOk? && i > 0 {
      var e := EntryIn(t.pdtes, g.pa);
      ProcessExtendsFrom(c, dc, t, pid, i - 1, e.ppn * PAGE_SIZE, n);
      AdTransitive(m, n, LocateProcessFrom(c, dc, t, pid, i - 1, e.ppn * PAGE_SIZE, n).1);
    }
  }

  predicate ProcessSettledFrom(c: Config, dc: DeviceContext, t: Tree, pid: nat, i: nat, a: nat, m: Store, pc: ProcessContext) {
    LocateProcessFrom(c, dc, t, pid, i, a, m) == (Found(pc), m)
  }

  lemma FaultsAlikeExtends(m: Store, n: Store, addr: nat)
    requires AdExtends(m, n)
    ensures LoadStatus(n, addr) == LoadStatus(m, addr)
  {
  }

  /** The first step of a settled search is settled. */
  lemma FirstStepSettled(c: Config, dc: DeviceContext, t: Tree, pid: nat, i: nat, a: nat, m: Store, pc: ProcessContext)
    requires ProcessSettledFrom(c, dc, t, pid, i, a, m, pc)
    ensures GDone(DirectorySpace(c, dc), DIRECTORY_READ, ProcessEntry(i, pid, a), m)
  {
    var gpa := ProcessEntry(i, pid, a);
    var sp := DirectorySpace(c, dc);
    var (g, n) := GWalk(sp, DIRECTORY_READ, gpa, m);
    hide GWalk, ProcessEntry, Pow2, AdExtends, ProcessAt, DirectorySpace;
    if i > 0 {
      ProcessExtendsFrom(c, dc, t, pid, i - 1, EntryIn(t.pdtes, g.pa).ppn * PAGE_SIZE, n);
      GUnchanged(sp, DIRECTORY_READ, gpa, m);
    }
  }

  /** A settled search stays settled, with its result, when other walks set A and D bits. */
  lemma {:induction false} ProcessStableFrom(c: Config, dc: DeviceContext, t: Tree, pid: nat, i: nat, a: nat, m: Store,
                                             n: Store, pc: ProcessContext)
    requires ProcessSettledFrom(c, dc, t, pid, i, a, m, pc) && AdExtends(m, n)
    ensures ProcessSettledFrom(c, dc, t, pid, i, a, n, pc)
  {
    var gpa := ProcessEntry(i, pid, a);
    var sp := DirectorySpace(c, dc);
    FirstStepSettled(c, dc, t, pid, i, a, m, pc);
    GDoneStable(sp, DIRECTORY_READ, gpa, m, n);
    var g := GWalk(sp, DIRECTORY_READ, gpa, m).0;
    FaultsAlikeExtends(m, n, g.pa);
    hide GWalk, ProcessEntry, Pow2, AdExtends, DirectorySpace, ProcessMisconfigured, LoadStatus;
    if i > 0 { ProcessStableFrom(c, dc, t, pid, i - 1, EntryIn(t.pdtes, g.pa).ppn * PAGE_SIZE, m, n, pc); }
  }

  /** A successful search leaves itself settled. */
  lemma {:induction false} ProcessFinishesFrom(c: Config, dc: DeviceContext, t: Tree, pid: nat, i: nat, a: nat, m: Store)
    ensures var (r, n) := LocateProcessFrom(c, dc, t, pid, i, a, m);
            r.Found? ==> ProcessSettledFrom(c, dc, t, pid, i, a, n, r.ctx)
  {
    var gpa := ProcessEntry(i, pid, a);
    var sp := DirectorySpace(c, dc);
    var (g, m1) := GWalk(sp, DIRECTORY_READ, gpa, m);
    var (r, n) := LocateProcessFrom(c, dc, t, pid, i, a, m);
    if r.Found? {
      GWalkFinishes(sp, DIRECTORY_READ, gpa, m);
      if i == 0 {
        hide GWalk, ProcessEntry, Pow2, AdExtends, DirectorySpace, ProcessMisconfigured, LoadStatus;
      } else {
        var b := EntryIn(t.pdtes, g.pa).ppn * PAGE_SIZE;
        ProcessFinishesFrom(c, dc, t, pid, i - 1, b, m1);
        ProcessExtendsFrom(c, dc, t, pid, i - 1, b, m1);
        GDoneStable(sp, DIRECTORY_READ, gpa, m1, n);
        FaultsAlikeExtends(m1, n, g.pa);
        hide GWalk, ProcessEntry, Pow2, AdExtends, DirectorySpace, ProcessAt, LoadStatus;
      }
    }
  }
}
