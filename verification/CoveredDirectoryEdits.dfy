/** Directory edits that a command for one device, or for one process, covers. */
module CoveredDirectoryEdits {
  import opened Bits
  import opened Common
  import opened PageTables
  import opened SecondStage
  import opened DeviceContexts
  import opened Directories
  import opened DirectoryCaches
  import B = DirectoryBuilder

  // ---------------------------------------------------------------- a device context

  lemma {:induction false} SameProcessWalk(c: Config, dc: DeviceContext, t: Tree, u: Tree, pid: nat, i: nat, a: nat, m: Store)
    requires u.pdtes == t.pdtes && u.pcs == t.pcs
    ensures LocateProcessFrom(c, dc, u, pid, i, a, m) == LocateProcessFrom(c, dc, t, pid, i, a, m)
  {
    hide GWalk, ProcessEntry, Pow2, DirectorySpace, LoadStatus, GuestFailure, ProcessMisconfigured;
    var (g, n) := GWalk(DirectorySpace(c, dc), DIRECTORY_READ, ProcessEntry(i, pid, a), m);
    if g.GOk? && i > 0 { SameProcessWalk(c, dc, t, u, pid, i - 1, EntryIn(t.pdtes, g.pa).ppn * PAGE_SIZE, n); }
  }

  lemma {:induction false} BuildKeepsProcesses(c: Config, t: Tree, id: nat, i: nat, a: nat, rec: DeviceRecord, m: Store, next: nat)
    ensures var u := B.BuildFrom(c, t, id, i, a, rec, m, next).tree; u.pdtes == t.pdtes && u.pcs == t.pcs
    decreases i
  {
    hide B.EntryAddr, EntryIn, LoadStatus, StoreStatus, B.Linked;
    if i > 0 {
      var addr := B.EntryAddr(c, id, i, a);
      var e, t1 := EntryIn(t.ddtes, addr), B.ClearPage(t, next);
      if e.V {
        BuildKeepsProcesses(c, t, id, i - 1, e.ppn * PAGE_SIZE, rec, m, next);
      } else {
        var q := B.Linked(e, next);
        BuildKeepsProcesses(c, t1.(ddtes := t1.ddtes[addr := q]), id, i - 1, q.ppn * PAGE_SIZE, rec, m, next + 1);
      }
    }
  }

  /** What `add_dev_context` does to the directory, pages linked on the way included, IODIR.INVAL_DDT for
      that one device covers. */
  lemma AddContextIsCovered(c: Config, t: Tree, id: nat, rec: DeviceRecord, m: Store, next: nat)
    requires B.MayBuild(c, t, id, m, next) && IdFits(c, t, id) && B.Room(c, next, t.levels - 1)
    ensures var b := B.Build(c, t, id, rec, m, next);
            b.addr.Some? && ValidTree(b.tree) && Covered(c, t, m, b.tree, m, InvalDdt(true, id))
  {
    hide B.BuildFrom, B.TreeShaped, B.Allocated, FreeIsClean, B.Buildable, B.OutcomeOf, LocateDevice, IdFits, Settled;
    var b := B.Build(c, t, id, rec, m, next);
    BuildKeepsProcesses(c, t, id, t.levels - 1, t.root * PAGE_SIZE, rec, m, next);
    B.BuildThenLocate(c, t, id, rec, m, next);
    SameWidth(c, t, b.tree);
    forall y: nat, pid: nat, pc | IdFits(c, b.tree, y)
      ensures NamesProcess(InvalDdt(true, id), y, pid) || ProcessKept(c, t, m, b.tree, m, y, pid, pc)
    {
      if y != id { SettledAlike(c, t, b.tree, m, y, pid, pc); }
    }
  }

  lemma SettledAlike(c: Config, t: Tree, u: Tree, m: Store, y: nat, pid: nat, pc: ProcessContext)
    requires ValidTree(t) && ValidTree(u) && u.pdtes == t.pdtes && u.pcs == t.pcs
    requires LocateDevice(c, u, y, m) == LocateDevice(c, t, y, m)
    ensures Settled(c, u, m, y, pid, pc) == Settled(c, t, m, y, pid, pc)
  {
    hide LocateDevice, LocateProcessFrom, UsesDirectory;
    if LocateDevice(c, t, y, m).Found? {
      var dc := LocateDevice(c, t, y, m).ctx;
      SameProcessWalk(c, dc, t, u, pid, ProcessLevels(dc) - 1, dc.fsc.ppn * PAGE_SIZE, m);
    }
  }

  lemma SameWidth(c: Config, t: Tree, u: Tree)
    requires u.levels == t.levels
    ensures forall y: nat :: IdFits(c, u, y) == IdFits(c, t, y)
  {
  }

  // ---------------------------------------------------------------- a process context

  /** The address of the record the walk for the process ends at, if it comes that far. */
  function RecordFrom(c: Config, dc: DeviceContext, t: Tree, pid: nat, i: nat, a: nat, m: Store): Option<nat>
    decreases i
  {
    var (g, n) := GWalk(DirectorySpace(c, dc), DIRECTORY_READ, ProcessEntry(i, pid, a), m);
    if g.GErr? then None
    else if i == 0 then Some(g.pa)
    else RecordFrom(c, dc, t, pid, i - 1, EntryIn(t.pdtes, g.pa).ppn * PAGE_SIZE, n)
  }

  function RecordOf(c: Config, dc: DeviceContext, t: Tree, pid: nat, m: Store): Option<nat> {
    RecordFrom(c, dc, t, pid, ProcessLevels(dc) - 1, dc.fsc.ppn * PAGE_SIZE, m)
  }

  function Recorded(t: Tree, addr: nat, rec: ProcessRecord): Tree { t.(pcs := t.pcs[addr := rec]) }

  lemma {:induction false} DevicesIgnoreRecords(c: Config, t: Tree, addr: nat, rec: ProcessRecord, id: nat, i: nat, a: nat, m: Store)
    ensures LocateDeviceFrom(c, Recorded(t, addr, rec), id, i, a, m) == LocateDeviceFrom(c, t, id, i, a, m)
    decreases i
  {
    hide DeviceIndex, Pow2, Misconfigured, LoadStatus;
    if i > 0 {
      var e := EntryIn(t.ddtes, a + DeviceIndex(c.caps.msiFlat, i, id) * 8);
      DevicesIgnoreRecords(c, t, addr, rec, id, i - 1, e.ppn * PAGE_SIZE, m);
    }
  }

  /** A walk that ends elsewhere does not see the record. */
  lemma {:induction false} WalkElsewhere(c: Config, dc: DeviceContext, t: Tree, addr: nat, rec: ProcessRecord, pid: nat,
                                         i: nat, a: nat, m: Store)
    requires RecordFrom(c, dc, t, pid, i, a, m) != Some(addr)
    ensures LocateProcessFrom(c, dc, Recorded(t, addr, rec), pid, i, a, m) == LocateProcessFrom(c, dc, t, pid, i, a, m)
    decreases i
  {
    hide GWalk, ProcessEntry, Pow2, DirectorySpace, LoadStatus, GuestFailure, ProcessMisconfigured;
    var (g, n) := GWalk(DirectorySpace(c, dc), DIRECTORY_READ, ProcessEntry(i, pid, a), m);
    if g.GOk? && i > 0 { WalkElsewhere(c, dc, t, addr, rec, pid, i - 1, EntryIn(t.pdtes, g.pa).ppn * PAGE_SIZE, n); }
  }

  /** The settled walk of some other process ends at the record. */
  predicate SharesRecord(c: Config, t: Tree, m: Store, addr: nat, id: nat, pid: nat, y: nat, q: nat, pc: ProcessContext) {
    && (y != id || q != pid) && IdFits(c, t, y) && Settled(c, t, m, y, q, pc)
    && RecordOf(c, LocateDevice(c, t, y, m).ctx, t, q, m) == Some(addr)
  }

  /** Whatever is written to a process's record, IODIR.INVAL_PDT for that one process covers, if no
      other process's walk ends there. */
  lemma RecordEditIsCovered(c: Config, t: Tree, m: Store, id: nat, pid: nat, addr: nat, rec: ProcessRecord)
    requires ValidTree(t) && forall y: nat, q: nat, pc :: !SharesRecord(c, t, m, addr, id, pid, y, q, pc)
    ensures Covered(c, t, m, Recorded(t, addr, rec), m, InvalPdt(id, pid))
  {
    hide LocateDeviceFrom, LocateProcessFrom, IdFits, SharesRecord, Settled;
    var u := Recorded(t, addr, rec);
    SameWidth(c, t, u);
    forall y: nat ensures LocateDevice(c, u, y, m) == LocateDevice(c, t, y, m) {
      DevicesIgnoreRecords(c, t, addr, rec, y, t.levels - 1, t.root * PAGE_SIZE, m);
    }
    forall y: nat, q: nat, pc | IdFits(c, u, y)
      ensures NamesProcess(InvalPdt(id, pid), y, q) || ProcessKept(c, t, m, u, m, y, q, pc)
    {
      if (y != id || q != pid) && Settled(c, t, m, y, q, pc) { SettledElsewhere(c, t, m, id, pid, addr, rec, y, q, pc); }
    }
  }

  lemma SettledElsewhere(c: Config, t: Tree, m: Store, id: nat, pid: nat, addr: nat, rec: ProcessRecord, y: nat, q: nat, pc: ProcessContext)
    requires Settled(c, t, m, y, q, pc) && IdFits(c, t, y) && (y != id || q != pid) && !SharesRecord(c, t, m, addr, id, pid, y, q, pc)
    ensures Settled(c, Recorded(t, addr, rec), m, y, q, pc)
  {
    hide LocateDeviceFrom, LocateProcessFrom, UsesDirectory, RecordFrom, IdFits;
    DevicesIgnoreRecords(c, t, addr, rec, y, t.levels - 1, t.root * PAGE_SIZE, m);
    var dc := LocateDevice(c, t, y, m).ctx;
    WalkElsewhere(c, dc, t, addr, rec, q, ProcessLevels(dc) - 1, dc.fsc.ppn * PAGE_SIZE, m);
  }

  /** A directory of one level without a second stage. */
  predicate OneLevel(dc: DeviceContext) { dc.fsc.mode == PD8 && dc.iohgatp.mode == BARE }

  lemma OneLevelRecord(c: Config, dc: DeviceContext, t: Tree, pid: nat, m: Store)
    requires OneLevel(dc) && SecondBareSize(c) >= 12 && PidFits(dc, pid)
    ensures RecordOf(c, dc, t, pid, m) == Some(dc.fsc.ppn * PAGE_SIZE + pid * 16) && pid < 256
  {
    Pow2Plus8(0);
    assert Pow2(0) == 1 && Shr(pid, 0) == pid;
    ShrZero(pid, 8);
    hide Low, Shr, Pow2;
    BareWalk(DirectorySpace(c, dc), DIRECTORY_READ, dc.fsc.ppn * PAGE_SIZE + pid * 16, m);
    hide GWalk;
  }

  /** So are the records of one-level directories that the devices do not share. */
  lemma OneLevelEditIsCovered(c: Config, t: Tree, m: Store, id: nat, pid: nat, rec: ProcessRecord)
    requires ValidTree(t) && SecondBareSize(c) >= 12
    requires LocateDevice(c, t, id, m).Found? && UsesDirectory(LocateDevice(c, t, id, m).ctx, pid)
    requires forall y: nat | IdFits(c, t, y) && LocateDevice(c, t, y, m).Found? && HasDirectory(LocateDevice(c, t, y, m).ctx) ::
               var (l, k) := (LocateDevice(c, t, y, m), LocateDevice(c, t, id, m));
               OneLevel(l.ctx) && (l.ctx.fsc.ppn == k.ctx.fsc.ppn ==> y == id)
    requires IdFits(c, t, id)
    ensures var dc := LocateDevice(c, t, id, m).ctx;
            Covered(c, t, m, Recorded(t, dc.fsc.ppn * PAGE_SIZE + pid * 16, rec), m, InvalPdt(id, pid))
  {
    hide LocateDevice, LocateProcess, RecordOf, Covered, IdFits, PidFits;
    var dc := LocateDevice(c, t, id, m).ctx;
    var addr := dc.fsc.ppn * PAGE_SIZE + pid * 16;
    OneLevelRecord(c, dc, t, pid, m);
    forall y: nat, q: nat, pc ensures !SharesRecord(c, t, m, addr, id, pid, y, q, pc) {
      if IdFits(c, t, y) && Settled(c, t, m, y, q, pc) { OneLevelRecord(c, LocateDevice(c, t, y, m).ctx, t, q, m); }
    }
    RecordEditIsCovered(c, t, m, id, pid, addr, rec);
  }
}
