/** Which address a guest page fault met on the way through the first stage reports. */
module GuestFaults {
  import opened Bits
  import opened Common
  import opened PageTables
  import opened SecondStage
  import opened TwoStage

  /** The entry a first-stage search reads last: its level, the guest address of its table, and the
      memory it is read in. */
  datatype Ended = Ended(level: nat, table: nat, before: Store)

  /** The entry at which the search from the table at `a`, level `i`, ends: it goes on from an entry that is
      granted, loaded and a pointer. */
  function LastEntry(sp: Space, vpn: seq<nat>, i: nat, a: nat, m: Store): (e: Ended)
    requires sp.vmode.Paged? && i < |vpn|
    ensures e.level <= i
    decreases i
  {
    var (g, m1) := GWalk(sp, IMPLICIT, EntrySlot(sp.vmode.format, vpn, i, a).addr, m);
    if i == 0 || g.GErr? || g.pa >= Pow2(sp.pas) || !LoadStatus(m1, g.pa).Okay? then Ended(i, a, m)
    else
      var p := Fetch(m1, Slot(g.pa, sp.vmode.format.PteSize()));
      if Malformed(sp, p) || p.N || IsLeaf(p) || BadPointer(p) then Ended(i, a, m)
      else LastEntry(sp, vpn, i - 1, p.PPN * PAGE_SIZE, m1)
  }

  /** The guest address of that entry. */
  function AddressOf(sp: Space, vpn: seq<nat>, e: Ended): nat
    requires sp.vmode.Paged? && e.level < |vpn|
  {
    EntrySlot(sp.vmode.format, vpn, e.level, e.table).addr
  }

  /** What the second stage says of the access to it. */
  function AccessTo(sp: Space, vpn: seq<nat>, e: Ended): GResult
    requires sp.vmode.Paged? && e.level < |vpn|
  {
    GWalk(sp, IMPLICIT, AddressOf(sp, vpn, e), e.before).0
  }

  /** The search stops with a guest page fault exactly when the second stage has one for the entry it ends at,
      and reports the table of that entry; a leaf it finds is that entry. */
  lemma {:induction false} SearchEnds(sp: Space, vpn: seq<nat>, i: nat, a: nat, global: bool, m: Store)
    requires sp.vmode.Paged? && i < |vpn| && a % PAGE_SIZE == 0
    ensures var r, e := VReachFrom(sp, vpn, i, a, global, m).0, LastEntry(sp, vpn, i, a, m);
            && e.table % PAGE_SIZE == 0
            && (r.VStop? && r.fault.GuestPageFault? <==> AccessTo(sp, vpn, e) == GErr(GstPageFault))
            && (r.VStop? && r.fault.GuestPageFault? ==> r.fault.iotval2 == e.table + 1)
            && (r.VLeaf? ==> r.level == e.level && r.table == e.table && AccessTo(sp, vpn, e).GOk?
                             && AccessTo(sp, vpn, e).pa == r.addr && AccessTo(sp, vpn, e).pte.W == r.writable)
    decreases i
  {
    hide GWalk, Malformed, BadPointer, Fetch, Pow2, EntrySlot;
    var (g, m1) := GWalk(sp, IMPLICIT, EntrySlot(sp.vmode.format, vpn, i, a).addr, m);
    if i > 0 && g.GOk? {
      var p := Fetch(m1, Slot(g.pa, sp.vmode.format.PteSize()));
      SearchEnds(sp, vpn, i - 1, p.PPN * PAGE_SIZE, global || p.G, m1);
    }
  }

  /** The table of an entry is the address of the entry exactly when the entry is its first. */
  lemma FirstEntryIff(sp: Space, vpn: seq<nat>, e: Ended)
    requires sp.vmode.Paged? && e.level < |vpn|
    ensures e.table == AddressOf(sp, vpn, e) <==> vpn[e.level] == 0
  {
  }

  /** The entry at which the first stage of `iova` ends. */
  function LastOf(sp: Space, iova: nat, m: Store): Ended
    requires sp.vmode.Paged?
  {
    LastEntry(sp, Indices(sp.vmode.format, 0, iova), sp.vmode.format.Levels() - 1, sp.vppn * PAGE_SIZE, m)
  }

  /** `iotval2` is meant to hold the guest address of the entry whose access faulted, with bit 0 for the
      implicit access and bit 1 for a write. For every guest page fault of a first-stage translation: the
      second stage refused the read of the entry the search ends at, or granted it without letting it be
      written; and the address reported is that of the entry exactly when the entry is the first of its table. */
  lemma GuestFaultAddress(sp: Space, req: Request, m: Store)
    requires sp.vmode.Paged? && VWalk(sp, req, m).0.VErr? && VWalk(sp, req, m).0.fault.GuestPageFault?
    ensures var vpn, e := Indices(sp.vmode.format, 0, req.iova), LastOf(sp, req.iova, m);
            var v := VWalk(sp, req, m).0.fault.iotval2;
            && (if v % 4 == 1 then AccessTo(sp, vpn, e) == GErr(GstPageFault)
                else v % 4 == 3 && AccessTo(sp, vpn, e).GOk? && !AccessTo(sp, vpn, e).pte.W)
            && (v - v % 4 == AddressOf(sp, vpn, e) <==> vpn[e.level] == 0)
  {
    hide VReachFrom, LastEntry, WellAligned, VPermits, Indices, EntrySlot, GWalk;
    var f := sp.vmode.format;
    var vpn := Indices(f, 0, req.iova);
    SearchEnds(sp, vpn, f.Levels() - 1, sp.vppn * PAGE_SIZE, false, m);
    FirstEntryIff(sp, vpn, LastOf(sp, req.iova, m));
  }

  /** And a refused read gives such a fault for every canonical address. */
  lemma RefusedReadFaults(sp: Space, req: Request, m: Store)
    requires sp.vmode.Paged? && Canonical(sp.vmode.format, req.iova)
    requires AccessTo(sp, Indices(sp.vmode.format, 0, req.iova), LastOf(sp, req.iova, m)) == GErr(GstPageFault)
    ensures VWalk(sp, req, m).0 == VErr(GuestPageFault(LastOf(sp, req.iova, m).table + 1))
  {
    hide VReachFrom, LastEntry, Indices, EntrySlot, GWalk;
    var f := sp.vmode.format;
    SearchEnds(sp, Indices(f, 0, req.iova), f.Levels() - 1, sp.vppn * PAGE_SIZE, false, m);
  }

  /** As does a leaf that has to be updated and may not be written. */
  lemma RefusedWriteFaults(sp: Space, req: Request, m: Store)
    requires sp.vmode.Paged? && VReach(sp, req.iova, m).0.VLeaf? && sp.sade
    requires var r := VReach(sp, req.iova, m).0;
             VPermits(req, r.pte) && WellAligned(sp.vmode.format, r.level, r.pte) && !VSettled(req, r.pte)
    ensures var vpn, e := Indices(sp.vmode.format, 0, req.iova), LastOf(sp, req.iova, m);
            AccessTo(sp, vpn, e).GOk? &&
            (VWalk(sp, req, m).0 == VErr(GuestPageFault(e.table + 3)) <==> !AccessTo(sp, vpn, e).pte.W)
  {
    hide VReachFrom, LastEntry, Indices, EntrySlot, GWalk, WellAligned, VPermits, VSettled;
    var f := sp.vmode.format;
    SearchEnds(sp, Indices(f, 0, req.iova), f.Levels() - 1, sp.vppn * PAGE_SIZE, false, m);
  }

  /** For instance in empty memory: the walk for address 2^22 in Sv32 tables at page `ppn` faults on the
      second entry, and the fault reports the first. */
  lemma SecondEntryFaults(sp: Space, ppn: Ppn)
    requires sp.vmode == Paged(Sv32) && sp.vppn == ppn && sp.gmode.Paged? && sp.gppn * PAGE_SIZE < Pow2(sp.pas)
    requires GpaFits(sp, ppn * PAGE_SIZE + 4)
    ensures VReach(sp, 0x40_0000, Store(map[], {}, {}, {})).0 == VStop(GuestPageFault(ppn * PAGE_SIZE + 1))
    ensures EntrySlot(Sv32, Indices(Sv32, 0, 0x40_0000), 1, ppn * PAGE_SIZE).addr == ppn * PAGE_SIZE + 4
  {
    hide Pow2, Low, Shr;
    assert Pow2(22) == 0x40_0000 by { SmallPowers(); Pow2Plus8(12); Pow2Plus8(14); }
    SmallPowers();
    ShrOfMultiple(1, 22, 0);
    LowIsRemainder(1, 10);
    var vpn := Indices(Sv32, 0, 0x40_0000);
    assert vpn[1] == 1;
    EmptyFaults(sp, ppn * PAGE_SIZE + 4);
    hide GWalk;
  }

  lemma EmptyFaults(sp: Space, gpa: nat)
    requires sp.gmode.Paged? && sp.gppn * PAGE_SIZE < Pow2(sp.pas) && GpaFits(sp, gpa)
    ensures GWalk(sp, IMPLICIT, gpa, Store(map[], {}, {}, {})).0 == GErr(GstPageFault)
  {
    hide Pow2, Vpn;
  }
}
