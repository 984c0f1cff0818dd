/** Which words the translation process may write: leaves of the second stage with GADE set, and the leaf of the
    first stage that it found with SADE set. */
module ProcessWrites {
  import opened Bits
  import opened Common
  import opened PageTables
  import opened SecondStage
  import opened TwoStage
  import opened Translate
  import opened AdUpdates
  import opened DeviceContexts
  import opened Directories
  import opened Msi
  import opened TranslationProcess
  import opened HostPages
  import opened ProcessRules

  /** A search of the first stage sets bits in leaves of the second stage at most. */
  lemma {:induction false} SearchMarks(sp: Space, vpn: seq<nat>, i: nat, a: nat, global: bool, m: Store, n: Store)
    requires sp.vmode.Paged? && i < |vpn| && Marked(sp, m, n)
    ensures Marked(sp, m, VReachFrom(sp, vpn, i, a, global, n).1)
    decreases i
  {
    hide GWalk, Marked, Malformed, BadPointer, Fetch, Pow2;
    var gpa := EntrySlot(sp.vmode.format, vpn, i, a).addr;
    MarkedMore(sp, IMPLICIT, gpa, m, n);
    var (g, o) := GWalk(sp, IMPLICIT, gpa, n);
    if g.GOk? && i > 0 {
      var p := Fetch(o, Slot(g.pa, sp.vmode.format.PteSize()));
      SearchMarks(sp, vpn, i - 1, p.PPN * PAGE_SIZE, global || p.G, m, o);
    }
  }

  lemma ReachMarks(sp: Space, iova: nat, m: Store)
    ensures Marked(sp, m, VReach(sp, iova, m).1)
  {
    assert Marked(sp, m, m);
    hide VReachFrom, Marked;
    if sp.vmode.Paged? {
      var f := sp.vmode.format;
      SearchMarks(sp, Indices(f, 0, iova), f.Levels() - 1, sp.vppn * PAGE_SIZE, false, m, m);
    }
  }

  /** The word is the leaf of the first stage that the search finds. */
  predicate FirstLeafWord(sp: Space, iova: nat, m: Store, s: Slot) {
    var q := VReach(sp, iova, m).0; q.VLeaf? && sp.vmode.Paged? && s == Slot(q.addr, sp.vmode.format.PteSize())
  }

  /** What may be written: with GADE a leaf of the second stage, with SADE that of the first. */
  ghost predicate MayWrite(sp: Space, iova: nat, m: Store, s: Slot, sade: bool, gade: bool) {
    (gade && exists gpa :: AtLeaf(sp, gpa, m, s)) || (sade && FirstLeafWord(sp, iova, m, s))
  }

  lemma FirstStageWrites(sp: Space, req: Request, m: Store, s: Slot)
    ensures Fetch(VWalk(sp, req, m).1, s) != Fetch(m, s) ==> MayWrite(sp, req.iova, m, s, sp.sade, sp.gade)
  {
    hide VReachFrom, GReach, WellAligned, VPermits, Splice, AdExtends, Fetch;
    ReachMarks(sp, req.iova, m);
    var (q, m2) := VReach(sp, req.iova, m);
    PutElsewhere(sp, req, q, m2, s);
    if Fetch(m2, s) != Fetch(m, s) { assert Markable(sp, m, s); }
  }

  lemma PutElsewhere(sp: Space, req: Request, q: VReached, m: Store, s: Slot)
    requires q.VLeaf? ==> sp.vmode.Paged?
    ensures Fetch(VFinish(sp, req, q, m).1, s) != Fetch(m, s) ==> sp.sade && q.VLeaf? && s == Slot(q.addr, sp.vmode.format.PteSize())
  {
    hide WellAligned, VPermits, Splice;
  }

  lemma SecondWrites(sp: Space, acc: Access, gpa: nat, m: Store, n: Store, s: Slot)
    requires AdExtends(m, n)
    ensures Fetch(GWalk(sp, acc, gpa, n).1, s) != Fetch(n, s) ==> sp.gade && AtLeaf(sp, gpa, m, s)
  {
    ReachAlike(sp, gpa, m, n);
    hide GReach, WellAligned, GPermits, Splice, AdExtends;
    GLeafInMemory(sp, gpa, n);
  }

  /** The walks of a request write nothing else. */
  lemma WalksWrite(c: Config, ptes: map<nat, MsiPte>, sp: Space, msi: MsiFields, req: Request, m: Store, s: Slot)
    requires ValidSpace(sp)
    ensures Fetch(WalksOf(c, ptes, sp, msi, req, m).1, s) != Fetch(m, s) ==> MayWrite(sp, req.iova, m, s, sp.sade, sp.gade)
  {
    hide VWalk, GWalk, MsiTranslation, Merge, Fetch, AtLeaf, FirstLeafWord;
    FirstStageWrites(sp, req, m, s);
    VWalkExtends(sp, req, m);
    var (v, m1) := VWalk(sp, req, m);
    if v.VOk? { SecondWrites(sp, Explicit(req), v.gpa, m, m1, s); }
  }

  /** A request that has come to its walks writes only what the context it was located with allows. */
  lemma ContextAllows(c: Config, ts: Tables, r: Incoming, m: Store, dc: DeviceContext, fsc: Atp, sum: bool, m1: Store, s: Slot)
    requires Walking(c, ts, r, m, dc, fsc, sum, m1)
    ensures Fetch(Process(c, ts, r, m).1, s) != Fetch(m1, s) ==> MayWrite(SpaceOf(c, dc, fsc), r.iova, m1, s, dc.tc.sade, dc.tc.gade)
  {
    hide SpaceOf, ValidSpace, RouteOf, BareSizesFit, Process, WalksOf, MayWrite, Usable, Fetch;
    ProcessWalks(c, ts, r, m, dc, fsc, sum, m1);
    UpdateFields(c, dc, fsc);
    WalksWrite(c, ts.ptes, SpaceOf(c, dc, fsc), dc.msi, RequestOf(r, sum), m1, s);
  }

  lemma UpdateFields(c: Config, dc: DeviceContext, fsc: Atp)
    ensures SpaceOf(c, dc, fsc).sade == dc.tc.sade && SpaceOf(c, dc, fsc).gade == dc.tc.gade
  {
  }

  lemma {:induction false} LocatingMarks(c: Config, dc: DeviceContext, t: Tree, pid: nat, i: nat, a: nat, m: Store, n: Store)
    requires Marked(DirectorySpace(c, dc), m, n)
    ensures Marked(DirectorySpace(c, dc), m, LocateProcessFrom(c, dc, t, pid, i, a, n).1)
    decreases i
  {
    hide GWalk, Marked, ProcessEntry, Pow2, ProcessAt, DirectorySpace, GuestFailure;
    var sp, gpa := DirectorySpace(c, dc), ProcessEntry(i, pid, a);
    MarkedMore(sp, DIRECTORY_READ, gpa, m, n);
    var (g, o) := GWalk(sp, DIRECTORY_READ, gpa, n);
    if g.GOk? && i > 0 { LocatingMarks(c, dc, t, pid, i - 1, EntryIn(t.pdtes, g.pa).ppn * PAGE_SIZE, m, o); }
  }

  /** Without GADE and SADE in the device context a request that comes to its walks writes nothing at all. */
  lemma NothingWritten(c: Config, ts: Tables, r: Incoming, m: Store, dc: DeviceContext, fsc: Atp, sum: bool, m1: Store, s: Slot)
    requires Walking(c, ts, r, m, dc, fsc, sum, m1) && !dc.tc.sade && !dc.tc.gade
    ensures Fetch(Process(c, ts, r, m).1, s) == Fetch(m, s)
  {
    ContextAllows(c, ts, r, m, dc, fsc, sum, m1, s);
    RouteWrites(c, ts, r, m, s);
    hide Process, RouteOf, Fetch, Usable;
  }

  /** On the way there only second-stage leaves are written, with GADE, where the process directory is read. */
  lemma RouteWrites(c: Config, ts: Tables, r: Incoming, m: Store, s: Slot)
    requires ValidTables(ts)
    ensures var (route, m1) := RouteOf(c, ts, r, m); Fetch(m1, s) != Fetch(m, s) && route.Walks? ==> route.dc.tc.gade
  {
    hide LocateDeviceFrom, LocateProcessFrom, Misconfigured, Fetch;
    var l := LocateDevice(c, ts.tree, r.id, m);
    if l.Found? {
      var pid := if r.pid.None? then 0 else r.pid.value;
      ProcessMarks(c, l.ctx, ts.tree, pid, m, s);
    }
  }

  lemma ProcessMarks(c: Config, dc: DeviceContext, t: Tree, pid: nat, m: Store, s: Slot)
    ensures Fetch(LocateProcess(c, dc, t, pid, m).1, s) != Fetch(m, s) ==> dc.tc.gade
  {
    assert Marked(DirectorySpace(c, dc), m, m);
    LocatingMarks(c, dc, t, pid, ProcessLevels(dc) - 1, dc.fsc.ppn * PAGE_SIZE, m, m);
    UpdateFields(c, dc, Atp(BARE, 0, 0));
    hide LocateProcessFrom, Fetch, SpaceOf;
  }
}
