/** What the first stage does through a second one: each entry is read where the second stage takes its guest
    address, and what that meets decides how the walk goes on and what the request gets. */
module NestedRules {
  import opened Bits
  import opened Common
  import opened PageTables
  import opened SecondStage
  import opened TwoStage
  import opened Translate
  import opened DeviceContexts
  import opened TranslationProcess
  import opened LeafRules
  import opened ProcessRules

  /** An entry is read for the walk as a load that is implicit, with user rights. */
  const AS_LOAD := Access(true, true, false, false, true)

  /** The read of an entry: refused by the second stage, failed, or the word, where it is, and whether the second
      stage lets it be written. */
  datatype Met = NotMapped(fault: GFault) | NotLoaded(corrupt: bool) | Word(addr: nat, p: Pte, writable: bool)

  function ReadThrough(sp: Space, f: Format, m: Store, gpa: nat): (Met, Store) {
    var (g, n) := GWalk(sp, AS_LOAD, gpa, m);
    if g.GErr? then (NotMapped(g.fault), n)
    else if g.pa >= Pow2(sp.pas) || g.pa in n.loadViolations then (NotLoaded(false), n)
    else if g.pa in n.poisoned then (NotLoaded(true), n)
    else (Word(g.pa, Fetch(n, Slot(g.pa, EntryBytes(f))), g.pte.W), n)
  }

  predicate Proper(s: Scheme, t: Trail) { Within(s, t.tables) && |t.before| == |t.tables| }

  /** The read of the entry of `iova` in the last table. */
  function ReadLast(sp: Space, t: Trail, iova: nat): (Met, Store)
    requires sp.vmode.Paged? && Proper(FirstScheme(sp), t)
  {
    ReadThrough(sp, sp.vmode.format, t.before[|t.before| - 1], AddrIn(FirstScheme(sp), t.tables, iova))
  }

  /** The walk for `iova` in memory `m` goes along the trail, pointer by pointer. */
  predicate LeadsThrough(sp: Space, m: Store, t: Trail, iova: nat)
    requires sp.vmode.Paged?
    decreases |t.tables|
  {
    Proper(FirstScheme(sp), t) &&
    if |t.tables| == 1 then t.tables[0] == sp.vppn && t.before[0] == m
    else
      LeadsThrough(sp, m, t.Above(), iova) &&
      var (met, n) := ReadLast(sp, t.Above(), iova);
      && met.Word? && PointerWord(FirstScheme(sp), met.p)
      && met.p.PPN == t.tables[|t.tables| - 1] && n == t.before[|t.tables| - 1]
  }

  predicate GlobalThrough(sp: Space, t: Trail, iova: nat)
    requires sp.vmode.Paged? && Proper(FirstScheme(sp), t)
    decreases |t.tables|
  {
    |t.tables| > 1 &&
    (GlobalThrough(sp, t.Above(), iova) || (var met := ReadLast(sp, t.Above(), iova).0; met.Word? && met.p.G))
  }

  /** The read of an entry of the table at `a`, of level `k`, goes on to another table. */
  predicate GoesOn(s: Scheme, met: Met, k: nat) { met.Word? && PointerWord(s, met.p) && k > 0 }

  /** Or it ends the walk: at a leaf, found where it is, or with what the read meets: a guest page fault with the
      address of the table, an access fault, a corruption, or a page fault for a word that is no leaf or pointer. */
  predicate EndsAs(s: Scheme, met: Met, k: nat, a: nat, global: bool, r: VReached) {
    match met
    case NotMapped(e) => r == VStop(match e case GstPageFault => GuestPageFault(a + 1)
                                            case GstAccessFault => WalkAccessFault
                                            case GstDataCorruption => WalkCorruption)
    case NotLoaded(corrupt) => r == VStop(if corrupt then WalkCorruption else WalkAccessFault)
    case Word(addr, p, writable) =>
      if LeafWord(s, p, k) then r == VLeaf(addr, p, k, global, writable, a) else r == VStop(PageFault)
  }

  lemma NestedStep(sp: Space, m: Store, t: Trail, iova: nat, global: bool)
    requires sp.vmode.Paged? && LeadsThrough(sp, m, t, iova)
    ensures var (s, f, (met, n)) := (FirstScheme(sp), sp.vmode.format, ReadLast(sp, t, iova));
            var (vpn, k, a) := (Indices(f, 0, iova), LevelOf(s, t.tables), t.tables[|t.tables| - 1] * PAGE_SIZE);
            var (r, n') := VReachFrom(sp, vpn, k, a, global, t.before[|t.before| - 1]);
            if GoesOn(s, met, k) then (r, n') == VReachFrom(sp, vpn, k - 1, met.p.PPN * PAGE_SIZE, global || met.p.G, n)
            else EndsAs(s, met, k, a, global, r) && n' == n
  {
    var f := sp.vmode.format;
    EntryIsThere(sp, t, iova);
    ReadUnfolds(sp, Indices(f, 0, iova), LevelOf(FirstScheme(sp), t.tables), t.tables[|t.tables| - 1] * PAGE_SIZE, global,
                t.before[|t.before| - 1]);
    hide Pow2, Indices, VReachFrom, LeadsThrough, AddrIn, EntrySlot, ReadThrough, GoesOn, EndsAs;
  }

  lemma ReadUnfolds(sp: Space, vpn: seq<nat>, k: nat, a: nat, global: bool, m: Store)
    requires sp.vmode.Paged? && k < |vpn| && EntryBytes(sp.vmode.format) == sp.vmode.format.PteSize()
    ensures var (s, (met, n)) := (FirstScheme(sp), ReadThrough(sp, sp.vmode.format, m, EntrySlot(sp.vmode.format, vpn, k, a).addr));
            var (r, n') := VReachFrom(sp, vpn, k, a, global, m);
            if GoesOn(s, met, k) then (r, n') == VReachFrom(sp, vpn, k - 1, met.p.PPN * PAGE_SIZE, global || met.p.G, n)
            else EndsAs(s, met, k, a, global, r) && n' == n
  {
    assert AS_LOAD == IMPLICIT;
    var met := ReadThrough(sp, sp.vmode.format, m, EntrySlot(sp.vmode.format, vpn, k, a).addr).0;
    if met.Word? { WordKinds(sp, met.p, k); }
    hide Fetch, Pow2, GWalk, EntrySlot, Malformed, IsLeaf, BadPointer, LeafWord, PointerWord;
  }

  lemma EntryIsThere(sp: Space, t: Trail, iova: nat)
    requires sp.vmode.Paged? && Proper(FirstScheme(sp), t)
    ensures var (s, f) := (FirstScheme(sp), sp.vmode.format);
            var (vpn, k, a) := (Indices(f, 0, iova), LevelOf(s, t.tables), t.tables[|t.tables| - 1] * PAGE_SIZE);
            && 0 <= k < |vpn| && EntryBytes(f) == f.PteSize() && EntrySlot(f, vpn, k, a).addr == AddrIn(s, t.tables, iova)
  {
    var k := LevelOf(FirstScheme(sp), t.tables);
    PageSizes(sp.vmode.format, k);
    IndexIs(sp.vmode.format, false, k, iova);
    hide Fetch, Pow2, Vpn, IndexOf;
  }

  /** The tests of the walk tell leaves, pointers and other words apart so. */
  lemma WordKinds(sp: Space, p: Pte, k: nat)
    requires sp.vmode.Paged?
    ensures var s := FirstScheme(sp);
            && (LeafWord(s, p, k) <==> !Malformed(sp, p) && !(k != 0 && p.N) && IsLeaf(p))
            && (PointerWord(s, p) && k > 0 <==> !Malformed(sp, p) && !(k != 0 && p.N) && !IsLeaf(p) && !BadPointer(p) && k > 0)
  {
  }

  lemma {:induction false} NestedLeads(sp: Space, m: Store, t: Trail, iova: nat)
    requires sp.vmode.Paged? && LeadsThrough(sp, m, t, iova) && Canonical(sp.vmode.format, iova)
    ensures var (s, f) := (FirstScheme(sp), sp.vmode.format);
            VReach(sp, iova, m) == VReachFrom(sp, Indices(f, 0, iova), LevelOf(s, t.tables), t.tables[|t.tables| - 1] * PAGE_SIZE,
                                              GlobalThrough(sp, t, iova), t.before[|t.before| - 1])
    decreases |t.tables|
  {
    hide Fetch, Pow2, Indices, Sane, VReachFrom, Canonical, ReadThrough;
    PageSizes(sp.vmode.format, 0);
    if |t.tables| > 1 {
      NestedLeads(sp, m, t.Above(), iova);
      NestedStep(sp, m, t.Above(), iova, GlobalThrough(sp, t.Above(), iova));
    }
  }

  /** The last read of the trail meets no pointer to go on with. */
  predicate AtEnd(sp: Space, m: Store, t: Trail, iova: nat)
    requires sp.vmode.Paged?
  {
    && LeadsThrough(sp, m, t, iova)
    && !GoesOn(FirstScheme(sp), ReadLast(sp, t, iova).0, LevelOf(FirstScheme(sp), t.tables))
  }

  /** The first stage ends as the trail does, and in its memory. */
  lemma NestedEnds(sp: Space, m: Store, t: Trail, iova: U64)
    requires sp.vmode.Paged? && AtEnd(sp, m, t, iova) && SignExtended(sp.vmode.format, iova)
    ensures var ((r, n), (met, n'), s) := (VReach(sp, iova, m), ReadLast(sp, t, iova), FirstScheme(sp));
            && EndsAs(s, met, LevelOf(s, t.tables), t.tables[|t.tables| - 1] * PAGE_SIZE, GlobalThrough(sp, t, iova), r)
            && n == n'
  {
    hide Fetch, Pow2, Indices, Sane, VReachFrom, VReach, GlobalThrough, ReadThrough;
    NestedLeads(sp, m, t, iova);
    NestedStep(sp, m, t, iova, GlobalThrough(sp, t, iova));
  }

  /** Every walk has such a trail. */
  lemma {:induction false} TrailEnds(sp: Space, m: Store, t: Trail, iova: nat) returns (end: Trail)
    requires sp.vmode.Paged? && LeadsThrough(sp, m, t, iova)
    ensures AtEnd(sp, m, end, iova)
    decreases Depth(sp.vmode.format) - |t.tables|
  {
    hide Pow2, Sane, ReadThrough;
    end := t;
    var s := FirstScheme(sp);
    var (met, n) := ReadLast(sp, t, iova);
    if GoesOn(s, met, LevelOf(s, t.tables)) {
      var next := Trail(t.tables + [met.p.PPN], t.before + [n]);
      assert next.Above() == t;
      end := TrailEnds(sp, m, next, iova);
    }
  }

  lemma TrailStarts(sp: Space, m: Store, iova: nat)
    requires sp.vmode.Paged?
    ensures LeadsThrough(sp, m, Trail([sp.vppn], [m]), iova)
  {
  }

  /** The root of the trail of a request is that of the first stage found for it. */
  lemma RootIs(c: Config, dc: DeviceContext, fsc: Atp, f: Format)
    requires FormatIs(fsc.mode, dc.tc.sxl, f)
    ensures var sp := SpaceOf(c, dc, fsc);
            sp.vmode == Paged(f) && FirstScheme(sp) == FirstTables(c, fsc, f) && sp.vppn == fsc.ppn && sp.pas == c.caps.pas
  {
    hide SecondBareSize, FirstBareSize;
  }

  /** What a request gets whose walk ends without a leaf. */
  lemma NestedStops(c: Config, ts: Tables, r: Incoming, m: Store, dc: DeviceContext, fsc: Atp, sum: bool, m1: Store, f: Format, t: Trail)
    requires Walking(c, ts, r, m, dc, fsc, sum, m1) && FormatIs(fsc.mode, dc.tc.sxl, f) && SignExtended(f, r.iova)
    requires SpaceOf(c, dc, fsc).vmode.Paged? && AtEnd(SpaceOf(c, dc, fsc), m1, t, r.iova)
    ensures var ((met, n), (o, n')) := (ReadLast(SpaceOf(c, dc, fsc), t, r.iova), Process(c, ts, r, m));
            match met
            case NotMapped(e) =>
              n' == n && o == (match e case GstPageFault => Faulted(Selected(r, 20, 21, 23), t.tables[|t.tables| - 1] * PAGE_SIZE + 1)
                                       case GstAccessFault => Faulted(Selected(r, 1, 5, 7), 0)
                                       case GstDataCorruption => Faulted(274, 0))
            case NotLoaded(corrupt) => n' == n && o == if corrupt then Faulted(274, 0) else Faulted(Selected(r, 1, 5, 7), 0)
            case Word(_, p, _) =>
              !LeafWord(FirstTables(c, fsc, f), p, LevelOf(FirstTables(c, fsc, f), t.tables)) ==>
                n' == n && o == Faulted(Selected(r, 12, 13, 15), 0)
  {
    hide SpaceOf, ValidSpace, RouteOf, BareSizesFit, Process, WalksOf, VReach, Usable, FormatIs, LeadsThrough, ReadLast, SignExtended;
    var sp, req := SpaceOf(c, dc, fsc), RequestOf(r, sum);
    ProcessWalks(c, ts, r, m, dc, fsc, sum, m1);
    RootIs(c, dc, fsc, f);
    NestedEnds(sp, m1, t, r.iova);
    var (q, n) := VReach(sp, r.iova, m1);
    if q.VStop? {
      assert VWalk(sp, req, m1) == (VErr(q.fault), n);
      FirstErrorIsOutcome(c, ts.ptes, sp, dc.msi, req, m1);
      FaultOf(r, sum, q.fault);
    }
  }
}
