/** Building first-stage tables without a second stage: adding an entry changes what the search finds for just
    the addresses of the region it maps. */
module FirstStageBuilder {
  import opened Bits
  import opened Common
  import opened PageTables
  import opened SecondStage
  import opened TwoStage
  import opened AdUpdates
  import opened HostPages
  import opened FirstStageTables
  import G = GuestTrees
  import T = TableBuilder
  import TableTools

  // ---------------------------------------------------------------- what the builder does

  /** `add_s_stage_pte`, the loop of the second-stage builder over the first-stage indices */
  function Build(sp: Space, iova: nat, level: nat, leaf: Pte, m: Store, next: nat): T.Built
    requires sp.vmode.Paged?
  {
    var f := sp.vmode.format;
    T.BuildFrom(f, Indices(f, 0, iova), f.Levels() - 1, level, sp.vppn * PAGE_SIZE, leaf, m, next)
  }

  /** The code of `add_s_stage_pte` */
  method AddSStagePte(pages: TableTools.Allocator, mem: Memory, sp: Space, iova: U64, leaf: Pte, level: nat) returns (addr: Option<nat>)
    requires sp.vmode.Paged? && pages.nextFreePage + sp.vmode.format.Levels() < TWO_64
    modifies pages, mem
    ensures T.Built(mem.store, pages.nextFreePage, addr) == Build(sp, iova, level, leaf, old(mem.store), old(pages.nextFreePage))
  {
    var f := sp.vmode.format;
    var vpn := ExtractVsVpn(f, iova);
    FirstStageIndices(f, iova);
    hide T.BuildFrom, TableTools.SteppedDown, EntrySlot, Indices;
    var i: nat, table: nat := f.Levels() - 1, sp.vppn;
    ghost var was, n := mem.store, pages.nextFreePage;
    while i > level
      invariant i < f.Levels() && pages.nextFreePage + i < TWO_64 - 1
      invariant T.BuildFrom(f, vpn, i, level, table * PAGE_SIZE, leaf, mem.store, pages.nextFreePage) ==
                Build(sp, iova, level, leaf, was, n)
    {
      var s := AddressEntry(f, vpn, i, table);
      TableTools.BuildSteps(f, vpn, i, level, table * PAGE_SIZE, leaf, mem.store, pages.nextFreePage);
      var entry := pages.FollowOrLink(mem, s);
      if entry.None? { return None; }
      i := i - 1;
      table := entry.value.PPN;
    }
    var s := AddressEntry(f, vpn, i, table);
    TableTools.BuildEnds(f, vpn, i, level, table * PAGE_SIZE, leaf, mem.store, pages.nextFreePage);
    var status := mem.WriteMemory(s.addr, s.size, leaf);
    addr := if status.Okay? then Some(s.addr) else None;
  }

  /** `a | (vpn[i] * PTESIZE)` */
  method AddressEntry(f: Format, vpn: seq<nat>, i: nat, table: nat) returns (s: Slot)
    requires InTable(f, vpn, PAGE_SIZE) && i < |vpn|
    ensures s == EntrySlot(f, vpn, i, table * PAGE_SIZE)
  {
    hide Or;
    EntryAddress(table, vpn[i] * f.PteSize(), false);
    s := Slot(Or(table * PAGE_SIZE, vpn[i] * f.PteSize()), f.PteSize());
  }

  // ---------------------------------------------------------------- guest memory is memory

  /** All is ready for linking `n` more pages. */
  ghost predicate Ready(sp: Space, m: Store, next: nat, n: nat) {
    && ValidSpace(sp) && sp.vmode.Paged? && sp.gmode.Bare? && FreeIsClean(m, next)
    && (next + n) * PAGE_SIZE <= Pow2(sp.pas) && next + n <= (if sp.vmode.format.Sv32? then 0x40_0000 else 0x1000_0000_0000)
    && G.TreeShaped(Look(sp, m)) && G.Allocated(Look(sp, m), next, next)
  }

  lemma BareHost(sp: Space, x: nat, m: Store)
    requires ValidSpace(sp) && sp.gmode.Bare? && x < 0x100_0000_0000_0000
    ensures Host(sp, IMPLICIT, x, m) == Some(x)
  {
    hide GWalk;
    BareWalk(sp, IMPLICIT, x, m);
  }

  /** A Bare second stage is the same in every memory, and has no tables. */
  lemma BareAlike(sp: Space, m: Store, n: Store)
    requires sp.gmode.Bare? && sp.vmode.Paged?
    ensures Apart(sp, m) && forall gpa: nat :: GWalk(sp, IMPLICIT, gpa, n).0 == GWalk(sp, IMPLICIT, gpa, m).0
  {
    hide Look, Splice;
  }

  ghost predicate MayLink(sp: Space, m: Store, v: seq<nat>, i: nat, next: nat, n: nat) {
    && Ready(sp, m, next, n) && 0 < n && 0 < i && G.Comes(Look(sp, m), v, i) && Look(sp, m).cell(G.ReadAt(Look(sp, m), v, i)).Empty?
  }

  /** Memory after the empty word at `h` is pointed to the free page `next`. */
  function LinkedStore(sp: Space, h: nat, m: Store, next: nat): Store
    requires sp.vmode.Paged?
  {
    Put(T.ClearPage(m, next), Slot(h, sp.vmode.format.PteSize()), T.Linked(ZERO_PTE, next))
  }

  lemma LinkCells(sp: Space, m: Store, h: nat, next: nat)
    requires ValidSpace(sp) && sp.vmode.Paged? && sp.gmode.Bare? && FreeIsClean(m, next) && h < next * PAGE_SIZE
             && Look(sp, m).cell(h).Empty?
    requires (next + 1) * PAGE_SIZE <= Pow2(sp.pas) && next < (if sp.vmode.format.Sv32? then 0x40_0000 else 0x1000_0000_0000)
    ensures var o := LinkedStore(sp, h, m, next);
            var (w, x) := (Look(sp, m), Look(sp, o));
            && x.levels == w.levels && x.root == w.root && SameFaults(m, o) && x.cell(h) == G.Pointer(next)
            && (forall k: nat | k < next * PAGE_SIZE && k != h :: WordAt(sp, o, k) == WordAt(sp, m, k))
            && (forall k: nat | k < next * PAGE_SIZE :: x.open(k) == w.open(k) && (k != h ==> x.cell(k) == w.cell(k)))
            && (forall k: nat | InPage(k, next) :: x.cell(k).Empty? && x.open(k)) && (forall page: nat :: x.plain(page) && w.plain(page))
  {
    hide Pow2, GWalk;
  }

  lemma LinkLooks(sp: Space, m: Store, v: seq<nat>, i: nat, next: nat, n: nat)
    requires MayLink(sp, m, v, i, next, n)
    ensures var h := G.ReadAt(Look(sp, m), v, i);
            var o := LinkedStore(sp, h, m, next);
            G.Links(Look(sp, m), Look(sp, o), v, i, next, next) && SameReads(sp, m, o, h, next)
  {
    var h := G.ReadAt(Look(sp, m), v, i);
    var o := LinkedStore(sp, h, m, next);
    assert G.Below(Look(sp, m), v, i, next, next);
    hide ValidSpace, FreeIsClean, G.TreeShaped, Look, G.TableAt, LinkedStore, WordAt, GWalk, Pow2;
    LinkCells(sp, m, h, next);
    BareAlike(sp, m, o);
    HostsAlike(sp, m, o, next);
    G.LinksIf(Look(sp, m), Look(sp, o), v, i, next, next);
    forall x, j ensures WordKept(sp, m, o, h, x, j) { assert G.Below(Look(sp, m), x, j, next, next); }
  }

  lemma HostsAlike(sp: Space, m: Store, o: Store, next: nat)
    requires ValidSpace(sp) && sp.vmode.Paged? && sp.gmode.Bare? && (next + 1) * PAGE_SIZE <= Pow2(sp.pas)
    requires forall gpa: nat :: GWalk(sp, IMPLICIT, gpa, o).0 == GWalk(sp, IMPLICIT, gpa, m).0
    ensures forall gpa: nat :: Look(sp, o).host(gpa) == Look(sp, m).host(gpa)
    ensures forall gpa: nat | InPage(gpa, next) :: Look(sp, o).host(gpa) == Some(next * PAGE_SIZE + (gpa - next * PAGE_SIZE))
  {
    Pow2Of64();
    Pow2Mono(sp.pas, 56);
    hide GWalk, Pow2, WordAt;
    forall gpa: nat | InPage(gpa, next) ensures Host(sp, IMPLICIT, gpa, o) == Some(gpa) { BareHost(sp, gpa, o); }
  }

  lemma LinkReady(sp: Space, m: Store, v: seq<nat>, i: nat, level: nat, next: nat, n: nat)
    requires MayLink(sp, m, v, i, next, n)
    ensures var o := LinkedStore(sp, G.ReadAt(Look(sp, m), v, i), m, next);
            && Ready(sp, o, next + 1, n - 1) && SameSearches(sp, m, o) && StillBuildable(sp, v, level, m, o)
            && G.Has(Look(sp, o), v, i - 1) && G.TableAt(Look(sp, o), v, i - 1) == Some(next)
  {
    hide ValidSpace, G.TreeShaped, Look, G.TableAt, G.Links, SameReads, G.Allocated, SameSearches, StillBuildable, Pow2;
    LinkLooks(sp, m, v, i, next, n);
    LinkUpdates(sp, m, LinkedStore(sp, G.ReadAt(Look(sp, m), v, i), m, next), v, i, level, next, next, next + 1);
  }

  // ---------------------------------------------------------------- writing the entry

  ghost predicate MayWrite(sp: Space, m: Store, v: seq<nat>, level: nat, leaf: Pte, next: nat, n: nat) {
    && Ready(sp, m, next, n) && G.Comes(Look(sp, m), v, level) && Look(sp, m).open(G.ReadAt(Look(sp, m), v, level))
    && NewLeaf(sp, leaf, level)
  }

  lemma WriteReady(sp: Space, m: Store, v: seq<nat>, level: nat, leaf: Pte, next: nat, n: nat)
    requires MayWrite(sp, m, v, level, leaf, next, n)
    ensures var (h, o) := (G.ReadAt(Look(sp, m), v, level), LeafStore(sp, G.ReadAt(Look(sp, m), v, level), leaf, m));
            Ready(sp, o, next, n) && Updated(sp, m, v, level, leaf, h, o)
  {
    hide ValidSpace, G.TreeShaped, Look, G.Allocated, G.Writes, SameReads, Updated, NewLeaf, Open, WordAt, Pow2;
    WriteLooks(sp, m, v, level, leaf, next, n);
    WriteUpdates(sp, m, v, level, leaf, next, next);
  }

  lemma WriteLooks(sp: Space, m: Store, v: seq<nat>, level: nat, leaf: Pte, next: nat, n: nat)
    requires MayWrite(sp, m, v, level, leaf, next, n)
    ensures var h := G.ReadAt(Look(sp, m), v, level);
            var o := LeafStore(sp, h, leaf, m);
            && G.Writes(Look(sp, m), Look(sp, o), v, level, next, next) && SameReads(sp, m, o, h, next) && WordAt(sp, o, h) == leaf
            && Open(sp, o, h)
  {
    hide ValidSpace, FreeIsClean, G.TreeShaped, G.TableAt, GWalk, G.Allocated, Pow2;
    var h := G.ReadAt(Look(sp, m), v, level);
    var o := LeafStore(sp, h, leaf, m);
    BareAlike(sp, m, o);
    forall x, j ensures WordKept(sp, m, o, h, x, j) && G.CellKept(Look(sp, m), Look(sp, o), h, x, j) { SameCell(sp, m, o, x, j); }
  }

  // ---------------------------------------------------------------- building is a map update

  /** Everything the builder asks of the tables and of the free pages. */
  ghost predicate MayBuild(sp: Space, m: Store, v: seq<nat>, level: nat, leaf: Pte, next: nat, n: nat) {
    Ready(sp, m, next, n) && G.Buildable(Look(sp, m), v, level) && NewLeaf(sp, leaf, level)
  }

  ghost predicate Inserted(sp: Space, m: Store, v: seq<nat>, level: nat, leaf: Pte, next: nat, n: nat, b: T.Built)
    requires sp.vmode.Paged?
  {
    b.addr.Some? && next <= b.next <= next + n && Ready(sp, b.store, b.next, n - (b.next - next))
    && Updated(sp, m, v, level, leaf, b.addr.value, b.store)
  }

  lemma ReadyMeans(sp: Space, m: Store, next: nat, n: nat)
    requires Ready(sp, m, next, n)
    ensures ValidSpace(sp) && sp.vmode.Paged? && sp.gmode.Bare? && (0 < n ==> next < 0x1000_0000_0000)
  {
  }

  /** The builder's address of an entry is the walk's. */
  lemma SameAddress(sp: Space, m: Store, vpn: seq<nat>, i: nat)
    requires ValidSpace(sp) && sp.vmode.Paged? && sp.gmode.Bare? && |vpn| == sp.vmode.format.Levels()
    requires G.Comes(Look(sp, m), Offsets(sp.vmode.format, vpn), i)
    ensures var (w, v) := (Look(sp, m), Offsets(sp.vmode.format, vpn));
            EntrySlot(sp.vmode.format, vpn, i, G.TableAt(w, v, i).value * PAGE_SIZE) == Slot(G.ReadAt(w, v, i), sp.vmode.format.PteSize())
  {
    var w, v := Look(sp, m), Offsets(sp.vmode.format, vpn);
    TableNumber(sp, m, v, i);
    hide G.TableAt, GWalk, WordAt, Pow2;
    BareHost(sp, G.EntryAt(w, v, i), m);
  }

  lemma TableNumber(sp: Space, m: Store, v: seq<nat>, i: nat)
    requires sp.vmode.Paged? && G.Has(Look(sp, m), v, i)
    ensures G.TableAt(Look(sp, m), v, i).value < 0x1000_0000_0000
  {
    hide GWalk, Pow2, WordAt;
  }

  lemma LinkStep(sp: Space, m: Store, vpn: seq<nat>, i: nat, level: nat, a: nat, h: nat, leaf: Pte, next: nat)
    requires sp.vmode.Paged? && level < i < |vpn| && next < 0x1000_0000_0000
    requires EntrySlot(sp.vmode.format, vpn, i, a) == Slot(h, sp.vmode.format.PteSize())
    requires WordAt(sp, m, h) == ZERO_PTE && LoadStatus(m, h).Okay? && StoreStatus(m, h).Okay?
    ensures T.BuildFrom(sp.vmode.format, vpn, i, level, a, leaf, m, next) ==
            T.BuildFrom(sp.vmode.format, vpn, i - 1, level, next * PAGE_SIZE, leaf, LinkedStore(sp, h, m, next), next + 1)
  {
    hide T.ClearPage, EntrySlot;
  }

  lemma {:induction false} BuildInserts(sp: Space, m: Store, vpn: seq<nat>, i: nat, level: nat, leaf: Pte, next: nat, n: nat)
    requires sp.vmode.Paged? && |vpn| == sp.vmode.format.Levels() && level <= i <= level + n
    requires MayBuild(sp, m, Offsets(sp.vmode.format, vpn), level, leaf, next, n) && G.Has(Look(sp, m), Offsets(sp.vmode.format, vpn), i)
    ensures var v := Offsets(sp.vmode.format, vpn);
            var b := T.BuildFrom(sp.vmode.format, vpn, i, level, G.TableAt(Look(sp, m), v, i).value * PAGE_SIZE, leaf, m, next);
            Inserted(sp, m, v, level, leaf, next, n, b) && b.next <= next + (i - level)
    decreases i
  {
    hide T.BuildFrom, G.TableAt, Look, Ready, Updated, NewLeaf, ValidSpace, Offsets, SameSearches, StillBuildable, EntrySlot,
         LinkedStore, WordAt;
    var f, w, v := sp.vmode.format, Look(sp, m), Offsets(sp.vmode.format, vpn);
    G.UsableAt(w, v, i, level);
    ReadyMeans(sp, m, next, n);
    SameAddress(sp, m, vpn, i);
    OpenIsStorable(sp, m, v, i);
    var a, h := G.TableAt(w, v, i).value * PAGE_SIZE, G.ReadAt(w, v, i);
    if i == level {
      TableTools.BuildEnds(f, vpn, i, level, a, leaf, m, next);
      WriteReady(sp, m, v, level, leaf, next, n);
    } else if w.cell(h).Pointer? {
      FollowStep(sp, m, vpn, i, level, leaf, next);
      BuildInserts(sp, m, vpn, i - 1, level, leaf, next, n);
    } else {
      EmptyIsZero(sp, m, v, i);
      LinkStep(sp, m, vpn, i, level, a, h, leaf, next);
      LinkReady(sp, m, v, i, level, next, n);
      var o := LinkedStore(sp, h, m, next);
      StillPlaced(sp, v, level, m, o);
      BuildInserts(sp, o, vpn, i - 1, level, leaf, next + 1, n - 1);
      var done := T.BuildFrom(f, vpn, i - 1, level, next * PAGE_SIZE, leaf, o, next + 1);
      UpdatedBefore(sp, m, o, v, level, leaf, done.addr.value, done.store);
    }
  }

  lemma StillPlaced(sp: Space, v: seq<nat>, level: nat, m: Store, o: Store)
    requires sp.vmode.Paged? && StillBuildable(sp, v, level, m, o) && G.Buildable(Look(sp, m), v, level)
    ensures G.Buildable(Look(sp, o), v, level)
  {
    hide Look, G.Buildable;
  }

  /** A valid entry is followed. */
  lemma FollowStep(sp: Space, m: Store, vpn: seq<nat>, i: nat, level: nat, leaf: Pte, next: nat)
    requires ValidSpace(sp) && sp.vmode.Paged? && sp.gmode.Bare? && |vpn| == sp.vmode.format.Levels() && level < i
    requires var (w, v) := (Look(sp, m), Offsets(sp.vmode.format, vpn)); G.Comes(w, v, i) && w.cell(G.ReadAt(w, v, i)).Pointer?
    ensures var (w, v) := (Look(sp, m), Offsets(sp.vmode.format, vpn));
            && G.Has(w, v, i - 1)
            && T.BuildFrom(sp.vmode.format, vpn, i, level, G.TableAt(w, v, i).value * PAGE_SIZE, leaf, m, next) ==
               T.BuildFrom(sp.vmode.format, vpn, i - 1, level, G.TableAt(w, v, i - 1).value * PAGE_SIZE, leaf, m, next)
  {
    hide T.BuildFrom, Pow2, EntrySlot, GWalk, BadPointer, ValidSpace, G.TableAt, Offsets;
    var w, v := Look(sp, m), Offsets(sp.vmode.format, vpn);
    SameAddress(sp, m, vpn, i);
    G.NextTable(w, v, i);
    TableTools.BuildSteps(sp.vmode.format, vpn, i, level, G.TableAt(w, v, i).value * PAGE_SIZE, leaf, m, next);
  }

  /** The builder acts on what the first-stage search finds as a map update, and leaves the tables ready for more. */
  lemma BuildIsMapUpdate(sp: Space, iova: U64, level: nat, leaf: Pte, m: Store, next: nat, n: nat)
    requires sp.vmode.Paged? && level < sp.vmode.format.Levels() <= level + 1 + n && Canonical(sp.vmode.format, iova)
    requires MayBuild(sp, m, PathOf(sp, iova), level, leaf, next, n)
    ensures var b := Build(sp, iova, level, leaf, m, next);
            && b.addr.Some? && b.next <= next + n && Ready(sp, b.store, b.next, n - (b.next - next))
            && MapUpdate(sp, m, iova, level, leaf, b.addr.value, b.store)
  {
    hide T.BuildFrom, Ready, Look, NewLeaf, Canonical, Indices, PathOf, Updated, MapUpdate, G.Buildable;
    var top := sp.vmode.format.Levels() - 1;
    var b := Build(sp, iova, level, leaf, m, next);
    RootOf(sp, iova, m);
    PathIsOffsets(sp, iova);
    BuildInserts(sp, m, Indices(sp.vmode.format, 0, iova), top, level, leaf, next, n);
    ReadyMeans(sp, m, next, n);
    BareAlike(sp, m, b.store);
    BareAlike(sp, b.store, m);
    UpdateOfRegion(sp, m, iova, level, leaf, b.addr.value, b.store);
  }

  // ---------------------------------------------------------------- an empty first stage

  /** A root page with nothing in it, from which on memory is clean. */
  ghost predicate EmptyRoot(sp: Space, m: Store) {
    && ValidSpace(sp) && sp.vmode.Paged? && sp.gmode.Bare? && FreeIsClean(m, sp.vppn) && (sp.vppn + 1) * PAGE_SIZE <= Pow2(sp.pas)
    && forall k: nat | InPage(k, sp.vppn) :: WordAt(sp, m, k) == ZERO_PTE
  }

  lemma EmptyRootEnds(sp: Space, m: Store, v: seq<nat>, j: nat)
    requires EmptyRoot(sp, m) && G.Has(Look(sp, m), v, j)
    ensures var w := Look(sp, m);
            && w.levels == sp.vmode.format.Levels() == j + 1 && G.TableAt(w, v, j) == Some(sp.vppn)
            && (forall k: nat :: G.Usable(w, v, j, k))
            && G.Comes(w, v, j) && G.ReadAt(w, v, j) == sp.vppn * PAGE_SIZE + v[j] && w.cell(G.ReadAt(w, v, j)).Empty?
  {
    var w, top := Look(sp, m), sp.vmode.format.Levels() - 1;
    hide GWalk, Pow2, G.TableAt, WordAt, FreeIsClean;
    G.RootTable(w, v);
    BareHost(sp, G.EntryAt(w, v, top), m);
    assert InPage(sp.vppn * PAGE_SIZE + v[top], sp.vppn);
    CleanAt(m, sp.vppn, sp.vppn * PAGE_SIZE + v[top]);
    if j < top { G.NoTableBelow(w, v, top, j); }
  }

  /** It is ready to be built on; any leaf can be placed, and no address is mapped. */
  lemma EmptyRootIsReady(sp: Space, m: Store, n: nat, x: U64, k: nat)
    requires EmptyRoot(sp, m) && var next := sp.vppn + 1;
             (next + n) * PAGE_SIZE <= Pow2(sp.pas) && next + n <= (if sp.vmode.format.Sv32? then 0x40_0000 else 0x1000_0000_0000)
    ensures Ready(sp, m, sp.vppn + 1, n) && CanPlace(sp, x, k, m) && VReach(sp, x, m).0 == VStop(PageFault)
  {
    EmptyIsClean(sp, m);
    hide Look, EmptyRoot, G.TableAt, VReach, Found, PathOf, Canonical, FreeIsClean, Pow2, ValidSpace;
    var w, v, next := Look(sp, m), PathOf(sp, x), sp.vppn + 1;
    forall v, i, x, j ensures G.ReadApart(w, v, i, x, j) {
      if G.Comes(w, v, i) && G.Comes(w, x, j) && G.ReadAt(w, v, i) == G.ReadAt(w, x, j) {
        EmptyRootEnds(sp, m, v, i);
        EmptyRootEnds(sp, m, x, j);
      }
    }
    forall v, i ensures G.Below(w, v, i, next, next) { if G.Has(w, v, i) { EmptyRootEnds(sp, m, v, i); } }
    PathInPages(sp, x, m);
    forall j | k <= j < w.levels ensures G.Usable(w, v, j, k) { if G.Has(w, v, j) { EmptyRootEnds(sp, m, v, j); } }
    RootOf(sp, x, m);
    EmptyRootEnds(sp, m, v, sp.vmode.format.Levels() - 1);
    EmptyStops(sp, x, sp.vmode.format.Levels() - 1, m);
    BareAlike(sp, m, m);
    ReachIsFound(sp, x, m);
  }

  lemma EmptyIsClean(sp: Space, m: Store)
    requires EmptyRoot(sp, m)
    ensures ValidSpace(sp) && sp.vmode.Paged? && sp.gmode.Bare? && FreeIsClean(m, sp.vppn + 1)
  {
  }
}
