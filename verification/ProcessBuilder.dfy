/** Building the process directory of a VM, whose tables lie in guest memory that grows with them: adding a
    context makes it the one located for its process and leaves every other process's as it was. */
module ProcessBuilder {
  import opened Bits
  import opened Common
  import opened PageTables
  import opened SecondStage
  import opened AdUpdates
  import opened Superpages
  import opened DeviceContexts
  import opened Directories
  import opened HostPages
  import G = GuestTrees
  import T = TableBuilder
  import TableTools
  import D = DirectoryBuilder

  // ---------------------------------------------------------------- what the builder does

  /** Pages handed out are cleared. */
  function ClearPages(t: Tree, first: nat, end: nat): Tree {
    t.(pdtes := map k | k in t.pdtes && !(first * PAGE_SIZE <= k < end * PAGE_SIZE) :: t.pdtes[k],
       pcs := map k | k in t.pcs && !(first * PAGE_SIZE <= k < end * PAGE_SIZE) :: t.pcs[k])
  }

  function Linked(page: nat): DirectoryEntry { DirectoryEntry(true, 0, page % 0x1000_0000_0000, 0) }

  /** The directory, memory, the next free guest page and page, and where the context is, if no access failed. */
  datatype Built = Built(tree: Tree, store: Store, gnext: nat, next: nat, addr: Option<nat>)

  /** The loop of `add_process_context` from the table at guest address `a`, level `i` */
  function BuildFrom(c: Config, dc: DeviceContext, t: Tree, pid: nat, i: nat, a: nat, rec: ProcessRecord, m: Store, gnext: nat, next: nat)
    : Built
    decreases i
  {
    var sp := DirectorySpace(c, dc);
    var h := SimpleHost(sp, a, m);
    if h.None? then Built(t, m, gnext, next, None)
    else
      var addr := ProcessEntry(i, pid, h.value);
      if i == 0 then
        if StoreStatus(m, addr).Okay? then Built(t.(pcs := t.pcs[addr := rec]), m, gnext, next, Some(addr))
        else Built(t, m, gnext, next, None)
      else if !LoadStatus(m, addr).Okay? then Built(t, m, gnext, next, None)
      else
        var e := EntryIn(t.pdtes, addr);
        if e.V then BuildFrom(c, dc, t, pid, i - 1, e.ppn * PAGE_SIZE, rec, m, gnext, next)
        else
          var q := Linked(gnext);
          var b := MapPage(sp, q.ppn, false, m, next);
          var u := ClearPages(t, next, b.next);
          if b.addr.None? || !StoreStatus(b.store, addr).Okay? then Built(u, b.store, gnext + 1, b.next, None)
          else BuildFrom(c, dc, u.(pdtes := u.pdtes[addr := q]), pid, i - 1, q.ppn * PAGE_SIZE, rec, b.store, gnext + 1, b.next)
  }

  /** `add_process_context` */
  function Build(c: Config, dc: DeviceContext, t: Tree, pid: nat, rec: ProcessRecord, m: Store, gnext: nat, next: nat): Built {
    BuildFrom(c, dc, t, pid, ProcessLevels(dc) - 1, dc.fsc.ppn * PAGE_SIZE, rec, m, gnext, next)
  }

  /** Without a second stage the builder gives up at once: `translate_gpa` returns -1 for Bare. */
  lemma BareFails(c: Config, dc: DeviceContext, t: Tree, pid: nat, rec: ProcessRecord, m: Store, gnext: nat, next: nat)
    requires dc.iohgatp.mode == BARE
    ensures Build(c, dc, t, pid, rec, m, gnext, next) == Built(t, m, gnext, next, None)
  {
  }

  /** The code of `add_process_context`; guest pages are handed out in order. */
  method AddProcessContext(pages: TableTools.Allocator, mem: Memory, c: Config, dc: DeviceContext, t: Tree, pid: nat, rec: ProcessRecord,
                           first: nat) returns (b: Built)
    requires ValidSpace(DirectorySpace(c, dc)) && pages.nextFreePage + 20 < TWO_64
    modifies pages, mem
    ensures b == Build(c, dc, t, pid, rec, old(mem.store), first, old(pages.nextFreePage))
    ensures mem.store == b.store && pages.nextFreePage == b.next
  {
    var sp := DirectorySpace(c, dc);
    hide ProcessEntry, DirectorySpace, MapPage, ClearPages, ValidSpace, TableTools.CodedWalk, TableTools.SimpleWalk, GpaFits;
    var i: nat, a: nat, tree, gnext := ProcessLevels(dc) - 1, dc.fsc.ppn * PAGE_SIZE, t, first;
    ghost var was, n := mem.store, pages.nextFreePage;
    while i > 0
      invariant a < 0x100_0000_0000_0000 && i < 3 && pages.nextFreePage + 8 * i < TWO_64
      invariant BuildFrom(c, dc, tree, pid, i, a, rec, mem.store, gnext, pages.nextFreePage) == Build(c, dc, t, pid, rec, was, first, n)
    {
      var h := FindPage(mem, sp, a);
      if h.None? { return Built(tree, mem.store, gnext, pages.nextFreePage, None); }
      var addr := ProcessEntry(i, pid, h.value);
      if !LoadStatus(mem.store, addr).Okay? { return Built(tree, mem.store, gnext, pages.nextFreePage, None); }
      var e := EntryIn(tree.pdtes, addr);
      if !e.V {
        e := Linked(gnext);
        gnext := gnext + 1;
        var page := pages.nextFreePage;
        var ok := MapFreePage(pages, mem, sp, e.ppn, false);
        tree := ClearPages(tree, page, pages.nextFreePage);
        if !ok { return Built(tree, mem.store, gnext, pages.nextFreePage, None); }
        if !StoreStatus(mem.store, addr).Okay? { return Built(tree, mem.store, gnext, pages.nextFreePage, None); }
        tree := tree.(pdtes := tree.pdtes[addr := e]);
      }
      i := i - 1;
      a := e.ppn * PAGE_SIZE;
    }
    var h := FindPage(mem, sp, a);
    if h.None? { return Built(tree, mem.store, gnext, pages.nextFreePage, None); }
    var addr := ProcessEntry(0, pid, h.value);
    if !StoreStatus(mem.store, addr).Okay? { return Built(tree, mem.store, gnext, pages.nextFreePage, None); }
    b := Built(tree.(pcs := tree.pcs[addr := rec]), mem.store, gnext, pages.nextFreePage, Some(addr));
  }

  // ---------------------------------------------------------------- what a search finds, memory aside

  /** `LocateProcessFrom` with every second-stage walk made in the same memory */
  function Search(c: Config, dc: DeviceContext, t: Tree, pid: nat, i: nat, a: nat, m: Store): Located<ProcessContext> {
    var gpa := ProcessEntry(i, pid, a);
    var g := GWalk(DirectorySpace(c, dc), DIRECTORY_READ, gpa, m).0;
    if g.GErr? then GuestFailure(g.fault, gpa)
    else if i == 0 then ProcessAt(c, dc, t, g.pa, m)
    else if g.pa >= Pow2(c.caps.pas) then Failed(265)
    else if !LoadStatus(m, g.pa).Okay? then Failed(LoadCause(LoadStatus(m, g.pa), 265, 269))
    else
      var e := EntryIn(t.pdtes, g.pa);
      if !e.V then Failed(266)
      else if e.reserved0 != 0 || e.reserved1 != 0 then Failed(267)
      else Search(c, dc, t, pid, i - 1, e.ppn * PAGE_SIZE, m)
  }

  /** The bits that a search sets on its way do not change what it finds. */
  lemma {:induction false} SearchIsStatic(c: Config, dc: DeviceContext, t: Tree, pid: nat, i: nat, a: nat, m: Store, n: Store)
    requires Marked(DirectorySpace(c, dc), m, n)
    ensures LocateProcessFrom(c, dc, t, pid, i, a, n).0 == Search(c, dc, t, pid, i, a, m)
    decreases i
  {
    var sp, gpa := DirectorySpace(c, dc), ProcessEntry(i, pid, a);
    WalkIsStatic(sp, DIRECTORY_READ, gpa, m, n);
    var (g, o) := GWalk(sp, DIRECTORY_READ, gpa, n);
    FaultsOf(sp, m, o);
    RecordKept(c, dc, t, g, m, o);
    hide GWalk, Marked, ProcessEntry, Pow2, ProcessAt, DirectorySpace, GuestFailure, EntryIn, LoadCause;
    if g.GOk? && i > 0 { SearchIsStatic(c, dc, t, pid, i - 1, EntryIn(t.pdtes, g.pa).ppn * PAGE_SIZE, m, o); }
  }

  lemma FaultsOf(sp: Space, m: Store, n: Store)
    requires Marked(sp, m, n)
    ensures SameFaults(m, n)
  {
  }

  lemma RecordKept(c: Config, dc: DeviceContext, t: Tree, g: GResult, m: Store, n: Store)
    requires SameFaults(m, n)
    ensures g.GOk? ==> ProcessAt(c, dc, t, g.pa, n) == ProcessAt(c, dc, t, g.pa, m) && LoadStatus(n, g.pa) == LoadStatus(m, g.pa)
  {
    hide ProcessMisconfigured, Pow2;
  }

  function Searched(c: Config, dc: DeviceContext, t: Tree, pid: nat, m: Store): Located<ProcessContext> {
    Search(c, dc, t, pid, ProcessLevels(dc) - 1, dc.fsc.ppn * PAGE_SIZE, m)
  }

  lemma LocatedIsSearch(c: Config, dc: DeviceContext, t: Tree, pid: nat, m: Store)
    ensures LocateProcess(c, dc, t, pid, m).0 == Searched(c, dc, t, pid, m)
  {
    assert Marked(DirectorySpace(c, dc), m, m);
    SearchIsStatic(c, dc, t, pid, ProcessLevels(dc) - 1, dc.fsc.ppn * PAGE_SIZE, m, m);
  }

  // ---------------------------------------------------------------- the directory as tables in guest memory

  function CellOf(c: Config, t: Tree, m: Store, h: nat): G.Cell {
    var e := EntryIn(t.pdtes, h);
    if h >= Pow2(c.caps.pas) || !LoadStatus(m, h).Okay? then G.Other
    else if !e.V then G.Empty
    else if e.reserved0 != 0 || e.reserved1 != 0 then G.Other
    else G.Pointer(e.ppn)
  }

  predicate Open(c: Config, m: Store, h: nat) { h < Pow2(c.caps.pas) && LoadStatus(m, h).Okay? && StoreStatus(m, h).Okay? }

  function Look(c: Config, dc: DeviceContext, t: Tree, m: Store): G.View {
    var sp := DirectorySpace(c, dc);
    G.View(ProcessLevels(dc), dc.fsc.ppn, (gpa: nat) => Host(sp, DIRECTORY_READ, gpa, m), (h: nat) => CellOf(c, t, m, h),
           (h: nat) => Open(c, m, h), (page: nat) => Plain(sp, DIRECTORY_READ, page, m))
  }

  /** The offsets of the entries for `pid` in their tables. */
  function ProcessPath(dc: DeviceContext, pid: nat): (v: seq<nat>)
    ensures |v| == ProcessLevels(dc)
  {
    seq(ProcessLevels(dc), i requires 0 <= i => ProcessEntry(i, pid, 0))
  }

  lemma PathInPages(c: Config, dc: DeviceContext, t: Tree, pid: nat, m: Store)
    ensures G.IsPath(Look(c, dc, t, m), ProcessPath(dc, pid))
  {
    forall i: nat | i < ProcessLevels(dc) ensures ProcessPath(dc, pid)[i] < PAGE_SIZE { ProcessOffset(i, pid, 0); }
  }

  /** The search goes on from the table it has come to. */
  lemma {:induction false} SearchComes(c: Config, dc: DeviceContext, t: Tree, pid: nat, i: nat, m: Store)
    requires G.Has(Look(c, dc, t, m), ProcessPath(dc, pid), i)
    ensures Searched(c, dc, t, pid, m) ==
            Search(c, dc, t, pid, i, G.TableAt(Look(c, dc, t, m), ProcessPath(dc, pid), i).value * PAGE_SIZE, m)
    decreases ProcessLevels(dc) - i
  {
    hide GWalk, Pow2, DirectorySpace, GuestFailure, ProcessAt, LoadStatus;
    if i < ProcessLevels(dc) - 1 { SearchComes(c, dc, t, pid, i + 1, m); }
  }

  /** What a search finds where it ends. */
  function Stopped(c: Config, dc: DeviceContext, t: Tree, d: nat, gpa: nat, m: Store): Located<ProcessContext> {
    var g := GWalk(DirectorySpace(c, dc), DIRECTORY_READ, gpa, m).0;
    if g.GErr? then GuestFailure(g.fault, gpa)
    else if d == 0 then ProcessAt(c, dc, t, g.pa, m)
    else if g.pa >= Pow2(c.caps.pas) then Failed(265)
    else if !LoadStatus(m, g.pa).Okay? then Failed(LoadCause(LoadStatus(m, g.pa), 265, 269))
    else if !EntryIn(t.pdtes, g.pa).V then Failed(266) else Failed(267)
  }

  lemma EndStops(c: Config, dc: DeviceContext, t: Tree, pid: nat, d: nat, m: Store)
    requires G.Ends(Look(c, dc, t, m), ProcessPath(dc, pid), d)
    ensures Searched(c, dc, t, pid, m) == Stopped(c, dc, t, d, G.EntryAt(Look(c, dc, t, m), ProcessPath(dc, pid), d), m)
  {
    hide GWalk, Pow2, DirectorySpace, GuestFailure, ProcessAt, G.TableAt, Searched, LoadCause, LoadStatus, ProcessIndex, EntryIn;
    SearchComes(c, dc, t, pid, d, m);
    var w, v := Look(c, dc, t, m), ProcessPath(dc, pid);
    var a := G.TableAt(w, v, d).value * PAGE_SIZE;
    assert ProcessEntry(d, pid, a) == G.EntryAt(w, v, d);
    hide ProcessEntry, ProcessPath;
  }

  /** Two searches that end at one place, with the same there, find the same. */
  lemma SameEnd(c: Config, dc: DeviceContext, t: Tree, m: Store, u: Tree, n: Store, pid: nat, d: nat)
    requires var (w, x, v) := (Look(c, dc, t, m), Look(c, dc, u, n), ProcessPath(dc, pid));
             && G.Ends(w, v, d) && G.Ends(x, v, d) && G.EntryAt(x, v, d) == G.EntryAt(w, v, d)
             && GWalk(DirectorySpace(c, dc), DIRECTORY_READ, G.EntryAt(w, v, d), n).0 ==
                GWalk(DirectorySpace(c, dc), DIRECTORY_READ, G.EntryAt(w, v, d), m).0
             && SameFaults(m, n)
             && (G.Comes(w, v, d) ==> SameWord(t, u, G.ReadAt(w, v, d)))
    ensures Searched(c, dc, u, pid, n) == Searched(c, dc, t, pid, m)
  {
    EndStops(c, dc, t, pid, d, m);
    EndStops(c, dc, u, pid, d, n);
    hide GWalk, Pow2, DirectorySpace, GuestFailure, ProcessMisconfigured, G.Ends, Searched, G.EntryAt;
  }

  predicate SameWord(t: Tree, u: Tree, h: nat) {
    EntryIn(u.pdtes, h) == EntryIn(t.pdtes, h) && (h in u.pcs <==> h in t.pcs) && (h in t.pcs ==> u.pcs[h] == t.pcs[h])
  }

  // ---------------------------------------------------------------- linking a page

  /** All is ready for linking `n` more pages. */
  ghost predicate Ready(c: Config, dc: DeviceContext, t: Tree, m: Store, gnext: nat, next: nat, n: nat) {
    var sp := DirectorySpace(c, dc);
    && ValidSpace(sp) && sp.gmode.Paged? && sp.gade && Fresh(sp, m, gnext, n) && T.Room(sp, next, n * sp.gmode.format.Levels())
    && T.TreeShaped(sp, m) && T.Allocated(sp, m, next) && FreeIsClean(m, next)
    && G.TreeShaped(Look(c, dc, t, m)) && G.Allocated(Look(c, dc, t, m), gnext, next)
  }

  /** The directory after the word at `h` is pointed to guest page `gnext`. */
  function LinkedTree(t: Tree, h: nat, gnext: nat, next: nat, end: nat): Tree {
    var u := ClearPages(t, next, end);
    u.(pdtes := u.pdtes[h := Linked(gnext)])
  }

  lemma MapsNext(c: Config, dc: DeviceContext, t: Tree, m: Store, gnext: nat, next: nat, n: nat)
    requires Ready(c, dc, t, m, gnext, next, n) && 0 < n
    ensures var sp := DirectorySpace(c, dc);
            var b := MapPage(sp, gnext, false, m, next);
            Mapped(sp, gnext, false, m, next, b) && T.Room(sp, next, 1) && T.Room(sp, b.next, (n - 1) * sp.gmode.format.Levels())
  {
    var sp := DirectorySpace(c, dc);
    hide DirectorySpace, ValidSpace, T.TreeShaped, T.Allocated, FreeIsClean, G.TreeShaped, G.Allocated, Look, MapPage, T.CanPlace,
         GpaFits;
    var k := sp.gmode.format.Levels();
    assert n * k == (n - 1) * k + k;
    T.RoomShrinks(sp, next, n * k, k);
    T.RoomShrinks(sp, next, n * k, 1);
    MapPageIsMapUpdate(sp, gnext, false, m, next);
    T.RoomLeft(sp, next, MapPage(sp, gnext, false, m, next).next, n * k, (n - 1) * k);
  }

  lemma LinkHosts(c: Config, dc: DeviceContext, t: Tree, m: Store, u: Tree, gnext: nat, next: nat, b: T.Built)
    requires var sp := DirectorySpace(c, dc);
             sp.gmode.Paged? && sp.gade && T.Room(sp, next, 1) && Mapped(sp, gnext, false, m, next, b)
    ensures var (w, x) := (Look(c, dc, t, m), Look(c, dc, u, b.store));
            && (forall gpa: nat | gpa < gnext * PAGE_SIZE :: x.host(gpa) == w.host(gpa))
            && (forall page: nat | page < gnext :: x.plain(page) == w.plain(page)) && x.plain(gnext)
            && (forall gpa: nat | InPage(gpa, gnext) :: x.host(gpa) == Some(next * PAGE_SIZE + (gpa - gnext * PAGE_SIZE)))
  {
    var sp := DirectorySpace(c, dc);
    hide DirectorySpace, GWalk, Mapped, Pow2;
    forall gpa: nat | gpa < gnext * PAGE_SIZE ensures GWalk(sp, DIRECTORY_READ, gpa, b.store).0 == GWalk(sp, DIRECTORY_READ, gpa, m).0 {
      OtherPageRead(sp, DIRECTORY_READ, gnext, false, gpa, m, next, b);
    }
    forall gpa: nat | InPage(gpa, gnext)
      ensures var r := GWalk(sp, DIRECTORY_READ, gpa, b.store).0;
              r.GOk? && r.pa == next * PAGE_SIZE + (gpa - gnext * PAGE_SIZE) && r.pte == PageLeaf(next, false)
    {
      NewPageRead(sp, DIRECTORY_READ, gnext, false, gpa, m, next, b);
    }
    assert InPage(gnext * PAGE_SIZE, gnext);
  }

  lemma LinkCells(c: Config, dc: DeviceContext, t: Tree, m: Store, h: nat, gnext: nat, next: nat, b: T.Built)
    requires SameFaults(m, b.store) && FreeIsClean(m, next) && h < next * PAGE_SIZE && Look(c, dc, t, m).cell(h).Empty? && next < b.next
    requires gnext < 0x1000_0000_0000 && (next + 1) * PAGE_SIZE <= Pow2(c.caps.pas)
    ensures var u := LinkedTree(t, h, gnext, next, b.next);
            var (w, x) := (Look(c, dc, t, m), Look(c, dc, u, b.store));
            && x.levels == w.levels && x.root == w.root && x.cell(h) == G.Pointer(gnext)
            && (forall k: nat | k < next * PAGE_SIZE :: x.open(k) == w.open(k) && (k != h ==> x.cell(k) == w.cell(k)))
            && (forall k: nat | k < next * PAGE_SIZE && k != h :: SameWord(t, u, k))
            && (forall k: nat | InPage(k, next) :: x.cell(k).Empty? && x.open(k) && k !in u.pcs)
  {
    hide Pow2, DirectorySpace, GWalk;
  }

  /** Linking is linking a page of guest memory. */
  lemma LinkLooks(c: Config, dc: DeviceContext, t: Tree, m: Store, v: seq<nat>, i: nat, gnext: nat, next: nat, n: nat)
    requires Ready(c, dc, t, m, gnext, next, n) && 0 < n && 0 < i && G.Comes(Look(c, dc, t, m), v, i)
    requires Look(c, dc, t, m).cell(G.ReadAt(Look(c, dc, t, m), v, i)).Empty?
    ensures var (b, h) := (MapPage(DirectorySpace(c, dc), gnext, false, m, next), G.ReadAt(Look(c, dc, t, m), v, i));
            var u := LinkedTree(t, h, gnext, next, b.next);
            && G.Links(Look(c, dc, t, m), Look(c, dc, u, b.store), v, i, gnext, next)
            && (forall k: nat | k < next * PAGE_SIZE && k != h :: SameWord(t, u, k)) && (forall k: nat | InPage(k, next) :: k !in u.pcs)
  {
    hide Look, DirectorySpace, MapPage, Pow2, GWalk, T.TreeShaped, T.Allocated, G.TreeShaped, GpaFits, T.CanPlace, LinkedTree, Mapped,
         ValidSpace,
         G.TableAt, FreeIsClean, SameWord;
    var sp, w := DirectorySpace(c, dc), Look(c, dc, t, m);
    var b, h := MapPage(sp, gnext, false, m, next), G.ReadAt(w, v, i);
    var u := LinkedTree(t, h, gnext, next, b.next);
    MapsNext(c, dc, t, m, gnext, next, n);
    assert G.Below(w, v, i, gnext, next);
    RoomAndFaults(c, dc, gnext, m, next, b);
    LinkHosts(c, dc, t, m, u, gnext, next, b);
    LinkCells(c, dc, t, m, h, gnext, next, b);
    G.LinksIf(w, Look(c, dc, u, b.store), v, i, gnext, next);
  }

  lemma RoomAndFaults(c: Config, dc: DeviceContext, gnext: nat, m: Store, next: nat, b: T.Built)
    requires var sp := DirectorySpace(c, dc); sp.gmode.Paged? && T.Room(sp, next, 1) && Mapped(sp, gnext, false, m, next, b)
    ensures SameFaults(m, b.store) && next < b.next && (next + 1) * PAGE_SIZE <= Pow2(c.caps.pas)
  {
  }

  /** A search that ends at an empty entry finds that there is no context. */
  lemma EmptyStops(c: Config, dc: DeviceContext, t: Tree, pid: nat, d: nat, m: Store)
    requires var (w, v) := (Look(c, dc, t, m), ProcessPath(dc, pid));
             G.Comes(w, v, d) && w.cell(G.ReadAt(w, v, d)).Empty? && (d == 0 ==> G.ReadAt(w, v, d) !in t.pcs)
    ensures Searched(c, dc, t, pid, m) == Failed(266)
  {
    EndStops(c, dc, t, pid, d, m);
    hide GWalk, Pow2, DirectorySpace, ProcessMisconfigured, G.TableAt, Searched;
  }

  /** After the link every process is located, or not, as before. */
  lemma LinkKeepsSearches(c: Config, dc: DeviceContext, t: Tree, m: Store, v: seq<nat>, i: nat, gnext: nat, next: nat, n: nat, y: nat)
    requires Ready(c, dc, t, m, gnext, next, n) && 0 < n && 0 < i && G.Comes(Look(c, dc, t, m), v, i)
    requires Look(c, dc, t, m).cell(G.ReadAt(Look(c, dc, t, m), v, i)).Empty?
    ensures var (b, h) := (MapPage(DirectorySpace(c, dc), gnext, false, m, next), G.ReadAt(Look(c, dc, t, m), v, i));
            Searched(c, dc, LinkedTree(t, h, gnext, next, b.next), y, b.store) == Searched(c, dc, t, y, m)
  {
    hide Look, DirectorySpace, MapPage, GWalk, T.TreeShaped, T.Allocated, G.TreeShaped, GpaFits, T.CanPlace, LinkedTree, ValidSpace,
         SameWord,
         G.TableAt, FreeIsClean, Searched, ProcessPath, IndicesAgree, Fresh;
    var sp, w, p := DirectorySpace(c, dc), Look(c, dc, t, m), ProcessPath(dc, y);
    var b, h := MapPage(sp, gnext, false, m, next), G.ReadAt(w, v, i);
    var u := LinkedTree(t, h, gnext, next, b.next);
    var x := Look(c, dc, u, b.store);
    LinkLooks(c, dc, t, m, v, i, gnext, next, n);
    PathInPages(c, dc, t, y, m);
    if IndicesAgree(v, p, i) {
      G.LinkReaches(w, x, v, i, p, gnext, next);
      G.ReadHere(w, x, v, i, p, gnext, next);
      EmptyStops(c, dc, t, y, i, m);
      EmptyStops(c, dc, u, y, i - 1, b.store);
    } else {
      var d := LevelOfEnd(c, dc, t, y, m);
      G.ReadElsewhere(w, x, v, i, p, d, gnext, next);
      assert G.Below(w, p, d, gnext, next);
      MapsNext(c, dc, t, m, gnext, next, n);
      RoomAndFaults(c, dc, gnext, m, next, b);
      OtherPageRead(sp, DIRECTORY_READ, gnext, false, G.EntryAt(w, p, d), m, next, b);
      SameEnd(c, dc, t, m, u, b.store, y, d);
    }
  }

  lemma LevelOfEnd(c: Config, dc: DeviceContext, t: Tree, pid: nat, m: Store) returns (d: nat)
    ensures G.Ends(Look(c, dc, t, m), ProcessPath(dc, pid), d)
  {
    PathInPages(c, dc, t, pid, m);
    d := G.WalkEnds(Look(c, dc, t, m), ProcessPath(dc, pid), ProcessLevels(dc) - 1);
  }

  /** Every process that could be added still can. */
  ghost predicate StillBuildable(c: Config, dc: DeviceContext, t: Tree, m: Store, u: Tree, n: Store) {
    forall v | G.Buildable(Look(c, dc, t, m), v, 0) :: G.Buildable(Look(c, dc, u, n), v, 0)
  }

  ghost predicate SameSearches(c: Config, dc: DeviceContext, t: Tree, m: Store, u: Tree, n: Store) {
    forall y :: Searched(c, dc, u, y, n) == Searched(c, dc, t, y, m)
  }

  /** The linked directory is ready for what is left to do. */
  lemma LinkReady(c: Config, dc: DeviceContext, t: Tree, m: Store, v: seq<nat>, i: nat, gnext: nat, next: nat, n: nat)
    requires Ready(c, dc, t, m, gnext, next, n) && 0 < n && 0 < i && G.Comes(Look(c, dc, t, m), v, i)
    requires Look(c, dc, t, m).cell(G.ReadAt(Look(c, dc, t, m), v, i)).Empty?
    ensures var (b, h) := (MapPage(DirectorySpace(c, dc), gnext, false, m, next), G.ReadAt(Look(c, dc, t, m), v, i));
            var u := LinkedTree(t, h, gnext, next, b.next);
            && b.addr.Some? && next < b.next && Ready(c, dc, u, b.store, gnext + 1, b.next, n - 1)
            && b.next <= next + DirectorySpace(c, dc).gmode.format.Levels() && SameFaults(m, b.store)
            && StillBuildable(c, dc, t, m, u, b.store) && SameSearches(c, dc, t, m, u, b.store)
            && (IndicesAgree(v, v, i) && G.IsPath(Look(c, dc, t, m), v) ==>
                  G.Has(Look(c, dc, u, b.store), v, i - 1) && G.TableAt(Look(c, dc, u, b.store), v, i - 1) == Some(gnext))
  {
    hide Look, DirectorySpace, MapPage, GWalk, T.TreeShaped, T.Allocated, G.TreeShaped, G.Allocated, GpaFits, T.CanPlace, LinkedTree,
         ValidSpace,
         SameWord, G.TableAt, FreeIsClean, Searched, Pow2, G.Buildable, GReach, IndicesAgree, G.Links;
    var sp, w := DirectorySpace(c, dc), Look(c, dc, t, m);
    var b, h := MapPage(sp, gnext, false, m, next), G.ReadAt(w, v, i);
    var u := LinkedTree(t, h, gnext, next, b.next);
    var x := Look(c, dc, u, b.store);
    MapsNext(c, dc, t, m, gnext, next, n);
    LinkLooks(c, dc, t, m, v, i, gnext, next, n);
    G.LinkKeepsTree(w, x, v, i, gnext, next, b.next);
    forall p | G.Buildable(w, p, 0) ensures G.Buildable(x, p, 0) { G.LinkBuildable(w, x, v, i, p, 0, gnext, next); }
    forall y ensures Searched(c, dc, u, y, b.store) == Searched(c, dc, t, y, m) {
      LinkKeepsSearches(c, dc, t, m, v, i, gnext, next, n, y);
    }
    if IndicesAgree(v, v, i) { G.LinkReaches(w, x, v, i, v, gnext, next); }
  }

  // ---------------------------------------------------------------- writing the context

  /** What locating a process finds at its record. */
  function OutcomeOf(c: Config, dc: DeviceContext, rec: ProcessRecord): Located<ProcessContext> {
    if !rec.V then Failed(266) else if ProcessMisconfigured(c, dc, rec.pc) then Failed(267) else Found(rec.pc)
  }

  ghost predicate MayWrite(c: Config, dc: DeviceContext, t: Tree, m: Store, pid: nat, gnext: nat, next: nat) {
    var (w, v) := (Look(c, dc, t, m), ProcessPath(dc, pid));
    G.Comes(w, v, 0) && w.open(G.ReadAt(w, v, 0)) && G.TreeShaped(w) && G.Allocated(w, gnext, next)
  }

  function Written(t: Tree, h: nat, rec: ProcessRecord): Tree { t.(pcs := t.pcs[h := rec]) }

  lemma WriteLooks(c: Config, dc: DeviceContext, t: Tree, m: Store, pid: nat, rec: ProcessRecord, gnext: nat, next: nat)
    requires MayWrite(c, dc, t, m, pid, gnext, next)
    ensures var (w, v) := (Look(c, dc, t, m), ProcessPath(dc, pid));
            var u := Written(t, G.ReadAt(w, v, 0), rec);
            G.Writes(w, Look(c, dc, u, m), v, 0, gnext, next) && forall k: nat | k != G.ReadAt(w, v, 0) :: SameWord(t, u, k)
  {
    hide DirectorySpace, Pow2, GWalk, G.TreeShaped, G.Allocated, G.TableAt;
  }

  lemma WriteSearches(c: Config, dc: DeviceContext, t: Tree, m: Store, pid: nat, rec: ProcessRecord, gnext: nat, next: nat, y: nat)
    requires MayWrite(c, dc, t, m, pid, gnext, next)
    ensures var u := Written(t, G.ReadAt(Look(c, dc, t, m), ProcessPath(dc, pid), 0), rec);
            Searched(c, dc, u, y, m) ==
              if IndicesAgree(ProcessPath(dc, pid), ProcessPath(dc, y), 0) then OutcomeOf(c, dc, rec) else Searched(c, dc, t, y, m)
  {
    hide GWalk, G.TreeShaped, G.Allocated, SameWord, G.TableAt, Searched, ProcessPath, IndicesAgree, Pow2, DirectorySpace;
    var w, v, p := Look(c, dc, t, m), ProcessPath(dc, pid), ProcessPath(dc, y);
    var u := Written(t, G.ReadAt(w, v, 0), rec);
    WriteLooks(c, dc, t, m, pid, rec, gnext, next);
    PathInPages(c, dc, t, y, m);
    if IndicesAgree(v, p, 0) {
      G.WriteEnds(w, Look(c, dc, u, m), v, 0, p, gnext, next);
      RecordStops(c, dc, u, y, rec, m);
    } else {
      var d := LevelOfEnd(c, dc, t, y, m);
      G.ReadElsewhere(w, Look(c, dc, u, m), v, 0, p, d, gnext, next);
      SameEnd(c, dc, t, m, u, m, y, d);
    }
  }

  lemma RecordStops(c: Config, dc: DeviceContext, t: Tree, pid: nat, rec: ProcessRecord, m: Store)
    requires var (w, v) := (Look(c, dc, t, m), ProcessPath(dc, pid));
             G.Comes(w, v, 0) && w.open(G.ReadAt(w, v, 0)) && G.ReadAt(w, v, 0) in t.pcs && t.pcs[G.ReadAt(w, v, 0)] == rec
    ensures Searched(c, dc, t, pid, m) == OutcomeOf(c, dc, rec)
  {
    EndStops(c, dc, t, pid, 0, m);
    hide GWalk, Pow2, DirectorySpace, ProcessMisconfigured, G.TableAt, Searched;
  }

  // ---------------------------------------------------------------- building is a map update

  /** Just the processes of the same indices locate the new context, the others what they located, and the
      directory is ready to be built on again. */
  ghost predicate Inserted(c: Config, dc: DeviceContext, t: Tree, m: Store, pid: nat, rec: ProcessRecord, gnext: nat, n: nat, b: Built) {
    && b.addr.Some? && gnext <= b.gnext <= gnext + n && Ready(c, dc, b.tree, b.store, b.gnext, b.next, n - (b.gnext - gnext))
    && StillBuildable(c, dc, t, m, b.tree, b.store)
    && forall y :: Searched(c, dc, b.tree, y, b.store) ==
         if IndicesAgree(ProcessPath(dc, pid), ProcessPath(dc, y), 0) then OutcomeOf(c, dc, rec) else Searched(c, dc, t, y, m)
  }

  /** Everything the builder asks of the directory, the second stage and the free pages. */
  ghost predicate MayBuild(c: Config, dc: DeviceContext, t: Tree, m: Store, pid: nat, gnext: nat, next: nat, n: nat) {
    Ready(c, dc, t, m, gnext, next, n) && G.Buildable(Look(c, dc, t, m), ProcessPath(dc, pid), 0)
  }

  /** The builder's address of an entry is the walk's. */
  lemma SameAddress(c: Config, dc: DeviceContext, t: Tree, m: Store, pid: nat, i: nat)
    requires ValidSpace(DirectorySpace(c, dc)) && G.Has(Look(c, dc, t, m), ProcessPath(dc, pid), i)
             && G.Usable(Look(c, dc, t, m), ProcessPath(dc, pid), i, 0)
    ensures var (w, v) := (Look(c, dc, t, m), ProcessPath(dc, pid));
            var h := SimpleHost(DirectorySpace(c, dc), G.TableAt(w, v, i).value * PAGE_SIZE, m);
            h.Some? && ProcessEntry(i, pid, h.value) == G.ReadAt(w, v, i)
  {
    hide GWalk, Pow2, DirectorySpace, G.TableAt, TableTools.CodedWalk, ProcessIndex, GpaFits, ValidSpace;
    var w, v := Look(c, dc, t, m), ProcessPath(dc, pid);
    PlainPage(DirectorySpace(c, dc), DIRECTORY_READ, G.TableAt(w, v, i).value, G.EntryAt(w, v, i), m);
  }

  lemma WriteStep(c: Config, dc: DeviceContext, t: Tree, m: Store, pid: nat, rec: ProcessRecord, gnext: nat, next: nat, n: nat)
    requires MayBuild(c, dc, t, m, pid, gnext, next, n) && G.Has(Look(c, dc, t, m), ProcessPath(dc, pid), 0)
    ensures var a := G.TableAt(Look(c, dc, t, m), ProcessPath(dc, pid), 0).value * PAGE_SIZE;
            var b := BuildFrom(c, dc, t, pid, 0, a, rec, m, gnext, next);
            Inserted(c, dc, t, m, pid, rec, gnext, n, b) && b.gnext == gnext
  {
    hide Ready, GWalk, ProcessPath, DirectorySpace, G.TableAt, Inserted, SimpleHost, ProcessEntry, Pow2, G.TreeShaped, G.Allocated;
    var w, v := Look(c, dc, t, m), ProcessPath(dc, pid);
    assert G.Usable(w, v, 0, 0);
    ReadyMeans(c, dc, t, m, gnext, next, n);
    SameAddress(c, dc, t, m, pid, 0);
    assert StoreStatus(m, G.ReadAt(w, v, 0)).Okay?;
    Wrote(c, dc, t, m, pid, rec, gnext, next, n);
  }

  lemma Wrote(c: Config, dc: DeviceContext, t: Tree, m: Store, pid: nat, rec: ProcessRecord, gnext: nat, next: nat, n: nat)
    requires Ready(c, dc, t, m, gnext, next, n) && G.Comes(Look(c, dc, t, m), ProcessPath(dc, pid), 0)
    requires Look(c, dc, t, m).open(G.ReadAt(Look(c, dc, t, m), ProcessPath(dc, pid), 0))
    ensures var h := G.ReadAt(Look(c, dc, t, m), ProcessPath(dc, pid), 0);
            Inserted(c, dc, t, m, pid, rec, gnext, n, Built(Written(t, h, rec), m, gnext, next, Some(h)))
  {
    hide GWalk, G.TreeShaped, G.Allocated, SameWord, G.TableAt, Searched, ProcessPath, IndicesAgree, DirectorySpace, OutcomeOf, Look,
         T.TreeShaped, T.Allocated, FreeIsClean, ValidSpace, Fresh, G.Buildable, G.Writes, Written, Pow2;
    var w, v := Look(c, dc, t, m), ProcessPath(dc, pid);
    var u := Written(t, G.ReadAt(w, v, 0), rec);
    WriteLooks(c, dc, t, m, pid, rec, gnext, next);
    G.WriteKeepsTree(w, Look(c, dc, u, m), v, 0, gnext, next);
    forall x | G.Buildable(w, x, 0) ensures G.Buildable(Look(c, dc, u, m), x, 0) {
      G.WriteBuildable(w, Look(c, dc, u, m), v, 0, x, 0, gnext, next);
    }
    forall y ensures Searched(c, dc, u, y, m) ==
                     if IndicesAgree(v, ProcessPath(dc, y), 0) then OutcomeOf(c, dc, rec) else Searched(c, dc, t, y, m) {
      WriteSearches(c, dc, t, m, pid, rec, gnext, next, y);
    }
  }

  /** A valid entry is followed. */
  lemma FollowStep(c: Config, dc: DeviceContext, t: Tree, m: Store, pid: nat, i: nat, rec: ProcessRecord, gnext: nat, next: nat, n: nat)
    requires MayBuild(c, dc, t, m, pid, gnext, next, n) && 0 < i && G.Has(Look(c, dc, t, m), ProcessPath(dc, pid), i)
    requires G.Comes(Look(c, dc, t, m), ProcessPath(dc, pid), i)
    requires Look(c, dc, t, m).cell(G.ReadAt(Look(c, dc, t, m), ProcessPath(dc, pid), i)).Pointer?
    ensures G.Has(Look(c, dc, t, m), ProcessPath(dc, pid), i - 1)
    ensures var (w, v) := (Look(c, dc, t, m), ProcessPath(dc, pid));
            BuildFrom(c, dc, t, pid, i, G.TableAt(w, v, i).value * PAGE_SIZE, rec, m, gnext, next) ==
            BuildFrom(c, dc, t, pid, i - 1, G.TableAt(w, v, i - 1).value * PAGE_SIZE, rec, m, gnext, next)
  {
    hide GWalk, G.TreeShaped, G.Allocated, ProcessPath, Pow2, DirectorySpace, T.TreeShaped, T.Allocated, FreeIsClean, ValidSpace,
         Fresh, ProcessEntry;
    assert G.Usable(Look(c, dc, t, m), ProcessPath(dc, pid), i, 0);
    SameAddress(c, dc, t, m, pid, i);
  }

  /** An empty one is linked to a free page. */
  lemma LinkStep(c: Config, dc: DeviceContext, t: Tree, m: Store, pid: nat, i: nat, rec: ProcessRecord, gnext: nat, next: nat, n: nat)
    requires MayBuild(c, dc, t, m, pid, gnext, next, n) && 0 < i && 0 < n && G.Comes(Look(c, dc, t, m), ProcessPath(dc, pid), i)
    requires Look(c, dc, t, m).cell(G.ReadAt(Look(c, dc, t, m), ProcessPath(dc, pid), i)).Empty?
    requires var b := MapPage(DirectorySpace(c, dc), gnext, false, m, next); b.addr.Some? && SameFaults(m, b.store)
    ensures var (w, v) := (Look(c, dc, t, m), ProcessPath(dc, pid));
            var b := MapPage(DirectorySpace(c, dc), gnext, false, m, next);
            BuildFrom(c, dc, t, pid, i, G.TableAt(w, v, i).value * PAGE_SIZE, rec, m, gnext, next) ==
            BuildFrom(c, dc, LinkedTree(t, G.ReadAt(w, v, i), gnext, next, b.next), pid, i - 1, gnext * PAGE_SIZE, rec, b.store, gnext + 1,
                      b.next)
  {
    hide Ready, GWalk, ProcessPath, DirectorySpace, G.TableAt, MapPage, BuildFrom, LinkedTree, SimpleHost, ProcessEntry, Pow2;
    assert G.Usable(Look(c, dc, t, m), ProcessPath(dc, pid), i, 0);
    ReadyMeans(c, dc, t, m, gnext, next, n);
    SameAddress(c, dc, t, m, pid, i);
    LinkStepAt(c, dc, t, m, pid, i, G.TableAt(Look(c, dc, t, m), ProcessPath(dc, pid), i).value * PAGE_SIZE, rec, gnext, next);
  }

  lemma ReadyMeans(c: Config, dc: DeviceContext, t: Tree, m: Store, gnext: nat, next: nat, n: nat)
    requires Ready(c, dc, t, m, gnext, next, n)
    ensures ValidSpace(DirectorySpace(c, dc)) && DirectorySpace(c, dc).gmode.Paged? && (0 < n ==> gnext < 0x1000_0000_0000)
  {
  }

  lemma LinkStepAt(c: Config, dc: DeviceContext, t: Tree, m: Store, pid: nat, i: nat, a: nat, rec: ProcessRecord, gnext: nat, next: nat)
    requires DirectorySpace(c, dc).gmode.Paged? && 0 < i && gnext < 0x1000_0000_0000 && SimpleHost(DirectorySpace(c, dc), a, m).Some?
    requires var h := ProcessEntry(i, pid, SimpleHost(DirectorySpace(c, dc), a, m).value);
             !EntryIn(t.pdtes, h).V && LoadStatus(m, h).Okay? && StoreStatus(m, h).Okay?
    requires var b := MapPage(DirectorySpace(c, dc), gnext, false, m, next); b.addr.Some? && SameFaults(m, b.store)
    ensures var b := MapPage(DirectorySpace(c, dc), gnext, false, m, next);
            var h := ProcessEntry(i, pid, SimpleHost(DirectorySpace(c, dc), a, m).value);
            BuildFrom(c, dc, t, pid, i, a, rec, m, gnext, next) ==
            BuildFrom(c, dc, LinkedTree(t, h, gnext, next, b.next), pid, i - 1, gnext * PAGE_SIZE, rec, b.store, gnext + 1, b.next)
  {
    hide DirectorySpace, SimpleHost, ProcessEntry, MapPage, ClearPages, EntryIn;
  }

  lemma InsertedBefore(c: Config, dc: DeviceContext, t: Tree, m: Store, u: Tree, n: Store, pid: nat, rec: ProcessRecord, gnext: nat,
                       k: nat, b: Built)
    requires StillBuildable(c, dc, t, m, u, n) && SameSearches(c, dc, t, m, u, n) && 0 < k
    requires Inserted(c, dc, u, n, pid, rec, gnext + 1, k - 1, b)
    ensures Inserted(c, dc, t, m, pid, rec, gnext, k, b)
  {
    hide Ready, Look, Searched, G.Buildable;
  }

  lemma {:induction false} BuildInserts(c: Config, dc: DeviceContext, t: Tree, m: Store, pid: nat, i: nat, rec: ProcessRecord,
                                        gnext: nat, next: nat, n: nat)
    requires MayBuild(c, dc, t, m, pid, gnext, next, n) && G.Has(Look(c, dc, t, m), ProcessPath(dc, pid), i) && i <= n
    ensures var a := G.TableAt(Look(c, dc, t, m), ProcessPath(dc, pid), i).value * PAGE_SIZE;
            var b := BuildFrom(c, dc, t, pid, i, a, rec, m, gnext, next);
            Inserted(c, dc, t, m, pid, rec, gnext, n, b) && b.gnext <= gnext + i
    decreases i
  {
    hide BuildFrom, G.TableAt, Look, Ready, Searched, ProcessPath, DirectorySpace, MapPage, LinkedTree, Inserted, IndicesAgree;
    var w, v := Look(c, dc, t, m), ProcessPath(dc, pid);
    assert G.Usable(w, v, i, 0);
    if i == 0 {
      WriteStep(c, dc, t, m, pid, rec, gnext, next, n);
    } else if w.cell(G.ReadAt(w, v, i)).Pointer? {
      FollowStep(c, dc, t, m, pid, i, rec, gnext, next, n);
      BuildInserts(c, dc, t, m, pid, i - 1, rec, gnext, next, n);
    } else {
      ReadyMeans(c, dc, t, m, gnext, next, n);
      var b, h := MapPage(DirectorySpace(c, dc), gnext, false, m, next), G.ReadAt(w, v, i);
      var u := LinkedTree(t, h, gnext, next, b.next);
      assert IndicesAgree(v, v, i) by { AgreeSelf(v, i); }
      LinkReady(c, dc, t, m, v, i, gnext, next, n);
      LinkStep(c, dc, t, m, pid, i, rec, gnext, next, n);
      BuildInserts(c, dc, u, b.store, pid, i - 1, rec, gnext + 1, b.next, n - 1);
      var done := BuildFrom(c, dc, t, pid, i, G.TableAt(w, v, i).value * PAGE_SIZE, rec, m, gnext, next);
      InsertedBefore(c, dc, t, m, u, b.store, pid, rec, gnext, n, done);
    }
  }

  lemma AgreeSelf(v: seq<nat>, i: nat)
    ensures IndicesAgree(v, v, i)
  {
  }

  /** Process ids of the directory's width are told apart by their indices. */
  lemma IndicesTellApart(dc: DeviceContext, x: nat, y: nat)
    requires PidFits(dc, x) && PidFits(dc, y)
    ensures IndicesAgree(ProcessPath(dc, x), ProcessPath(dc, y), 0) <==> x == y
  {
    if IndicesAgree(ProcessPath(dc, x), ProcessPath(dc, y), 0) {
      var p, q := ProcessPath(dc, x), ProcessPath(dc, y);
      assert p[0] == q[0];
      if ProcessLevels(dc) > 1 { assert p[1] == q[1]; }
      if ProcessLevels(dc) > 2 { assert p[2] == q[2]; }
      D.LowOfShift0(x, 8);
      D.LowOfShift0(y, 8);
      hide Pow2, Low, Shr, IndicesAgree, ProcessPath;
      match ProcessLevels(dc) {
        case 1 => D.OneField(x, y, 0, 8);
        case 2 => D.OneField(x, y, 8, 9); D.SplicesAlike(x, y, 0, 8);
        case _ => D.OneField(x, y, 17, 3); D.SplicesAlike(x, y, 8, 9); D.SplicesAlike(x, y, 0, 8);
      }
      D.ShiftByNone(x);
      D.ShiftByNone(y);
    }
  }

  lemma ReadyForFewer(c: Config, dc: DeviceContext, t: Tree, m: Store, gnext: nat, next: nat, n: nat, k: nat)
    requires Ready(c, dc, t, m, gnext, next, n) && k <= n
    ensures Ready(c, dc, t, m, gnext, next, k)
  {
    var j := DirectorySpace(c, dc).gmode.format.Levels();
    assert n * j == (n - k) * j + k * j;
    hide DirectorySpace, Look, T.TreeShaped, T.Allocated, G.TreeShaped, G.Allocated, FreeIsClean, ValidSpace, T.CanPlace, GpaFits;
  }

  lemma RootOf(c: Config, dc: DeviceContext, t: Tree, pid: nat, m: Store)
    ensures var (w, v, top) := (Look(c, dc, t, m), ProcessPath(dc, pid), ProcessLevels(dc) - 1);
            G.Has(w, v, top) && G.TableAt(w, v, top) == Some(dc.fsc.ppn)
  {
    PathInPages(c, dc, t, pid, m);
  }

  /** The round trip: after `add_process_context` the process locates the very context written, if it is valid
      and passes the configuration checks, and every other process what it located before. What could be added
      still can. */
  lemma BuildThenLocate(c: Config, dc: DeviceContext, t: Tree, m: Store, pid: nat, rec: ProcessRecord, gnext: nat, next: nat, n: nat)
    requires MayBuild(c, dc, t, m, pid, gnext, next, n) && ProcessLevels(dc) - 1 <= n && PidFits(dc, pid)
    ensures var b := Build(c, dc, t, pid, rec, m, gnext, next);
            && b.addr.Some? && Ready(c, dc, b.tree, b.store, b.gnext, b.next, n - (ProcessLevels(dc) - 1))
            && StillBuildable(c, dc, t, m, b.tree, b.store)
            && LocateProcess(c, dc, b.tree, pid, b.store).0 == OutcomeOf(c, dc, rec)
            && (rec.V && !ProcessMisconfigured(c, dc, rec.pc) ==> LocateProcess(c, dc, b.tree, pid, b.store).0 == Found(rec.pc))
            && (forall y: nat | PidFits(dc, y) && y != pid ::
                  LocateProcess(c, dc, b.tree, y, b.store).0 == LocateProcess(c, dc, t, y, m).0)
  {
    hide BuildFrom, Ready, Look, Searched, LocateProcess, G.Buildable, ProcessMisconfigured, ProcessPath, IndicesAgree, PidFits;
    var top := ProcessLevels(dc) - 1;
    var b := Build(c, dc, t, pid, rec, m, gnext, next);
    PathInPages(c, dc, t, pid, m);
    RootOf(c, dc, t, pid, m);
    BuildInserts(c, dc, t, m, pid, top, rec, gnext, next, n);
    ReadyForFewer(c, dc, b.tree, b.store, b.gnext, b.next, n - (b.gnext - gnext), n - top);
    forall y: nat | PidFits(dc, y)
      ensures LocateProcess(c, dc, b.tree, y, b.store).0 == if y == pid then OutcomeOf(c, dc, rec) else LocateProcess(c, dc, t, y, m).0
    {
      IndicesTellApart(dc, pid, y);
      LocatedIsSearch(c, dc, t, y, m);
      LocatedIsSearch(c, dc, b.tree, y, b.store);
    }
  }

  // ---------------------------------------------------------------- many contexts

  datatype Addition = Addition(pid: nat, rec: ProcessRecord)

  /** Calls of `add_process_context` one after the other, if none fails */
  function BuildAll(c: Config, dc: DeviceContext, t: Tree, adds: seq<Addition>, m: Store, gnext: nat, next: nat): Option<(Tree, Store)>
    decreases |adds|
  {
    if adds == [] then Some((t, m))
    else
      var b := Build(c, dc, t, adds[0].pid, adds[0].rec, m, gnext, next);
      if b.addr.None? then None else BuildAll(c, dc, b.tree, adds[1..], b.store, b.gnext, b.next)
  }

  /** The record added last for the process. */
  function LastFor(adds: seq<Addition>, y: nat): Option<ProcessRecord> {
    if adds == [] then None
    else
      var later := LastFor(adds[1..], y);
      if later.Some? then later else if adds[0].pid == y then Some(adds[0].rec) else None
  }

  /** Everything that adding the contexts asks. */
  ghost predicate MayBuildAll(c: Config, dc: DeviceContext, t: Tree, adds: seq<Addition>, m: Store, gnext: nat, next: nat) {
    && Ready(c, dc, t, m, gnext, next, |adds| * (ProcessLevels(dc) - 1))
    && forall k | 0 <= k < |adds| :: PidFits(dc, adds[k].pid) && G.Buildable(Look(c, dc, t, m), ProcessPath(dc, adds[k].pid), 0)
  }

  lemma BuildOne(c: Config, dc: DeviceContext, t: Tree, adds: seq<Addition>, m: Store, gnext: nat, next: nat)
    requires adds != [] && MayBuildAll(c, dc, t, adds, m, gnext, next)
    ensures var b := Build(c, dc, t, adds[0].pid, adds[0].rec, m, gnext, next);
            && b.addr.Some? && MayBuildAll(c, dc, b.tree, adds[1..], b.store, b.gnext, b.next)
            && forall y: nat | PidFits(dc, y) :: LocateProcess(c, dc, b.tree, y, b.store).0 ==
                 if y == adds[0].pid then OutcomeOf(c, dc, adds[0].rec) else LocateProcess(c, dc, t, y, m).0
  {
    hide Build, Ready, Look, LocateProcess, OutcomeOf, G.Buildable, ProcessPath, PidFits;
    var n, k := |adds|, ProcessLevels(dc) - 1;
    assert n * k == (n - 1) * k + k;
    BuildThenLocate(c, dc, t, m, adds[0].pid, adds[0].rec, gnext, next, n * k);
  }

  /** The directory that a series of additions leaves is a finite map: each process locates what was last
      added for it, the others what they located before. */
  lemma {:induction false} BuildAllIsMap(c: Config, dc: DeviceContext, t: Tree, adds: seq<Addition>, m: Store, gnext: nat, next: nat,
                                         y: nat)
    requires MayBuildAll(c, dc, t, adds, m, gnext, next) && PidFits(dc, y)
    ensures var r := BuildAll(c, dc, t, adds, m, gnext, next);
            && r.Some?
            && LocateProcess(c, dc, r.value.0, y, r.value.1).0 ==
                 match LastFor(adds, y) case Some(rec) => OutcomeOf(c, dc, rec) case None => LocateProcess(c, dc, t, y, m).0
    decreases |adds|
  {
    hide Build, MayBuildAll, LocateProcess, OutcomeOf, PidFits;
    if adds != [] {
      var b := Build(c, dc, t, adds[0].pid, adds[0].rec, m, gnext, next);
      BuildOne(c, dc, t, adds, m, gnext, next);
      BuildAllIsMap(c, dc, b.tree, adds[1..], b.store, b.gnext, b.next, y);
    }
  }

  // ---------------------------------------------------------------- an empty directory

  /** The root page is mapped to a page with nothing in it and no faults injected. */
  ghost predicate EmptyRoot(c: Config, dc: DeviceContext, t: Tree, m: Store, page: nat) {
    var sp := DirectorySpace(c, dc);
    && ValidSpace(sp) && Plain(sp, DIRECTORY_READ, dc.fsc.ppn, m)
    && Host(sp, DIRECTORY_READ, dc.fsc.ppn * PAGE_SIZE, m) == Some(page * PAGE_SIZE)
    && forall k: nat | InPage(k, page) :: k !in t.pdtes && k !in t.pcs && Open(c, m, k)
  }

  /** In an empty directory walks end in the root. */
  lemma EmptyRootEnds(c: Config, dc: DeviceContext, t: Tree, m: Store, page: nat, v: seq<nat>, j: nat)
    requires EmptyRoot(c, dc, t, m, page) && G.Has(Look(c, dc, t, m), v, j)
    ensures var w := Look(c, dc, t, m);
            && j == ProcessLevels(dc) - 1 && G.TableAt(w, v, j) == Some(dc.fsc.ppn) && G.Usable(w, v, j, 0)
            && G.Comes(w, v, j) && G.ReadAt(w, v, j) == page * PAGE_SIZE + v[j] && w.cell(G.ReadAt(w, v, j)).Empty?
  {
    hide GWalk, Pow2, DirectorySpace, G.TableAt, GpaFits, ValidSpace, TableTools.CodedWalk;
    var w, top := Look(c, dc, t, m), ProcessLevels(dc) - 1;
    G.RootTable(w, v);
    PlainPage(DirectorySpace(c, dc), DIRECTORY_READ, dc.fsc.ppn, G.EntryAt(w, v, top), m);
    assert InPage(page * PAGE_SIZE + v[top], page);
    if j < top { G.NoTableBelow(w, v, top, j); }
  }

  /** It is a tree to start from; any process can be added, and none is located there. */
  lemma EmptyRootIsTree(c: Config, dc: DeviceContext, t: Tree, m: Store, page: nat, gnext: nat, next: nat, pid: nat)
    requires EmptyRoot(c, dc, t, m, page) && page < next && dc.fsc.ppn < gnext
    ensures var w := Look(c, dc, t, m);
            && G.TreeShaped(w) && G.Allocated(w, gnext, next) && G.Buildable(w, ProcessPath(dc, pid), 0)
            && LocateProcess(c, dc, t, pid, m).0 == Failed(266)
  {
    hide Look, EmptyRoot, G.TableAt, LocateProcess, Searched, Search, ProcessPath;
    var w := Look(c, dc, t, m);
    forall v, i, x, j ensures G.ReadApart(w, v, i, x, j) {
      if G.Comes(w, v, i) && G.Comes(w, x, j) && G.ReadAt(w, v, i) == G.ReadAt(w, x, j) {
        EmptyRootEnds(c, dc, t, m, page, v, i);
        EmptyRootEnds(c, dc, t, m, page, x, j);
        LevelsOf(c, dc, t, m);
      }
    }
    forall v, i ensures G.Below(w, v, i, gnext, next) { if G.Has(w, v, i) { EmptyRootEnds(c, dc, t, m, page, v, i); } }
    PathInPages(c, dc, t, pid, m);
    forall j | 0 <= j < w.levels ensures G.Usable(w, ProcessPath(dc, pid), j, 0) {
      if G.Has(w, ProcessPath(dc, pid), j) { EmptyRootEnds(c, dc, t, m, page, ProcessPath(dc, pid), j); }
    }
    RootOf(c, dc, t, pid, m);
    EmptyRootEnds(c, dc, t, m, page, ProcessPath(dc, pid), ProcessLevels(dc) - 1);
    NothingThere(c, dc, t, m, page, ProcessPath(dc, pid)[ProcessLevels(dc) - 1]);
    LocatedIsSearch(c, dc, t, pid, m);
    EmptyStops(c, dc, t, pid, ProcessLevels(dc) - 1, m);
  }

  lemma LevelsOf(c: Config, dc: DeviceContext, t: Tree, m: Store)
    ensures Look(c, dc, t, m).levels == ProcessLevels(dc)
  {
  }

  lemma NothingThere(c: Config, dc: DeviceContext, t: Tree, m: Store, page: nat, off: nat)
    requires EmptyRoot(c, dc, t, m, page) && off < PAGE_SIZE
    ensures page * PAGE_SIZE + off !in t.pcs
  {
    assert InPage(page * PAGE_SIZE + off, page);
  }

  /** From an empty directory, with GADE set and a second stage that has room: a process is located exactly if it
      was added, with its last context. */
  lemma BuiltFromEmpty(c: Config, dc: DeviceContext, t: Tree, adds: seq<Addition>, m: Store, page: nat, gnext: nat, next: nat, y: nat)
    requires EmptyRoot(c, dc, t, m, page) && page < next && dc.fsc.ppn < gnext && DirectorySpace(c, dc).gade
    requires var (sp, n) := (DirectorySpace(c, dc), |adds| * (ProcessLevels(dc) - 1));
             && T.TreeShaped(sp, m) && T.Allocated(sp, m, next) && FreeIsClean(m, next) && Fresh(sp, m, gnext, n)
             && T.Room(sp, next, n * sp.gmode.format.Levels())
    requires PidFits(dc, y) && forall k | 0 <= k < |adds| :: PidFits(dc, adds[k].pid)
    ensures var r := BuildAll(c, dc, t, adds, m, gnext, next);
            && r.Some?
            && LocateProcess(c, dc, r.value.0, y, r.value.1).0 ==
                 match LastFor(adds, y) case Some(rec) => OutcomeOf(c, dc, rec) case None => Failed(266)
  {
    hide BuildAll, T.TreeShaped, T.Allocated, FreeIsClean, G.TreeShaped, G.Allocated, G.Buildable, LocateProcess, OutcomeOf, Pow2,
         DirectorySpace, Look,
         Fresh, ProcessPath, PidFits;
    EmptyRootIsTree(c, dc, t, m, page, gnext, next, y);
    forall k | 0 <= k < |adds| ensures G.Buildable(Look(c, dc, t, m), ProcessPath(dc, adds[k].pid), 0) {
      EmptyRootIsTree(c, dc, t, m, page, gnext, next, adds[k].pid);
    }
    BuildAllIsMap(c, dc, t, adds, m, gnext, next, y);
  }
}
