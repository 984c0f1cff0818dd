/** Building the first-stage tables of a VM, which lie in guest memory that grows with them: adding an entry
    changes what the two-stage search finds for just the addresses of the region it maps. */
module NestedBuilder {
  import opened Bits
  import opened Common
  import opened PageTables
  import opened SecondStage
  import opened TwoStage
  import opened AdUpdates
  import opened Superpages
  import opened HostPages
  import opened FirstStageTables
  import G = GuestTrees
  import T = TableBuilder
  import TableTools

  // ---------------------------------------------------------------- what the builder does

  /** Memory, the next free guest page and page, and where the entry is, if no access failed. */
  datatype Built = Built(store: Store, gnext: nat, next: nat, addr: Option<nat>)

  /** The loop of `add_vs_stage_pte` from the table at guest address `a`, level `i` */
  function BuildFrom(sp: Space, vpn: seq<nat>, i: nat, level: nat, a: nat, leaf: Pte, m: Store, gnext: nat, next: nat): Built
    requires sp.vmode.Paged? && i < |vpn|
    decreases i
  {
    var h := SimpleHost(sp, a, m);
    if h.None? then Built(m, gnext, next, None)
    else
      var s := EntrySlot(sp.vmode.format, vpn, i, h.value);
      if i <= level then
        if StoreStatus(m, s.addr).Okay? then Built(Put(m, s, leaf), gnext, next, Some(s.addr)) else Built(m, gnext, next, None)
      else if !LoadStatus(m, s.addr).Okay? then Built(m, gnext, next, None)
      else
        var p := Fetch(m, s);
        if p.V then BuildFrom(sp, vpn, i - 1, level, p.PPN * PAGE_SIZE, leaf, m, gnext, next)
        else
          var q := T.Linked(p, gnext);
          var b := MapPage(sp, q.PPN, true, m, next);
          if b.addr.None? || !StoreStatus(b.store, s.addr).Okay? then Built(b.store, gnext + 1, b.next, None)
          else BuildFrom(sp, vpn, i - 1, level, q.PPN * PAGE_SIZE, leaf, Put(b.store, s, q), gnext + 1, b.next)
  }

  /** `add_vs_stage_pte` */
  function Build(sp: Space, iova: nat, level: nat, leaf: Pte, m: Store, gnext: nat, next: nat): Built
    requires sp.vmode.Paged?
  {
    BuildFrom(sp, Indices(sp.vmode.format, 0, iova), sp.vmode.format.Levels() - 1, level, sp.vppn * PAGE_SIZE, leaf, m, gnext, next)
  }

  /** Without a second stage this builder gives up at once; `add_s_stage_pte` is the one to use. */
  lemma BareFails(sp: Space, iova: nat, level: nat, leaf: Pte, m: Store, gnext: nat, next: nat)
    requires sp.vmode.Paged? && sp.gmode.Bare?
    ensures Build(sp, iova, level, leaf, m, gnext, next) == Built(m, gnext, next, None)
  {
    hide Indices;
  }

  /** One level of the builder: the entry to follow, memory and the next free pages. */
  datatype Stepped = Stepped(entry: Option<Pte>, store: Store, gnext: nat, next: nat)

  function StepDown(sp: Space, s: Slot, m: Store, gnext: nat, next: nat): Stepped
    requires sp.gmode.Paged?
  {
    if !LoadStatus(m, s.addr).Okay? then Stepped(None, m, gnext, next)
    else
      var p := Fetch(m, s);
      if p.V then Stepped(Some(p), m, gnext, next)
      else
        var q := T.Linked(p, gnext);
        var b := MapPage(sp, q.PPN, true, m, next);
        if b.addr.None? || !StoreStatus(b.store, s.addr).Okay? then Stepped(None, b.store, gnext + 1, b.next)
        else Stepped(Some(q), Put(b.store, s, q), gnext + 1, b.next)
  }

  lemma BuildSteps(sp: Space, vpn: seq<nat>, i: nat, level: nat, a: nat, leaf: Pte, m: Store, gnext: nat, next: nat)
    requires sp.vmode.Paged? && sp.gmode.Paged? && level < i < |vpn| && SimpleHost(sp, a, m).Some?
    ensures var d := StepDown(sp, EntrySlot(sp.vmode.format, vpn, i, SimpleHost(sp, a, m).value), m, gnext, next);
            BuildFrom(sp, vpn, i, level, a, leaf, m, gnext, next) ==
              if d.entry.None? then Built(d.store, d.gnext, d.next, None)
              else BuildFrom(sp, vpn, i - 1, level, d.entry.value.PPN * PAGE_SIZE, leaf, d.store, d.gnext, d.next)
  {
    hide EntrySlot, Fetch, T.Linked, MapPage, SimpleHost;
  }

  lemma BuildEnds(sp: Space, vpn: seq<nat>, i: nat, level: nat, a: nat, leaf: Pte, m: Store, gnext: nat, next: nat)
    requires sp.vmode.Paged? && i < |vpn| && (i <= level || SimpleHost(sp, a, m).None?)
    ensures var h := SimpleHost(sp, a, m);
            BuildFrom(sp, vpn, i, level, a, leaf, m, gnext, next) ==
              if h.Some? && StoreStatus(m, EntrySlot(sp.vmode.format, vpn, i, h.value).addr).Okay? then
                Built(Put(m, EntrySlot(sp.vmode.format, vpn, i, h.value), leaf), gnext, next,
                      Some(EntrySlot(sp.vmode.format, vpn, i, h.value).addr))
              else Built(m, gnext, next, None)
  {
    hide EntrySlot, SimpleHost;
  }

  /** The code of `add_vs_stage_pte`; guest pages are handed out in order. */
  method AddVsStagePte(pages: TableTools.Allocator, mem: Memory, sp: Space, iova: U64, leaf: Pte, level: nat, first: nat)
    returns (addr: Option<nat>, gnext: nat)
    requires ValidSpace(sp) && sp.vmode.Paged? && pages.nextFreePage + 50 < TWO_64
    modifies pages, mem
    ensures Built(mem.store, gnext, pages.nextFreePage, addr) ==
            Build(sp, iova, level, leaf, old(mem.store), first, old(pages.nextFreePage))
  {
    var f := sp.vmode.format;
    var vpn := ExtractVsVpn(f, iova);
    FirstStageIndices(f, iova);
    hide BuildFrom, StepDown, SimpleHost, ValidSpace, Indices, EntrySlot;
    var i: nat, a: nat := f.Levels() - 1, sp.vppn * PAGE_SIZE;
    gnext := first;
    ghost var was, n := mem.store, pages.nextFreePage;
    while i > level
      invariant a < 0x100_0000_0000_0000 && a % PAGE_SIZE == 0 && i < f.Levels() && pages.nextFreePage + 8 * i < TWO_64
      invariant BuildFrom(sp, vpn, i, level, a, leaf, mem.store, gnext, pages.nextFreePage) == Build(sp, iova, level, leaf, was, first, n)
    {
      var h := FindPage(mem, sp, a);
      if h.None? {
        BuildEnds(sp, vpn, i, level, a, leaf, mem.store, gnext, pages.nextFreePage);
        return None, gnext;
      }
      PagedIfFound(sp, a, mem.store);
      BuildSteps(sp, vpn, i, level, a, leaf, mem.store, gnext, pages.nextFreePage);
      var s := AddressEntry(sp, vpn, i, a, h.value, mem);
      var entry;
      entry, gnext := FollowOrLink(pages, mem, sp, s, gnext);
      if entry.None? { return None, gnext; }
      i := i - 1;
      a := entry.value.PPN * PAGE_SIZE;
    }
    BuildEnds(sp, vpn, i, level, a, leaf, mem.store, gnext, pages.nextFreePage);
    addr := WriteEntry(mem, sp, vpn, i, a, leaf);
  }

  /** After the loop: the entry is written. */
  method WriteEntry(mem: Memory, sp: Space, vpn: seq<nat>, i: nat, a: U64, leaf: Pte) returns (addr: Option<nat>)
    requires ValidSpace(sp) && sp.vmode.Paged? && InTable(sp.vmode.format, vpn, PAGE_SIZE) && i < |vpn| && a % PAGE_SIZE == 0
    modifies mem
    ensures var h := SimpleHost(sp, a, old(mem.store));
            if h.None? then addr.None? && mem.store == old(mem.store)
            else
              var s := EntrySlot(sp.vmode.format, vpn, i, h.value);
              if StoreStatus(old(mem.store), s.addr).Okay? then addr == Some(s.addr) && mem.store == Put(old(mem.store), s, leaf)
              else addr.None? && mem.store == old(mem.store)
  {
    hide SimpleHost, ValidSpace, EntrySlot, InTable;
    var h := FindPage(mem, sp, a);
    if h.None? { return None; }
    var s := AddressEntry(sp, vpn, i, a, h.value, mem);
    var status := mem.WriteMemory(s.addr, s.size, leaf);
    addr := if status.Okay? then Some(s.addr) else None;
  }

  /** The loop's body: the entry at `s`, pointed to a new guest page if it was invalid */
  method FollowOrLink(pages: TableTools.Allocator, mem: Memory, sp: Space, s: Slot, first: nat) returns (entry: Option<Pte>, gnext: nat)
    requires ValidSpace(sp) && sp.gmode.Paged? && pages.nextFreePage + 8 < TWO_64
    modifies pages, mem
    ensures Stepped(entry, mem.store, gnext, pages.nextFreePage) == StepDown(sp, s, old(mem.store), first, old(pages.nextFreePage))
    ensures pages.nextFreePage <= old(pages.nextFreePage) + 5
  {
    hide MapPage, ValidSpace;
    gnext := first;
    var status, pte := mem.ReadMemory(s.addr, s.size);
    if !status.Okay? { return None, gnext; }
    if !pte.V {
      pte := T.Linked(pte, gnext);
      gnext := gnext + 1;
      var ok := MapFreePage(pages, mem, sp, pte.PPN, true);
      if !ok { return None, gnext; }
      status := mem.WriteMemory(s.addr, s.size, pte);
      if !status.Okay? { return None, gnext; }
    }
    entry := Some(pte);
  }

  /** `a | (vpn[i] * PTESIZE)` with the page that `translate_gpa` finds */
  method AddressEntry(sp: Space, vpn: seq<nat>, i: nat, a: nat, h: nat, mem: Memory) returns (s: Slot)
    requires sp.vmode.Paged? && InTable(sp.vmode.format, vpn, PAGE_SIZE) && i < |vpn| && a % PAGE_SIZE == 0
    requires SimpleHost(sp, a, mem.store) == Some(h)
    ensures s == EntrySlot(sp.vmode.format, vpn, i, h)
  {
    SimplyAligned(sp, a, mem.store);
    hide SimpleHost, Or;
    EntryAddress(h / PAGE_SIZE, vpn[i] * sp.vmode.format.PteSize(), false);
    s := Slot(Or(h, vpn[i] * sp.vmode.format.PteSize()), sp.vmode.format.PteSize());
  }

  lemma PagedIfFound(sp: Space, a: nat, m: Store)
    requires SimpleHost(sp, a, m).Some?
    ensures sp.gmode.Paged?
  {
  }

  /** `translate_gpa` of the first byte of a page is the first byte of a page. */
  lemma SimplyAligned(sp: Space, a: nat, m: Store)
    requires a % PAGE_SIZE == 0
    ensures var h := SimpleHost(sp, a, m); h.Some? ==> h.value % PAGE_SIZE == 0
  {
    if sp.gmode.Paged? {
      SimpleOffset(sp.gmode.format, TableTools.CodePath(sp, a), sp.gmode.format.Levels() - 1, sp.gppn * PAGE_SIZE, a, m);
      hide TableTools.SimpleFrom, Low, Pow2, TableTools.CodePath;
      SmallPowers();
      LowIsRemainder(a, 12);
      var r := TableTools.CodedWalk(sp, a, m);
      if r.Some? { LowIsRemainder(r.value.1, 12); }
    }
  }

  lemma {:induction false} SimpleOffset(f: Format, vpn: seq<nat>, i: nat, a: nat, gpa: nat, m: Store)
    requires i < |vpn|
    ensures var r := TableTools.SimpleFrom(f, vpn, i, a, gpa, m); r.Some? ==> Low(r.value.1, 12) == Low(gpa, 12)
    decreases i
  {
    hide Fetch, EntrySlot, Low, Splice;
    var p := Fetch(m, EntrySlot(f, vpn, i, a));
    var hi, k := p.PPN * PAGE_SIZE, f.Shift(i);
    SpliceParts(hi, gpa, k);
    LowLow(Splice(hi, gpa, k), 12, k);
    LowLow(gpa, 12, k);
    if i > 0 { SimpleOffset(f, vpn, i - 1, hi, gpa, m); }
  }

  // ---------------------------------------------------------------- linking a page

  /** All is ready for linking `n` more pages. */
  ghost predicate Ready(sp: Space, m: Store, gnext: nat, next: nat, n: nat) {
    && ValidSpace(sp) && sp.vmode.Paged? && sp.gmode.Paged? && sp.gade && Fresh(sp, m, gnext, n)
    && T.Room(sp, next, n * sp.gmode.format.Levels()) && (sp.vmode.format.Sv32? ==> gnext + n <= 0x40_0000)
    && T.TreeShaped(sp, m) && T.Allocated(sp, m, next) && FreeIsClean(m, next)
    && G.TreeShaped(Look(sp, m)) && G.Allocated(Look(sp, m), gnext, next) && Apart(sp, m)
  }

  ghost predicate MayLink(sp: Space, m: Store, v: seq<nat>, i: nat, gnext: nat, next: nat, n: nat) {
    && Ready(sp, m, gnext, next, n) && 0 < n && 0 < i && G.Comes(Look(sp, m), v, i)
    && Look(sp, m).cell(G.ReadAt(Look(sp, m), v, i)).Empty?
  }

  /** Memory after the empty word at `h` is pointed to guest page `gnext`, which is mapped. */
  function LinkedStore(sp: Space, h: nat, m: Store, gnext: nat, next: nat): Store
    requires sp.vmode.Paged? && sp.gmode.Paged?
  {
    Put(MapPage(sp, gnext, true, m, next).store, Slot(h, sp.vmode.format.PteSize()), T.Linked(ZERO_PTE, gnext))
  }

  lemma MapsNext(sp: Space, m: Store, gnext: nat, next: nat, n: nat)
    requires Ready(sp, m, gnext, next, n) && 0 < n
    ensures MayMap(sp, gnext, m, next) && T.Room(sp, next, 1)
    ensures var b := MapPage(sp, gnext, true, m, next);
            Mapped(sp, gnext, true, m, next, b) && T.Room(sp, b.next, (n - 1) * sp.gmode.format.Levels())
  {
    hide ValidSpace, T.TreeShaped, T.Allocated, FreeIsClean, G.TreeShaped, G.Allocated, Look, MapPage, T.CanPlace, GpaFits, Apart;
    var k := sp.gmode.format.Levels();
    assert n * k == (n - 1) * k + k;
    T.RoomShrinks(sp, next, n * k, k);
    T.RoomShrinks(sp, next, n * k, 1);
    MapPageIsMapUpdate(sp, gnext, true, m, next);
    T.RoomLeft(sp, next, MapPage(sp, gnext, true, m, next).next, n * k, (n - 1) * k);
  }

  /** The second stage is mapped the page, and not touched by the link. */
  lemma LinkStage(sp: Space, m: Store, v: seq<nat>, i: nat, gnext: nat, next: nat, n: nat)
    requires MayLink(sp, m, v, i, gnext, next, n)
    ensures var (b, h) := (MapPage(sp, gnext, true, m, next), G.ReadAt(Look(sp, m), v, i));
            && h < next * PAGE_SIZE && SameTables(sp, b.store, LinkedStore(sp, h, m, gnext, next))
            && Mapped(sp, gnext, true, m, next, b.(store := LinkedStore(sp, h, m, gnext, next)))
  {
    hide ValidSpace, T.TreeShaped, T.Allocated, FreeIsClean, G.TreeShaped, Look, MapPage, T.CanPlace, GpaFits, Apart, Mapped, MayMap,
         Fresh, G.TableAt,
         T.TableAt, T.ForTable;
    MapsNext(sp, m, gnext, next, n);
    MapPageGrows(sp, gnext, true, m, next);
    var b, h := MapPage(sp, gnext, true, m, next), G.ReadAt(Look(sp, m), v, i);
    var o := LinkedStore(sp, h, m, gnext, next);
    assert G.Below(Look(sp, m), v, i, gnext, next);
    forall w, j ensures EntryKept(sp, w, j, b.store, o) {
      if T.Comes(sp, w, j, b.store) {
        assert OldOrNew(sp, m, next, b.store, w, j);
        if T.Comes(sp, w, j, m) { ApartAt(sp, m, v, i, w, j); }
      }
    }
    MappedKept(sp, gnext, true, m, next, b, o);
  }

  /** No other word of the first stage changes, and those of the new page are empty. */
  lemma LinkWords(sp: Space, m: Store, v: seq<nat>, i: nat, gnext: nat, next: nat, n: nat)
    requires MayLink(sp, m, v, i, gnext, next, n)
    ensures var h := G.ReadAt(Look(sp, m), v, i);
            var o := LinkedStore(sp, h, m, gnext, next);
            && (forall x, j :: WordKept(sp, m, o, h, x, j))
            && (forall k: nat | InPage(k, next) :: WordAt(sp, o, k) == ZERO_PTE)
            && WordAt(sp, o, h) == T.Linked(ZERO_PTE, gnext) && T.Linked(ZERO_PTE, gnext).PPN == gnext
  {
    hide ValidSpace, T.TreeShaped, T.Allocated, FreeIsClean, G.TreeShaped, Look, MapPage, T.CanPlace, GpaFits, Apart, MayMap, Mapped,
         G.TableAt;
    MapsNext(sp, m, gnext, next, n);
    MapPageGrows(sp, gnext, true, m, next);
    var h := G.ReadAt(Look(sp, m), v, i);
    var o := LinkedStore(sp, h, m, gnext, next);
    assert G.Below(Look(sp, m), v, i, gnext, next);
    forall x, j ensures WordKept(sp, m, o, h, x, j) {
      if G.Comes(Look(sp, m), x, j) && G.ReadAt(Look(sp, m), x, j) != h { WordUntouched(sp, m, x, j, gnext, next); }
    }
    forall k: nat | InPage(k, next) ensures WordAt(sp, o, k) == ZERO_PTE { PageUntouched(sp, m, k, gnext, next); }
  }

  lemma WordUntouched(sp: Space, m: Store, x: seq<nat>, j: nat, gnext: nat, next: nat)
    requires sp.vmode.Paged? && sp.gmode.Paged? && MayMap(sp, gnext, m, next)
             && Grown(sp, m, next, MapPage(sp, gnext, true, m, next).store)
    requires Apart(sp, m) && G.Allocated(Look(sp, m), gnext, next) && G.Comes(Look(sp, m), x, j)
    ensures WordAt(sp, MapPage(sp, gnext, true, m, next).store, G.ReadAt(Look(sp, m), x, j)) == WordAt(sp, m, G.ReadAt(Look(sp, m), x, j))
  {
    hide MayMap, Look, MapPage, Apart, G.TableAt, Fetch, T.TableAt, T.ForTable;
    var s := Slot(G.ReadAt(Look(sp, m), x, j), sp.vmode.format.PteSize());
    assert G.Below(Look(sp, m), x, j, gnext, next);
    assert WordAlone(sp, m, next, MapPage(sp, gnext, true, m, next).store, s);
    if Fetch(MapPage(sp, gnext, true, m, next).store, s) != Fetch(m, s) {
      var w, k :| IsEntry(sp, m, w, k, s.addr);
      ApartAt(sp, m, x, j, w, k);
    }
  }

  lemma PageUntouched(sp: Space, m: Store, k: nat, gnext: nat, next: nat)
    requires sp.vmode.Paged? && MayMap(sp, gnext, m, next) && InPage(k, next)
    requires Grown(sp, T.ClearPage(m, next), next + 1, MapPage(sp, gnext, true, m, next).store)
    ensures WordAt(sp, MapPage(sp, gnext, true, m, next).store, k) == ZERO_PTE
  {
    var s, c := Slot(k, sp.vmode.format.PteSize()), T.ClearPage(m, next);
    assert Fetch(c, s) == ZERO_PTE;
    ClearingKeeps(sp, m, next);
    hide Look, MapPage, Fetch, T.ClearPage, T.TableAt, T.ForTable, T.TreeShaped, FreeIsClean, T.CanPlace, SameTables, ValidSpace;
    assert WordAlone(sp, c, next + 1, MapPage(sp, gnext, true, m, next).store, s);
    if Fetch(MapPage(sp, gnext, true, m, next).store, s) != ZERO_PTE {
      var w, j :| IsEntry(sp, c, w, j, k);
      EntryWasBelow(sp, m, w, j, next);
    }
  }

  lemma EntryWasBelow(sp: Space, m: Store, w: seq<nat>, j: nat, next: nat)
    requires T.Allocated(sp, m, next) && SameTables(sp, m, T.ClearPage(m, next)) && T.Comes(sp, w, j, T.ClearPage(m, next))
    ensures T.EntryAt(sp, w, j, T.ClearPage(m, next)).addr < next * PAGE_SIZE
  {
    TableKept(sp, w, j, m, T.ClearPage(m, next));
    assert T.EntryBelow(sp, w, j, m, next);
  }

  lemma LinkHosts(sp: Space, m: Store, gnext: nat, next: nat, b: T.Built)
    requires sp.vmode.Paged? && sp.gmode.Paged? && sp.gade && T.Room(sp, next, 1) && Mapped(sp, gnext, true, m, next, b)
    ensures var (w, x) := (Look(sp, m), Look(sp, b.store));
            && (forall gpa: nat | gpa < gnext * PAGE_SIZE ::
                 x.host(gpa) == w.host(gpa) && GWalk(sp, IMPLICIT, gpa, b.store).0 == GWalk(sp, IMPLICIT, gpa, m).0)
            && (forall page: nat | page < gnext :: x.plain(page) == w.plain(page)) && x.plain(gnext)
            && (forall gpa: nat | InPage(gpa, gnext) :: x.host(gpa) == Some(next * PAGE_SIZE + (gpa - gnext * PAGE_SIZE)))
            && x.levels == w.levels && x.root == w.root && SameFaults(m, b.store)
  {
    FaultsAlike(sp, gnext, m, next, b);
    hide GWalk, Mapped, Pow2, CellOf, Open;
    forall gpa: nat | gpa < gnext * PAGE_SIZE ensures GWalk(sp, IMPLICIT, gpa, b.store).0 == GWalk(sp, IMPLICIT, gpa, m).0 {
      OtherPageRead(sp, IMPLICIT, gnext, true, gpa, m, next, b);
    }
    forall gpa: nat | InPage(gpa, gnext)
      ensures var r := GWalk(sp, IMPLICIT, gpa, b.store).0;
              r.GOk? && r.pa == next * PAGE_SIZE + (gpa - gnext * PAGE_SIZE) && r.pte == PageLeaf(next, true)
    {
      NewPageRead(sp, IMPLICIT, gnext, true, gpa, m, next, b);
    }
    assert InPage(gnext * PAGE_SIZE, gnext);
  }

  lemma FaultsAlike(sp: Space, gnext: nat, m: Store, next: nat, b: T.Built)
    requires sp.gmode.Paged? && Mapped(sp, gnext, true, m, next, b)
    ensures SameFaults(m, b.store)
  {
  }

  lemma LinkCells(sp: Space, m: Store, o: Store, h: nat, gnext: nat, next: nat)
    requires ValidSpace(sp) && sp.vmode.Paged? && SameFaults(m, o) && FreeIsClean(m, next) && Look(sp, m).cell(h).Empty?
    requires (next + 1) * PAGE_SIZE <= Pow2(sp.pas)
    requires (forall k: nat | InPage(k, next) :: WordAt(sp, o, k) == ZERO_PTE)
    requires WordAt(sp, o, h) == T.Linked(ZERO_PTE, gnext) && T.Linked(ZERO_PTE, gnext).PPN == gnext
    ensures var (w, x) := (Look(sp, m), Look(sp, o));
            && x.cell(h) == G.Pointer(gnext) && (forall k: nat :: x.open(k) == w.open(k))
            && (forall k: nat | InPage(k, next) :: x.cell(k).Empty? && x.open(k))
  {
    hide Pow2, GWalk, WordAt;
  }

  /** Linking is linking a page of guest memory. */
  lemma LinkLooks(sp: Space, m: Store, v: seq<nat>, i: nat, gnext: nat, next: nat, n: nat)
    requires MayLink(sp, m, v, i, gnext, next, n)
    ensures var h := G.ReadAt(Look(sp, m), v, i);
            var o := LinkedStore(sp, h, m, gnext, next);
            G.Links(Look(sp, m), Look(sp, o), v, i, gnext, next) && SameReads(sp, m, o, h, gnext)
  {
    hide ValidSpace, T.TreeShaped, T.Allocated, FreeIsClean, G.TreeShaped, Look, MapPage, T.CanPlace, GpaFits, Apart, Mapped, Fresh,
         G.TableAt,
         LinkedStore, WordAt, GWalk, Pow2, SameTables;
    var w, h := Look(sp, m), G.ReadAt(Look(sp, m), v, i);
    var o := LinkedStore(sp, h, m, gnext, next);
    var x := Look(sp, o);
    MapsNext(sp, m, gnext, next, n);
    LinkStage(sp, m, v, i, gnext, next, n);
    LinkWords(sp, m, v, i, gnext, next, n);
    LinkHosts(sp, m, gnext, next, MapPage(sp, gnext, true, m, next).(store := o));
    LinkCells(sp, m, o, h, gnext, next);
    forall y, j ensures G.CellKept(w, x, h, y, j) {
      assert WordKept(sp, m, o, h, y, j);
      SameCell(sp, m, o, y, j);
    }
  }

  /** The two stages still share no word. */
  lemma LinkApart(sp: Space, m: Store, v: seq<nat>, i: nat, gnext: nat, next: nat, n: nat)
    requires MayLink(sp, m, v, i, gnext, next, n)
    ensures Apart(sp, LinkedStore(sp, G.ReadAt(Look(sp, m), v, i), m, gnext, next))
  {
    hide ValidSpace, T.TreeShaped, FreeIsClean, G.TreeShaped, Look, MapPage, T.CanPlace, GpaFits, Fresh, G.TableAt, T.TableAt, T.ForTable,
         LinkedStore, Pow2, G.Links, SameReads, G.Allocated;
    var w, h := Look(sp, m), G.ReadAt(Look(sp, m), v, i);
    var b, o := MapPage(sp, gnext, true, m, next), LinkedStore(sp, h, m, gnext, next);
    MapsNext(sp, m, gnext, next, n);
    LinkStage(sp, m, v, i, gnext, next, n);
    LinkLooks(sp, m, v, i, gnext, next, n);
    MapPageGrows(sp, gnext, true, m, next);
    forall x, j, y, k ensures WordApart(sp, o, x, j, y, k) {
      if G.Comes(Look(sp, o), x, j) && T.Comes(sp, y, k, o) {
        G.LinkedRead(w, Look(sp, o), v, i, x, j, gnext, next);
        EntryOfLinked(sp, m, b.store, o, next, y, k);
        if T.Comes(sp, y, k, m) { assert T.EntryBelow(sp, y, k, m, next); }
        if G.Comes(w, x, j) && T.Comes(sp, y, k, m) { ApartAt(sp, m, x, j, y, k); }
      }
    }
  }

  /** An entry of the second stage is one from before, or lies beyond the page handed out first. */
  lemma EntryOfLinked(sp: Space, m: Store, b: Store, o: Store, next: nat, y: seq<nat>, k: nat)
    requires SameTables(sp, b, o) && Grown(sp, m, next, b) && Grown(sp, T.ClearPage(m, next), next + 1, b) && T.Allocated(sp, m, next)
    requires T.Comes(sp, y, k, o)
    ensures var s := T.EntryAt(sp, y, k, o); s.addr >= (next + 1) * PAGE_SIZE || (T.Comes(sp, y, k, m) && T.EntryAt(sp, y, k, m) == s)
  {
    hide T.TableAt, T.ForTable, Fetch, SameTables, T.Allocated;
    var c := T.ClearPage(m, next);
    TableKept(sp, y, k, b, o);
    assert T.Comes(sp, y, k, b);
    assert OldOrNew(sp, c, next + 1, b, y, k);
    ClearingKeeps(sp, m, next);
    hide T.ClearPage;
    if T.Comes(sp, y, k, c) { TableKept(sp, y, k, m, c); }
  }

  /** The linked tables are ready for what is left to do. */
  lemma LinkReady(sp: Space, m: Store, v: seq<nat>, i: nat, level: nat, gnext: nat, next: nat, n: nat)
    requires MayLink(sp, m, v, i, gnext, next, n)
    ensures var (b, o) := (MapPage(sp, gnext, true, m, next), LinkedStore(sp, G.ReadAt(Look(sp, m), v, i), m, gnext, next));
            && b.addr.Some? && SameFaults(m, b.store) && Ready(sp, o, gnext + 1, b.next, n - 1) && SameSearches(sp, m, o)
            && StillBuildable(sp, v, level, m, o)
            && G.Has(Look(sp, o), v, i - 1) && G.TableAt(Look(sp, o), v, i - 1) == Some(gnext)
  {
    hide ValidSpace, T.TreeShaped, T.Allocated, FreeIsClean, G.TreeShaped, Look, MapPage, T.CanPlace, GpaFits, Apart, G.TableAt, Fetch,
         LinkedStore, Pow2, G.Links, SameReads, G.Allocated, G.Buildable, GReach, IndicesAgree;
    var h := G.ReadAt(Look(sp, m), v, i);
    var b, o := MapPage(sp, gnext, true, m, next), LinkedStore(sp, h, m, gnext, next);
    MapsNext(sp, m, gnext, next, n);
    LinkStage(sp, m, v, i, gnext, next, n);
    LinkLooks(sp, m, v, i, gnext, next, n);
    LinkApart(sp, m, v, i, gnext, next, n);
    LinkUpdates(sp, m, o, v, i, level, gnext, next, b.next);
  }

  // ---------------------------------------------------------------- writing the entry

  ghost predicate MayWrite(sp: Space, m: Store, v: seq<nat>, level: nat, leaf: Pte, gnext: nat, next: nat, n: nat) {
    && Ready(sp, m, gnext, next, n) && G.Comes(Look(sp, m), v, level) && Look(sp, m).open(G.ReadAt(Look(sp, m), v, level))
    && NewLeaf(sp, leaf, level)
  }

  lemma WriteStage(sp: Space, m: Store, v: seq<nat>, level: nat, leaf: Pte, gnext: nat, next: nat, n: nat)
    requires MayWrite(sp, m, v, level, leaf, gnext, next, n)
    ensures var o := LeafStore(sp, G.ReadAt(Look(sp, m), v, level), leaf, m);
            && SameTables(sp, m, o) && FreeIsClean(o, next) && (forall gpa: nat :: GReach(sp, gpa, o) == GReach(sp, gpa, m))
            && T.TreeShaped(sp, o) && T.Allocated(sp, o, next) && Fresh(sp, o, gnext, n)
  {
    hide ValidSpace, T.TreeShaped, T.Allocated, FreeIsClean, G.TreeShaped, Look, GpaFits, Apart, G.TableAt, T.TableAt, T.ForTable,
         GReach, T.Buildable,
         G.Allocated, T.Path;
    var h := G.ReadAt(Look(sp, m), v, level);
    var o := LeafStore(sp, h, leaf, m);
    forall w, j ensures EntryKept(sp, w, j, m, o) { if T.Comes(sp, w, j, m) { ApartAt(sp, m, v, level, w, j); } }
    FaultsKept(sp, m, o, next);
    TreeKept(sp, m, o, next, next);
    hide SameTables;
    forall k: nat | T.CanPlace(sp, k * PAGE_SIZE, 0, m) ensures T.CanPlace(sp, k * PAGE_SIZE, 0, o) {
      assert T.Buildable(sp, T.Path(sp, k * PAGE_SIZE), 0, m);
    }
    forall gpa: nat ensures GReach(sp, gpa, o) == GReach(sp, gpa, m) { ReachKept(sp, gpa, m, o); }
  }

  lemma WriteLooks(sp: Space, m: Store, v: seq<nat>, level: nat, leaf: Pte, gnext: nat, next: nat, n: nat)
    requires MayWrite(sp, m, v, level, leaf, gnext, next, n)
    ensures var h := G.ReadAt(Look(sp, m), v, level);
            var o := LeafStore(sp, h, leaf, m);
            && G.Writes(Look(sp, m), Look(sp, o), v, level, gnext, next) && SameReads(sp, m, o, h, gnext) && WordAt(sp, o, h) == leaf
            && Open(sp, o, h)
  {
    hide ValidSpace, T.TreeShaped, T.Allocated, FreeIsClean, G.TreeShaped, GpaFits, Apart, G.TableAt, GReach, GWalk, G.Allocated,
         Fresh, Pow2, SameTables;
    WriteStage(sp, m, v, level, leaf, gnext, next, n);
    var h := G.ReadAt(Look(sp, m), v, level);
    var o := LeafStore(sp, h, leaf, m);
    forall gpa: nat ensures GWalk(sp, IMPLICIT, gpa, o).0 == GWalk(sp, IMPLICIT, gpa, m).0 { SameLeafSameWalk(sp, gpa, m, o); }
    forall x, j ensures WordKept(sp, m, o, h, x, j) && G.CellKept(Look(sp, m), Look(sp, o), h, x, j) { SameCell(sp, m, o, x, j); }
  }

  lemma SameLeafSameWalk(sp: Space, gpa: nat, m: Store, o: Store)
    requires GReach(sp, gpa, o) == GReach(sp, gpa, m) && SameFaults(m, o)
    ensures GWalk(sp, IMPLICIT, gpa, o).0 == GWalk(sp, IMPLICIT, gpa, m).0
  {
    hide GReach, Splice, WellAligned;
  }

  lemma WriteApart(sp: Space, m: Store, v: seq<nat>, level: nat, leaf: Pte, gnext: nat, next: nat, n: nat)
    requires MayWrite(sp, m, v, level, leaf, gnext, next, n)
    ensures Apart(sp, LeafStore(sp, G.ReadAt(Look(sp, m), v, level), leaf, m))
  {
    hide ValidSpace, T.TreeShaped, T.Allocated, FreeIsClean, G.TreeShaped, GpaFits, G.TableAt, GReach, Look, G.Allocated, Fresh,
         T.TableAt, T.ForTable,
         LeafStore, SameTables, SameReads;
    var h := G.ReadAt(Look(sp, m), v, level);
    var o := LeafStore(sp, h, leaf, m);
    WriteStage(sp, m, v, level, leaf, gnext, next, n);
    WriteLooks(sp, m, v, level, leaf, gnext, next, n);
    forall x, j, y, k ensures WordApart(sp, o, x, j, y, k) {
      if G.Comes(Look(sp, o), x, j) && T.Comes(sp, y, k, o) {
        G.WrittenRead(Look(sp, m), Look(sp, o), v, level, x, j, gnext, next);
        TableKept(sp, y, k, m, o);
        ApartAt(sp, m, x, j, y, k);
      }
    }
  }

  lemma WriteReady(sp: Space, m: Store, v: seq<nat>, level: nat, leaf: Pte, gnext: nat, next: nat, n: nat)
    requires MayWrite(sp, m, v, level, leaf, gnext, next, n)
    ensures var (h, o) := (G.ReadAt(Look(sp, m), v, level), LeafStore(sp, G.ReadAt(Look(sp, m), v, level), leaf, m));
            Ready(sp, o, gnext, next, n) && Updated(sp, m, v, level, leaf, h, o)
  {
    hide ValidSpace, T.TreeShaped, T.Allocated, FreeIsClean, G.TreeShaped, GReach, Look, G.Allocated, Fresh, LeafStore, SameTables,
         SameReads, Apart,
         NewLeaf, G.Writes, Updated, Open, WordAt;
    WriteStage(sp, m, v, level, leaf, gnext, next, n);
    WriteLooks(sp, m, v, level, leaf, gnext, next, n);
    WriteApart(sp, m, v, level, leaf, gnext, next, n);
    WriteUpdates(sp, m, v, level, leaf, gnext, next);
  }

  // ---------------------------------------------------------------- building is a map update

  /** The leaf is in its place, and the tables are ready to be built on again. */
  ghost predicate Inserted(sp: Space, m: Store, v: seq<nat>, level: nat, leaf: Pte, gnext: nat, n: nat, b: Built)
    requires sp.vmode.Paged?
  {
    && b.addr.Some? && gnext <= b.gnext <= gnext + n && Ready(sp, b.store, b.gnext, b.next, n - (b.gnext - gnext))
    && Updated(sp, m, v, level, leaf, b.addr.value, b.store)
  }

  /** Everything the builder asks of both stages and of the free pages. */
  ghost predicate MayBuild(sp: Space, m: Store, v: seq<nat>, level: nat, leaf: Pte, gnext: nat, next: nat, n: nat) {
    Ready(sp, m, gnext, next, n) && G.Buildable(Look(sp, m), v, level) && NewLeaf(sp, leaf, level)
  }

  /** The builder's address of an entry is the walk's. */
  lemma SameAddress(sp: Space, m: Store, vpn: seq<nat>, i: nat, level: nat)
    requires ValidSpace(sp) && sp.vmode.Paged? && sp.gmode.Paged? && |vpn| == sp.vmode.format.Levels()
    requires var (w, v) := (Look(sp, m), Offsets(sp.vmode.format, vpn)); G.Has(w, v, i) && G.Usable(w, v, i, level)
    ensures var (w, v) := (Look(sp, m), Offsets(sp.vmode.format, vpn));
            var h := SimpleHost(sp, G.TableAt(w, v, i).value * PAGE_SIZE, m);
            h.Some? && EntrySlot(sp.vmode.format, vpn, i, h.value) == Slot(G.ReadAt(w, v, i), sp.vmode.format.PteSize())
  {
    hide GWalk, Pow2, G.TableAt, TableTools.CodedWalk, GpaFits, ValidSpace, WordAt;
    var w, v := Look(sp, m), Offsets(sp.vmode.format, vpn);
    PlainPage(sp, IMPLICIT, G.TableAt(w, v, i).value, G.EntryAt(w, v, i), m);
  }

  lemma WriteStep(sp: Space, m: Store, vpn: seq<nat>, level: nat, leaf: Pte, gnext: nat, next: nat, n: nat)
    requires sp.vmode.Paged? && |vpn| == sp.vmode.format.Levels()
    requires MayBuild(sp, m, Offsets(sp.vmode.format, vpn), level, leaf, gnext, next, n)
             && G.Has(Look(sp, m), Offsets(sp.vmode.format, vpn), level)
    ensures var v := Offsets(sp.vmode.format, vpn);
            var b := BuildFrom(sp, vpn, level, level, G.TableAt(Look(sp, m), v, level).value * PAGE_SIZE, leaf, m, gnext, next);
            Inserted(sp, m, v, level, leaf, gnext, n, b) && b.gnext == gnext
  {
    hide BuildFrom, Pow2, SimpleHost, EntrySlot, GWalk, ValidSpace, Look, G.TableAt, WordAt, Updated, NewLeaf, Ready, Offsets;
    var v := Offsets(sp.vmode.format, vpn);
    var o := MayBeWritten(sp, m, v, level, leaf, gnext, next, n);
    ReadyIsPaged(sp, m, gnext, next, n);
    SameAddress(sp, m, vpn, level, level);
    BuildEnds(sp, vpn, level, level, G.TableAt(Look(sp, m), v, level).value * PAGE_SIZE, leaf, m, gnext, next);
    OpenIsStorable(sp, m, v, level);
    WriteReady(sp, m, v, level, leaf, gnext, next, n);
  }

  lemma MayBeWritten(sp: Space, m: Store, v: seq<nat>, level: nat, leaf: Pte, gnext: nat, next: nat, n: nat) returns (o: Store)
    requires MayBuild(sp, m, v, level, leaf, gnext, next, n) && G.Has(Look(sp, m), v, level)
    ensures G.Usable(Look(sp, m), v, level, level) && MayWrite(sp, m, v, level, leaf, gnext, next, n)
    ensures o == LeafStore(sp, G.ReadAt(Look(sp, m), v, level), leaf, m)
  {
    hide Ready, G.TableAt, NewLeaf;
    ReadyIsPaged(sp, m, gnext, next, n);
    assert G.Usable(Look(sp, m), v, level, level);
    o := LeafStore(sp, G.ReadAt(Look(sp, m), v, level), leaf, m);
  }

  lemma ReadyIsPaged(sp: Space, m: Store, gnext: nat, next: nat, n: nat)
    requires Ready(sp, m, gnext, next, n)
    ensures sp.vmode.Paged? && sp.gmode.Paged? && ValidSpace(sp)
  {
  }

  /** A valid entry is followed. */
  lemma FollowStep(sp: Space, m: Store, vpn: seq<nat>, i: nat, level: nat, leaf: Pte, gnext: nat, next: nat)
    requires sp.vmode.Paged? && |vpn| == sp.vmode.format.Levels() && sp.gmode.Paged? && level < i && ValidSpace(sp)
    requires var (w, v) := (Look(sp, m), Offsets(sp.vmode.format, vpn));
             G.Has(w, v, i) && G.Usable(w, v, i, level) && G.Comes(w, v, i) && w.cell(G.ReadAt(w, v, i)).Pointer?
    ensures var (w, v) := (Look(sp, m), Offsets(sp.vmode.format, vpn));
            && G.Has(w, v, i - 1)
            && BuildFrom(sp, vpn, i, level, G.TableAt(w, v, i).value * PAGE_SIZE, leaf, m, gnext, next) ==
               BuildFrom(sp, vpn, i - 1, level, G.TableAt(w, v, i - 1).value * PAGE_SIZE, leaf, m, gnext, next)
  {
    hide BuildFrom, Pow2, SimpleHost, EntrySlot, GWalk, BadPointer, MapPage, ValidSpace;
    var w, v := Look(sp, m), Offsets(sp.vmode.format, vpn);
    SameAddress(sp, m, vpn, i, level);
    BuildSteps(sp, vpn, i, level, G.TableAt(w, v, i).value * PAGE_SIZE, leaf, m, gnext, next);
  }

  /** An empty one is linked to a new guest page. */
  lemma LinkStep(sp: Space, m: Store, vpn: seq<nat>, i: nat, level: nat, leaf: Pte, gnext: nat, next: nat)
    requires sp.vmode.Paged? && |vpn| == sp.vmode.format.Levels() && sp.gmode.Paged? && level < i && ValidSpace(sp)
    requires var (w, v) := (Look(sp, m), Offsets(sp.vmode.format, vpn));
             G.Has(w, v, i) && G.Usable(w, v, i, level) && G.Comes(w, v, i) && w.cell(G.ReadAt(w, v, i)).Empty?
    requires gnext < 0x1000_0000_0000
    requires var b := MapPage(sp, gnext, true, m, next); b.addr.Some? && SameFaults(m, b.store)
    ensures var (w, v) := (Look(sp, m), Offsets(sp.vmode.format, vpn));
            BuildFrom(sp, vpn, i, level, G.TableAt(w, v, i).value * PAGE_SIZE, leaf, m, gnext, next) ==
            BuildFrom(sp, vpn, i - 1, level, gnext * PAGE_SIZE, leaf, LinkedStore(sp, G.ReadAt(w, v, i), m, gnext, next), gnext + 1,
                      MapPage(sp, gnext, true, m, next).next)
  {
    var w, v := Look(sp, m), Offsets(sp.vmode.format, vpn);
    SameAddress(sp, m, vpn, i, level);
    OpenIsStorable(sp, m, v, i);
    EmptyIsZero(sp, m, v, i);
    hide BuildFrom, Pow2, SimpleHost, EntrySlot, GWalk, MapPage, ValidSpace, Look, G.TableAt, WordAt, LinkedStore;
    LinkStepAt(sp, m, vpn, i, level, G.TableAt(w, v, i).value * PAGE_SIZE, G.ReadAt(w, v, i), leaf, gnext, next);
  }

  lemma LinkStepAt(sp: Space, m: Store, vpn: seq<nat>, i: nat, level: nat, a: nat, h: nat, leaf: Pte, gnext: nat, next: nat)
    requires sp.vmode.Paged? && sp.gmode.Paged? && level < i < |vpn| && gnext < 0x1000_0000_0000 && SimpleHost(sp, a, m).Some?
    requires EntrySlot(sp.vmode.format, vpn, i, SimpleHost(sp, a, m).value) == Slot(h, sp.vmode.format.PteSize())
    requires WordAt(sp, m, h) == ZERO_PTE && LoadStatus(m, h).Okay? && StoreStatus(m, h).Okay?
    requires var b := MapPage(sp, gnext, true, m, next); b.addr.Some? && SameFaults(m, b.store)
    ensures BuildFrom(sp, vpn, i, level, a, leaf, m, gnext, next) ==
            BuildFrom(sp, vpn, i - 1, level, gnext * PAGE_SIZE, leaf, LinkedStore(sp, h, m, gnext, next), gnext + 1,
                      MapPage(sp, gnext, true, m, next).next)
  {
    hide BuildFrom, SimpleHost, EntrySlot, MapPage, StepDown, WordAt, LinkedStore, LoadStatus, StoreStatus;
    LinkDown(sp, h, m, gnext, next);
    BuildSteps(sp, vpn, i, level, a, leaf, m, gnext, next);
  }

  lemma LinkDown(sp: Space, h: nat, m: Store, gnext: nat, next: nat)
    requires sp.vmode.Paged? && sp.gmode.Paged? && gnext < 0x1000_0000_0000 && WordAt(sp, m, h) == ZERO_PTE
    requires LoadStatus(m, h).Okay? && StoreStatus(m, h).Okay?
    requires var b := MapPage(sp, gnext, true, m, next); b.addr.Some? && SameFaults(m, b.store)
    ensures StepDown(sp, Slot(h, sp.vmode.format.PteSize()), m, gnext, next) ==
            Stepped(Some(T.Linked(ZERO_PTE, gnext)), LinkedStore(sp, h, m, gnext, next), gnext + 1,
                    MapPage(sp, gnext, true, m, next).next)
  {
    hide MapPage;
  }

  lemma LinkedMayBuild(sp: Space, m: Store, v: seq<nat>, i: nat, level: nat, leaf: Pte, gnext: nat, next: nat, n: nat)
    requires MayBuild(sp, m, v, level, leaf, gnext, next, n) && 0 < n && level < i && G.Comes(Look(sp, m), v, i)
    requires Look(sp, m).cell(G.ReadAt(Look(sp, m), v, i)).Empty?
    ensures sp.vmode.Paged? && sp.gmode.Paged? && gnext < 0x1000_0000_0000
    ensures var (b, o) := (MapPage(sp, gnext, true, m, next), LinkedStore(sp, G.ReadAt(Look(sp, m), v, i), m, gnext, next));
            && b.addr.Some? && SameFaults(m, b.store) && MayBuild(sp, o, v, level, leaf, gnext + 1, b.next, n - 1)
            && SameSearches(sp, m, o) && StillBuildable(sp, v, level, m, o)
            && G.Has(Look(sp, o), v, i - 1) && G.TableAt(Look(sp, o), v, i - 1) == Some(gnext)
  {
    ReadyIsPaged(sp, m, gnext, next, n);
    PagesLeft(sp, m, gnext, next, n);
    hide Ready, Look, G.TableAt, MapPage, LinkedStore, NewLeaf, SameSearches;
    LinkReady(sp, m, v, i, level, gnext, next, n);
  }

  lemma PagesLeft(sp: Space, m: Store, gnext: nat, next: nat, n: nat)
    requires Ready(sp, m, gnext, next, n) && 0 < n
    ensures gnext < 0x1000_0000_0000
  {
  }

  lemma {:induction false} BuildInserts(sp: Space, m: Store, vpn: seq<nat>, i: nat, level: nat, leaf: Pte, gnext: nat, next: nat, n: nat)
    requires sp.vmode.Paged? && |vpn| == sp.vmode.format.Levels() && level <= i <= level + n
    requires MayBuild(sp, m, Offsets(sp.vmode.format, vpn), level, leaf, gnext, next, n)
             && G.Has(Look(sp, m), Offsets(sp.vmode.format, vpn), i)
    ensures var v := Offsets(sp.vmode.format, vpn);
            var b := BuildFrom(sp, vpn, i, level, G.TableAt(Look(sp, m), v, i).value * PAGE_SIZE, leaf, m, gnext, next);
            Inserted(sp, m, v, level, leaf, gnext, n, b) && b.gnext <= gnext + (i - level)
    decreases i
  {
    hide BuildFrom, G.TableAt, Look, Ready, MapPage, LinkedStore, Updated, NewLeaf, ValidSpace, Offsets, SameSearches, StillBuildable;
    var w, v := Look(sp, m), Offsets(sp.vmode.format, vpn);
    assert G.Usable(w, v, i, level) by { G.UsableAt(w, v, i, level); }
    ReadyIsPaged(sp, m, gnext, next, n);
    if i == level {
      WriteStep(sp, m, vpn, level, leaf, gnext, next, n);
    } else if w.cell(G.ReadAt(w, v, i)).Pointer? {
      FollowStep(sp, m, vpn, i, level, leaf, gnext, next);
      BuildInserts(sp, m, vpn, i - 1, level, leaf, gnext, next, n);
    } else {
      LinkedMayBuild(sp, m, v, i, level, leaf, gnext, next, n);
      LinkStep(sp, m, vpn, i, level, leaf, gnext, next);
      var b, o := MapPage(sp, gnext, true, m, next), LinkedStore(sp, G.ReadAt(w, v, i), m, gnext, next);
      BuildInserts(sp, o, vpn, i - 1, level, leaf, gnext + 1, b.next, n - 1);
      var done := BuildFrom(sp, vpn, i - 1, level, gnext * PAGE_SIZE, leaf, o, gnext + 1, b.next);
      UpdatedBefore(sp, m, o, v, level, leaf, done.addr.value, done.store);
    }
  }

  lemma ReadyForFewer(sp: Space, m: Store, gnext: nat, next: nat, n: nat, k: nat)
    requires Ready(sp, m, gnext, next, n) && k <= n
    ensures Ready(sp, m, gnext, next, k)
  {
    var j := sp.gmode.format.Levels();
    assert n * j == (n - k) * j + k * j;
    hide Look, T.TreeShaped, T.Allocated, G.TreeShaped, G.Allocated, FreeIsClean, ValidSpace, T.CanPlace, GpaFits, Apart;
  }

  /** The builder acts on what the two-stage search finds as a map update, and leaves the tables ready for more. */
  lemma BuildIsMapUpdate(sp: Space, iova: U64, level: nat, leaf: Pte, m: Store, gnext: nat, next: nat, n: nat)
    requires sp.vmode.Paged? && level < sp.vmode.format.Levels() <= level + 1 + n && Canonical(sp.vmode.format, iova)
    requires MayBuild(sp, m, PathOf(sp, iova), level, leaf, gnext, next, n)
    ensures var b := Build(sp, iova, level, leaf, m, gnext, next);
            && b.addr.Some? && Ready(sp, b.store, b.gnext, b.next, n - (sp.vmode.format.Levels() - 1 - level))
            && MapUpdate(sp, m, iova, level, leaf, b.addr.value, b.store)
  {
    hide BuildFrom, Ready, Look, NewLeaf, Canonical, Indices, PathOf, Updated, MapUpdate, G.Buildable;
    var top := sp.vmode.format.Levels() - 1;
    var b := Build(sp, iova, level, leaf, m, gnext, next);
    RootOf(sp, iova, m);
    PathIsOffsets(sp, iova);
    BuildInserts(sp, m, Indices(sp.vmode.format, 0, iova), top, level, leaf, gnext, next, n);
    ReadyForFewer(sp, b.store, b.gnext, b.next, n - (b.gnext - gnext), n - (top - level));
    ReadyIsApart(sp, m, gnext, next, n);
    ReadyIsApart(sp, b.store, b.gnext, b.next, n - (b.gnext - gnext));
    UpdateOfRegion(sp, m, iova, level, leaf, b.addr.value, b.store);
  }

  lemma ReadyIsApart(sp: Space, m: Store, gnext: nat, next: nat, n: nat)
    requires Ready(sp, m, gnext, next, n)
    ensures sp.vmode.Paged? && ValidSpace(sp) && Apart(sp, m)
  {
  }

  // ---------------------------------------------------------------- many mappings

  /** Calls of `add_vs_stage_pte` one after the other, if none fails */
  function BuildAll(sp: Space, maps: seq<Mapping>, m: Store, gnext: nat, next: nat): Option<Store>
    requires sp.vmode.Paged?
    decreases |maps|
  {
    if maps == [] then Some(m)
    else
      var b := Build(sp, maps[0].iova, maps[0].level, maps[0].leaf, m, gnext, next);
      if b.addr.None? then None else BuildAll(sp, maps[1..], b.store, b.gnext, b.next)
  }

  /** Everything that making the mappings asks. */
  ghost predicate MayBuildAll(sp: Space, maps: seq<Mapping>, m: Store, gnext: nat, next: nat)
    requires sp.vmode.Paged?
  {
    && Ready(sp, m, gnext, next, |maps| * (sp.vmode.format.Levels() - 1)) && NoneCutOff(sp, maps)
    && forall k | 0 <= k < |maps| :: MayPlace(sp, maps[k], m)
  }

  lemma BuildOne(sp: Space, maps: seq<Mapping>, m: Store, gnext: nat, next: nat)
    requires sp.vmode.Paged? && maps != [] && MayBuildAll(sp, maps, m, gnext, next)
    ensures var e := maps[0];
            var b := Build(sp, e.iova, e.level, e.leaf, m, gnext, next);
            && b.addr.Some? && MayBuildAll(sp, maps[1..], b.store, b.gnext, b.next)
            && forall x: U64 ::
                 if Maps(sp, e, x) then ReachesLeaf(VReach(sp, x, b.store).0, e) else VReach(sp, x, b.store).0 == VReach(sp, x, m).0
  {
    hide Build, Ready, Canonical, SameBlock, VReach, NewLeaf, PathOf, CanPlace;
    var e, n, k := maps[0], |maps|, sp.vmode.format.Levels() - 1;
    assert MayPlace(sp, e, m);
    assert n * k == (n - 1) * k + k;
    CanPlaceMeans(sp, e.iova, e.level, m);
    BuildIsMapUpdate(sp, e.iova, e.level, e.leaf, m, gnext, next, n * k);
    var b := Build(sp, e.iova, e.level, e.leaf, m, gnext, next);
    ReadyForFewer(sp, b.store, b.gnext, b.next, n * k - (k - e.level), (n - 1) * k);
    forall i | 0 <= i < n - 1 ensures MayPlace(sp, maps[1..][i], b.store) {
      assert maps[1..][i] == maps[i + 1];
      assert MayPlace(sp, maps[i + 1], m);
    }
  }

  /** The first stage that a series of mappings leaves is a finite map: each address comes to the leaf last
      mapped over it, the others to what they came to before. */
  lemma {:induction false} BuildAllIsMap(sp: Space, maps: seq<Mapping>, m: Store, gnext: nat, next: nat, x: U64)
    requires sp.vmode.Paged? && MayBuildAll(sp, maps, m, gnext, next)
    ensures var r := BuildAll(sp, maps, m, gnext, next);
            && r.Some?
            && match LastFor(sp, maps, x)
               case Some(e) => ReachesLeaf(VReach(sp, x, r.value).0, e)
               case None => VReach(sp, x, r.value).0 == VReach(sp, x, m).0
    decreases |maps|
  {
    hide Build, MayBuildAll, VReach, Maps, ReachesLeaf;
    if maps != [] {
      var e := maps[0];
      BuildOne(sp, maps, m, gnext, next);
      var b := Build(sp, e.iova, e.level, e.leaf, m, gnext, next);
      BuildAllIsMap(sp, maps[1..], b.store, b.gnext, b.next, x);
    }
  }

  // ---------------------------------------------------------------- an empty first stage

  /** The root page is mapped to a page with nothing in it, no faults injected, and no second-stage entries. */
  ghost predicate EmptyRoot(sp: Space, m: Store, page: nat) {
    && ValidSpace(sp) && sp.vmode.Paged? && Plain(sp, IMPLICIT, sp.vppn, m)
    && Host(sp, IMPLICIT, sp.vppn * PAGE_SIZE, m) == Some(page * PAGE_SIZE)
    && (forall k: nat | InPage(k, page) :: WordAt(sp, m, k) == ZERO_PTE && Open(sp, m, k))
    && forall v, i :: OutsidePage(sp, v, i, m, page)
  }

  predicate OutsidePage(sp: Space, v: seq<nat>, i: nat, m: Store, page: nat) {
    T.Comes(sp, v, i, m) ==> !InPage(T.EntryAt(sp, v, i, m).addr, page)
  }

  /** In an empty first stage walks end in the root. */
  lemma EmptyRootEnds(sp: Space, m: Store, page: nat, v: seq<nat>, j: nat)
    requires EmptyRoot(sp, m, page) && G.Has(Look(sp, m), v, j)
    ensures var w := Look(sp, m);
            && w.levels == sp.vmode.format.Levels() == j + 1 && G.TableAt(w, v, j) == Some(sp.vppn)
            && (forall k: nat :: G.Usable(w, v, j, k))
            && G.Comes(w, v, j) && G.ReadAt(w, v, j) == page * PAGE_SIZE + v[j] && w.cell(G.ReadAt(w, v, j)).Empty?
  {
    hide GWalk, Pow2, G.TableAt, GpaFits, ValidSpace, TableTools.CodedWalk, WordAt, T.TableAt, T.ForTable;
    var w, top := Look(sp, m), sp.vmode.format.Levels() - 1;
    G.RootTable(w, v);
    PlainPage(sp, IMPLICIT, sp.vppn, G.EntryAt(w, v, top), m);
    assert InPage(page * PAGE_SIZE + v[top], page);
    if j < top { G.NoTableBelow(w, v, top, j); }
  }

  /** It is a tree to start from, apart from the second stage. */
  lemma EmptyRootIsTree(sp: Space, m: Store, page: nat, gnext: nat, next: nat)
    requires EmptyRoot(sp, m, page) && page < next && sp.vppn < gnext
    ensures G.TreeShaped(Look(sp, m)) && G.Allocated(Look(sp, m), gnext, next) && Apart(sp, m)
  {
    hide Look, G.TableAt, EmptyRoot;
    EmptyIsPaged(sp, m, page);
    EmptyIsApart(sp, m, page);
    var w := Look(sp, m);
    forall v, i, x, j ensures G.ReadApart(w, v, i, x, j) {
      if G.Comes(w, v, i) && G.Comes(w, x, j) && G.ReadAt(w, v, i) == G.ReadAt(w, x, j) {
        EmptyRootEnds(sp, m, page, v, i);
        EmptyRootEnds(sp, m, page, x, j);
      }
    }
    forall v, i ensures G.Below(w, v, i, gnext, next) { if G.Has(w, v, i) { EmptyRootEnds(sp, m, page, v, i); } }
  }

  lemma EmptyIsApart(sp: Space, m: Store, page: nat)
    requires EmptyRoot(sp, m, page)
    ensures Apart(sp, m)
  {
    hide Look, G.TableAt, T.TableAt, T.ForTable, WordAt, ValidSpace, Plain, Host;
    forall v, i, y, k ensures WordApart(sp, m, v, i, y, k) {
      if G.Comes(Look(sp, m), v, i) { EmptyRootEnds(sp, m, page, v, i); }
      assert OutsidePage(sp, y, k, m, page);
    }
  }

  /** In an empty first stage any leaf can be placed, and no address is mapped. */
  lemma EmptyRootMapsNothing(sp: Space, m: Store, page: nat, gnext: nat, next: nat, x: U64, k: nat)
    requires EmptyRoot(sp, m, page) && page < next && sp.vppn < gnext
    ensures CanPlace(sp, x, k, m) && VReach(sp, x, m).0 == VStop(PageFault)
  {
    hide Look, EmptyRoot, G.TableAt, VReach, Found, PathOf, Canonical;
    EmptyRootIsTree(sp, m, page, gnext, next);
    EmptyIsPaged(sp, m, page);
    var w, v := Look(sp, m), PathOf(sp, x);
    PathInPages(sp, x, m);
    forall j | k <= j < w.levels ensures G.Usable(w, v, j, k) { if G.Has(w, v, j) { EmptyRootEnds(sp, m, page, v, j); } }
    RootOf(sp, x, m);
    EmptyRootEnds(sp, m, page, v, sp.vmode.format.Levels() - 1);
    EmptyStops(sp, x, sp.vmode.format.Levels() - 1, m);
    ReachIsFound(sp, x, m);
  }

  lemma EmptyIsPaged(sp: Space, m: Store, page: nat)
    requires EmptyRoot(sp, m, page)
    ensures ValidSpace(sp) && sp.vmode.Paged? && sp.gmode.Paged?
  {
  }

  /** From an empty first stage, with GADE set and a second stage that has room: an address is mapped exactly if
      some mapping covers it, by the last that does. */
  lemma BuiltFromEmpty(sp: Space, maps: seq<Mapping>, m: Store, page: nat, gnext: nat, next: nat, x: U64)
    requires EmptyRoot(sp, m, page) && page < next && sp.vppn < gnext && sp.gade && NoneCutOff(sp, maps)
    requires var n := |maps| * (sp.vmode.format.Levels() - 1);
             && T.TreeShaped(sp, m) && T.Allocated(sp, m, next) && FreeIsClean(m, next) && Fresh(sp, m, gnext, n)
             && T.Room(sp, next, n * sp.gmode.format.Levels()) && (sp.vmode.format.Sv32? ==> gnext + n <= 0x40_0000)
    requires forall k | 0 <= k < |maps| ::
               Canonical(sp.vmode.format, maps[k].iova) && maps[k].level < sp.vmode.format.Levels()
               && NewLeaf(sp, maps[k].leaf, maps[k].level)
    ensures var r := BuildAll(sp, maps, m, gnext, next);
            && r.Some?
            && match LastFor(sp, maps, x)
               case Some(e) => ReachesLeaf(VReach(sp, x, r.value).0, e)
               case None => VReach(sp, x, r.value).0 == VStop(PageFault)
  {
    hide BuildAll, T.TreeShaped, T.Allocated, FreeIsClean, G.TreeShaped, G.Allocated, Pow2, Look, Fresh, VReach, CanPlace, Canonical,
         EmptyRoot, Apart,
         NewLeaf, LastFor, ReachesLeaf, NoneCutOff;
    EmptyIsPaged(sp, m, page);
    EmptyRootIsTree(sp, m, page, gnext, next);
    EmptyRootMapsNothing(sp, m, page, gnext, next, x, 0);
    forall k | 0 <= k < |maps| ensures MayPlace(sp, maps[k], m) {
      EmptyRootMapsNothing(sp, m, page, gnext, next, maps[k].iova, maps[k].level);
    }
    BuildAllIsMap(sp, maps, m, gnext, next, x);
  }
}
